/**
 * Why running the same statements twice leaves the graph as running them
 * once: once the nodes a statement sequence depends on are fixed, the
 * sequence is a list of unconditional upserts, and a list of upserts can be
 * summarised as one patch per node and relationship, which applied a second
 * time changes nothing.
 */
module Replay {
  import opened Cypher

  /** An unconditional upsert. */
  datatype Write = NodeWrite(node: NodeRef, assign: Props) | RelWrite(rel: RelRef, assign: Props)

  function ApplyWrite(g: Graph, w: Write): Graph {
    match w
    case NodeWrite(n, a) => UpsertNode(g, n, a)
    case RelWrite(r, a) => UpsertRel(g, r, a)
  }

  function Apply(g: Graph, ws: seq<Write>): Graph
    decreases |ws|
  {
    if |ws| == 0 then g else Apply(ApplyWrite(g, ws[0]), ws[1..])
  }

  /** What a statement does when the nodes in `present` exist. */
  function Writes(present: set<NodeRef>, s: Stmt): seq<Write> {
    match s
    case MergeSet(n, a) => [NodeWrite(n, a)]
    case MatchMergeRel(r, a) =>
      if r.from in present && r.to in present then [RelWrite(r, a)] else []
    case MergeSetLink(n, a, r) =>
      [NodeWrite(n, a)] + (if r.from in present + {n} && r.to in present + {n} then [RelWrite(r, map[])] else [])
  }

  /** The upserts a statement sequence performs starting with the nodes in
      `present`. */
  function Resolve(present: set<NodeRef>, ss: seq<Stmt>): seq<Write>
    decreases |ss|
  {
    if |ss| == 0 then [] else Writes(present, ss[0]) + Resolve(present + Created(ss[0]), ss[1..])
  }

  lemma {:induction false} ApplyAppend(g: Graph, a: seq<Write>, b: seq<Write>)
    ensures Apply(g, a + b) == Apply(Apply(g, a), b)
    decreases |a|
  {
    if |a| == 0 {
      assert a + b == b;
    } else {
      assert (a + b)[0] == a[0];
      assert (a + b)[1..] == a[1..] + b;
      ApplyAppend(ApplyWrite(g, a[0]), a[1..], b);
    }
  }

  /** A statement is the upserts it resolves to in the graph it runs on. */
  lemma ExecWrites(g: Graph, s: Stmt)
    ensures Exec(g, s) == Apply(g, Writes(g.nodes.Keys, s))
  {
    match s
    case MergeSet(n, a) =>
    case MatchMergeRel(r, a) =>
    case MergeSetLink(n, a, r) =>
      var h := UpsertNode(g, n, a);
      ApplyAppend(g, [NodeWrite(n, a)], if r.from in g.nodes.Keys + {n} && r.to in g.nodes.Keys + {n} then [RelWrite(r, map[])] else []);
      assert h.nodes.Keys == g.nodes.Keys + {n};
  }

  /** A statement sequence is the upserts it resolves to. */
  lemma {:induction false} ExecAllResolve(g: Graph, ss: seq<Stmt>)
    ensures ExecAll(g, ss) == Apply(g, Resolve(g.nodes.Keys, ss))
    decreases |ss|
  {
    if |ss| > 0 {
      var h := Exec(g, ss[0]);
      ExecKeys(g, ss[0]);
      ExecWrites(g, ss[0]);
      ExecAllResolve(h, ss[1..]);
      ApplyAppend(g, Writes(g.nodes.Keys, ss[0]), Resolve(g.nodes.Keys + Created(ss[0]), ss[1..]));
    }
  }

  // ---------------------------------------------------------------------
  // Patches
  // ---------------------------------------------------------------------

  /** For each key, the combined SET list of all upserts to it. */
  datatype Patch = Patch(nodes: map<NodeRef, Props>, rels: map<RelRef, Props>)

  function PatchMap<K>(m: map<K, Props>, p: map<K, Props>): map<K, Props> {
    map k | k in m.Keys + p.Keys :: if k in p then SetProps(PropsOf(m, k), p[k]) else m[k]
  }

  function ComposeMap<K>(p: map<K, Props>, q: map<K, Props>): map<K, Props> {
    map k | k in p.Keys + q.Keys :: if k in p && k in q then p[k] + q[k] else if k in q then q[k] else p[k]
  }

  function ApplyPatch(g: Graph, p: Patch): Graph {
    Graph(PatchMap(g.nodes, p.nodes), PatchMap(g.rels, p.rels))
  }

  function Compose(p: Patch, q: Patch): Patch {
    Patch(ComposeMap(p.nodes, q.nodes), ComposeMap(p.rels, q.rels))
  }

  function Single(w: Write): Patch {
    match w
    case NodeWrite(n, a) => Patch(map[n := a], map[])
    case RelWrite(r, a) => Patch(map[], map[r := a])
  }

  function Summary(ws: seq<Write>): Patch
    decreases |ws|
  {
    if |ws| == 0 then Patch(map[], map[]) else Compose(Single(ws[0]), Summary(ws[1..]))
  }

  /** Patching twice is patching once with the composed patch. */
  lemma PatchMapCompose<K>(m: map<K, Props>, p: map<K, Props>, q: map<K, Props>)
    ensures PatchMap(PatchMap(m, p), q) == PatchMap(m, ComposeMap(p, q))
  {
    var mp := PatchMap(m, p);
    var c := ComposeMap(p, q);
    var l := PatchMap(mp, q);
    var r := PatchMap(m, c);
    assert l.Keys == r.Keys;
    forall k | k in l ensures l[k] == r[k] {
      PatchMapAt(m, p, q, k);
    }
  }

  lemma PatchMapAt<K>(m: map<K, Props>, p: map<K, Props>, q: map<K, Props>, k: K)
    requires k in m || k in p || k in q
    ensures PatchMap(PatchMap(m, p), q)[k] == PatchMap(m, ComposeMap(p, q))[k]
  {
    var mp := PatchMap(m, p);
    var c := ComposeMap(p, q);
    if k in q {
      if k in p {
        assert c[k] == p[k] + q[k];
        assert PropsOf(mp, k) == SetProps(PropsOf(m, k), p[k]);
        SetPropsCompose(PropsOf(m, k), p[k], q[k]);
      } else {
        assert c[k] == q[k];
        assert PropsOf(mp, k) == PropsOf(m, k);
      }
    } else if k in p {
      assert c[k] == p[k];
    } else {
      assert k !in c;
    }
  }

  /** A patch composed with itself is itself. */
  lemma ComposeMapSelf<K>(p: map<K, Props>)
    ensures ComposeMap(p, p) == p
  {
    var c := ComposeMap(p, p);
    forall k | k in p ensures c[k] == p[k] {
      assert p[k] + p[k] == p[k];
    }
  }

  lemma PatchMapEmpty<K>(m: map<K, Props>)
    ensures PatchMap(m, map[]) == m
  {
  }

  lemma PatchMapOne<K>(m: map<K, Props>, k: K, a: Props)
    ensures PatchMap(m, map[k := a]) == m[k := SetProps(PropsOf(m, k), a)]
  {
    var l, r := PatchMap(m, map[k := a]), m[k := SetProps(PropsOf(m, k), a)];
    assert l.Keys == r.Keys;
  }

  lemma ApplySingle(g: Graph, w: Write)
    ensures ApplyWrite(g, w) == ApplyPatch(g, Single(w))
  {
    match w
    case NodeWrite(n, a) =>
      PatchMapOne(g.nodes, n, a);
      PatchMapEmpty(g.rels);
    case RelWrite(r, a) =>
      PatchMapOne(g.rels, r, a);
      PatchMapEmpty(g.nodes);
  }

  /** A list of upserts does what its summary patch does. */
  lemma {:induction false} ApplySummary(g: Graph, ws: seq<Write>)
    ensures Apply(g, ws) == ApplyPatch(g, Summary(ws))
    decreases |ws|
  {
    if |ws| == 0 {
      PatchMapEmpty(g.nodes);
      PatchMapEmpty(g.rels);
    } else {
      var p, q := Single(ws[0]), Summary(ws[1..]);
      ApplySummary(ApplyWrite(g, ws[0]), ws[1..]);
      ApplySingle(g, ws[0]);
      PatchMapCompose(g.nodes, p.nodes, q.nodes);
      PatchMapCompose(g.rels, p.rels, q.rels);
    }
  }

  /** Performing the same upserts twice is performing them once. */
  lemma ApplyTwice(g: Graph, ws: seq<Write>)
    ensures Apply(Apply(g, ws), ws) == Apply(g, ws)
  {
    var p := Summary(ws);
    ApplySummary(g, ws);
    ApplySummary(Apply(g, ws), ws);
    PatchMapCompose(g.nodes, p.nodes, p.nodes);
    PatchMapCompose(g.rels, p.rels, p.rels);
    ComposeMapSelf(p.nodes);
    ComposeMapSelf(p.rels);
  }

  // ---------------------------------------------------------------------
  // Stable guards
  // ---------------------------------------------------------------------

  /** Adding the nodes in `extra` before the run changes no guard of `ss`,
      given that the nodes in `made` are merged ahead of it: every guard
      node in `extra` has already been merged when its statement runs. */
  ghost predicate Stable(made: set<NodeRef>, extra: set<NodeRef>, ss: seq<Stmt>)
    decreases |ss|
  {
    |ss| == 0 || (Guards(ss[0]) * extra <= made && Stable(made + Created(ss[0]), extra, ss[1..]))
  }

  lemma WritesStable(present: set<NodeRef>, extra: set<NodeRef>, s: Stmt)
    requires Guards(s) * extra <= present
    ensures Writes(present + extra, s) == Writes(present, s)
  {
  }

  lemma {:induction false} ResolveStable(present: set<NodeRef>, made: set<NodeRef>, extra: set<NodeRef>, ss: seq<Stmt>)
    requires Stable(made, extra, ss) && made <= present
    ensures Resolve(present + extra, ss) == Resolve(present, ss)
    decreases |ss|
  {
    if |ss| > 0 {
      WritesStable(present, extra, ss[0]);
      var c := Created(ss[0]);
      ResolveStable(present + c, made + c, extra, ss[1..]);
      assert present + extra + c == present + c + extra;
    }
  }

  /** Running a statement sequence whose guards are stable against its own
      nodes a second time leaves the graph as the first run left it. */
  lemma ExecAllTwice(g: Graph, ss: seq<Stmt>)
    requires Stable({}, CreatedAll(ss), ss)
    ensures ExecAll(ExecAll(g, ss), ss) == ExecAll(g, ss)
  {
    var ws := Resolve(g.nodes.Keys, ss);
    var h := ExecAll(g, ss);
    ExecAllResolve(g, ss);
    ExecAllKeys(g, ss);
    ExecAllResolve(h, ss);
    ResolveStable(g.nodes.Keys, {}, CreatedAll(ss), ss);
    ApplyTwice(g, ws);
  }

  // ---------------------------------------------------------------------
  // Building stable sequences
  // ---------------------------------------------------------------------

  lemma {:induction false} StableMono(made: set<NodeRef>, more: set<NodeRef>, extra: set<NodeRef>, ss: seq<Stmt>)
    requires Stable(made, extra, ss) && made <= more
    ensures Stable(more, extra, ss)
    decreases |ss|
  {
    if |ss| > 0 {
      StableMono(made + Created(ss[0]), more + Created(ss[0]), extra, ss[1..]);
    }
  }

  lemma {:induction false} StableShrink(made: set<NodeRef>, extra: set<NodeRef>, fewer: set<NodeRef>, ss: seq<Stmt>)
    requires Stable(made, extra, ss) && fewer <= extra
    ensures Stable(made, fewer, ss)
    decreases |ss|
  {
    if |ss| > 0 {
      StableShrink(made + Created(ss[0]), extra, fewer, ss[1..]);
    }
  }

  lemma {:induction false} StableAppend(made: set<NodeRef>, extra: set<NodeRef>, a: seq<Stmt>, b: seq<Stmt>)
    requires Stable(made, extra, a) && Stable(made + CreatedAll(a), extra, b)
    ensures Stable(made, extra, a + b)
    decreases |a|
  {
    if |a| == 0 {
      assert a + b == b;
      assert made + CreatedAll(a) == made;
    } else {
      assert (a + b)[0] == a[0];
      assert (a + b)[1..] == a[1..] + b;
      assert made + Created(a[0]) + CreatedAll(a[1..]) == made + CreatedAll(a);
      StableAppend(made + Created(a[0]), extra, a[1..], b);
    }
  }

  /** Two self-contained pieces make a self-contained whole. */
  lemma StableConcat(extra: set<NodeRef>, a: seq<Stmt>, b: seq<Stmt>)
    requires Stable({}, extra, a) && Stable({}, extra, b)
    ensures Stable({}, extra, a + b)
  {
    StableMono({}, CreatedAll(a), extra, b);
    assert {} + CreatedAll(a) == CreatedAll(a);
    StableAppend({}, extra, a, b);
  }

  /** Relationship merges whose guards, as far as they are in `extra`, are
      already merged. */
  lemma {:induction false} StableLinks(made: set<NodeRef>, extra: set<NodeRef>, ss: seq<Stmt>)
    requires forall i :: 0 <= i < |ss| ==> ss[i].MatchMergeRel? && Guards(ss[i]) * extra <= made
    ensures Stable(made, extra, ss)
    decreases |ss|
  {
    if |ss| > 0 {
      assert Created(ss[0]) == {};
      assert made + Created(ss[0]) == made;
      assert forall i :: 0 <= i < |ss| - 1 ==> ss[1..][i] == ss[i + 1];
      StableLinks(made, extra, ss[1..]);
    }
  }
}
