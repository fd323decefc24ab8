/**
 * The property graph the loader writes to, and the three shapes of Cypher
 * statement it sends:
 *
 *   MERGE (n:L {key: $k}) SET n.p = $v, ...                      (MergeSet)
 *   MATCH (a ...) MATCH (b ...) MERGE (a)-[r:T]->(b) [SET r.p = $v] (MatchMergeRel)
 *   MERGE (n:L {key: $k}) SET ... WITH n MATCH (m ...) MERGE (n)-[:T]-(m)
 *                                                               (MergeSetLink)
 *
 * A node is identified by its label and the value of that label's unique
 * key property (product_id, type, event_id, sale_id, project_id, filename);
 * a relationship by its type and its two end nodes, since every
 * relationship the loader creates goes through MERGE and so is unique.
 */
module Cypher {
  import opened Json

  datatype Label = Product | BatteryType | TradeShow | Event | Sale | RDProject | Image

  datatype RelType = UsesBattery | DisplayedAt | SoldAt | IncludesProduct | DeployedAt | TargetsProduct

  datatype NodeRef = Node(kind: Label, key: string)

  datatype RelRef = Rel(rtype: RelType, from: NodeRef, to: NodeRef)

  type Props = map<string, Value>

  datatype Graph = Graph(nodes: map<NodeRef, Props>, rels: map<RelRef, Props>)

  /** `MATCH (n) DETACH DELETE n` leaves this. */
  const Empty := Graph(map[], map[])

  /** The properties stored under `k`, or none when `k` is absent. */
  function PropsOf<K>(m: map<K, Props>, k: K): Props {
    if k in m then m[k] else map[]
  }

  /** Every relationship joins two nodes of the graph. */
  ghost predicate WellFormed(g: Graph) {
    forall r :: r in g.rels ==> r.from in g.nodes && r.to in g.nodes
  }

  // ---------------------------------------------------------------------
  // SET
  // ---------------------------------------------------------------------

  /** `SET x.p1 = v1, x.p2 = v2, ...`: each listed property takes the new
      value; setting a property to null removes it. */
  function SetProps(p: Props, a: Props): (r: Props)
    ensures forall k :: k in a && a[k] != Null ==> k in r && r[k] == a[k]
    ensures forall k :: k in a && a[k] == Null ==> k !in r
    ensures forall k :: k !in a ==> (k in r <==> k in p) && (k in p ==> r[k] == p[k])
  {
    map k | k in p.Keys + a.Keys && (k in a ==> a[k] != Null) :: if k in a then a[k] else p[k]
  }

  /** Two SETs in a row are one SET of the combined list, later values
      winning. */
  lemma SetPropsCompose(p: Props, a: Props, b: Props)
    ensures SetProps(SetProps(p, a), b) == SetProps(p, a + b)
  {
    var l := SetProps(SetProps(p, a), b);
    var r := SetProps(p, a + b);
    assert l.Keys == r.Keys;
    forall k | k in l ensures l[k] == r[k] {
    }
  }

  /** Repeating a SET changes nothing. */
  lemma SetPropsIdempotent(p: Props, a: Props)
    ensures SetProps(SetProps(p, a), a) == SetProps(p, a)
  {
    SetPropsCompose(p, a, a);
    assert a + a == a;
  }

  // ---------------------------------------------------------------------
  // MERGE
  // ---------------------------------------------------------------------

  /** `MERGE (n) SET ...`: the node is created when absent, then its listed
      properties are set. Nothing else changes. */
  function UpsertNode(g: Graph, n: NodeRef, a: Props): (r: Graph)
    ensures r.nodes.Keys == g.nodes.Keys + {n}
    ensures r.nodes[n] == SetProps(PropsOf(g.nodes, n), a)
    ensures forall m :: m in g.nodes && m != n ==> r.nodes[m] == g.nodes[m]
    ensures r.rels == g.rels
  {
    g.(nodes := g.nodes[n := SetProps(PropsOf(g.nodes, n), a)])
  }

  /** `MERGE (a)-[r]->(b) SET ...` once both ends are bound. */
  function UpsertRel(g: Graph, r: RelRef, a: Props): (h: Graph)
    ensures h.rels.Keys == g.rels.Keys + {r}
    ensures h.rels[r] == SetProps(PropsOf(g.rels, r), a)
    ensures forall q :: q in g.rels && q != r ==> h.rels[q] == g.rels[q]
    ensures h.nodes == g.nodes
  {
    g.(rels := g.rels[r := SetProps(PropsOf(g.rels, r), a)])
  }

  /** `MATCH (a) MATCH (b) MERGE (a)-[r]->(b) SET ...`: when either end is
      missing the MATCH finds no row and the statement does nothing. */
  function MatchMerge(g: Graph, r: RelRef, a: Props): (h: Graph)
    ensures r.from in g.nodes && r.to in g.nodes ==> h == UpsertRel(g, r, a)
    ensures !(r.from in g.nodes && r.to in g.nodes) ==> h == g
  {
    if r.from in g.nodes && r.to in g.nodes then UpsertRel(g, r, a) else g
  }

  // ---------------------------------------------------------------------
  // Statements
  // ---------------------------------------------------------------------

  datatype Stmt =
    | MergeSet(node: NodeRef, assign: Props)
    | MatchMergeRel(rel: RelRef, assign: Props)
    | MergeSetLink(node: NodeRef, assign: Props, rel: RelRef)

  function Exec(g: Graph, s: Stmt): Graph {
    match s
    case MergeSet(n, a) => UpsertNode(g, n, a)
    case MatchMergeRel(r, a) => MatchMerge(g, r, a)
    case MergeSetLink(n, a, r) => MatchMerge(UpsertNode(g, n, a), r, map[])
  }

  /** Statements run one after the other, each committed before the next
      (`session.run` auto-commits). */
  function ExecAll(g: Graph, ss: seq<Stmt>): Graph
    decreases |ss|
  {
    if |ss| == 0 then g else ExecAll(Exec(g, ss[0]), ss[1..])
  }

  /** The nodes a statement creates if they are absent. */
  function Created(s: Stmt): set<NodeRef> {
    match s
    case MergeSet(n, _) => {n}
    case MatchMergeRel(_, _) => {}
    case MergeSetLink(n, _, _) => {n}
  }

  function CreatedAll(ss: seq<Stmt>): set<NodeRef>
    decreases |ss|
  {
    if |ss| == 0 then {} else Created(ss[0]) + CreatedAll(ss[1..])
  }

  /** The nodes whose presence before the statement decides whether its
      relationship is merged. */
  function Guards(s: Stmt): set<NodeRef> {
    match s
    case MergeSet(_, _) => {}
    case MatchMergeRel(r, _) => {r.from, r.to}
    case MergeSetLink(n, _, r) => {r.from, r.to} - {n}
  }

  /** The relationship a statement may merge. */
  function RelOf(s: Stmt): set<RelRef> {
    match s
    case MergeSet(_, _) => {}
    case MatchMergeRel(r, _) => {r}
    case MergeSetLink(_, _, r) => {r}
  }

  // ---------------------------------------------------------------------
  // Laws of execution
  // ---------------------------------------------------------------------

  lemma {:induction false} ExecAllAppend(g: Graph, a: seq<Stmt>, b: seq<Stmt>)
    ensures ExecAll(g, a + b) == ExecAll(ExecAll(g, a), b)
    decreases |a|
  {
    if |a| == 0 {
      assert a + b == b;
    } else {
      assert (a + b)[0] == a[0];
      assert (a + b)[1..] == a[1..] + b;
      ExecAllAppend(Exec(g, a[0]), a[1..], b);
    }
  }

  lemma {:induction false} CreatedAllAppend(a: seq<Stmt>, b: seq<Stmt>)
    ensures CreatedAll(a + b) == CreatedAll(a) + CreatedAll(b)
    decreases |a|
  {
    if |a| == 0 {
      assert a + b == b;
    } else {
      assert (a + b)[0] == a[0];
      assert (a + b)[1..] == a[1..] + b;
      CreatedAllAppend(a[1..], b);
    }
  }

  /** A statement run leaves exactly the nodes it found plus the ones it
      merges; it never deletes a relationship. */
  lemma ExecKeys(g: Graph, s: Stmt)
    ensures Exec(g, s).nodes.Keys == g.nodes.Keys + Created(s)
    ensures g.rels.Keys <= Exec(g, s).rels.Keys
  {
  }

  /** After a sequence of statements the nodes are those present before plus
      those the statements merge; no relationship disappears. */
  lemma {:induction false} ExecAllKeys(g: Graph, ss: seq<Stmt>)
    ensures ExecAll(g, ss).nodes.Keys == g.nodes.Keys + CreatedAll(ss)
    ensures g.rels.Keys <= ExecAll(g, ss).rels.Keys
    decreases |ss|
  {
    if |ss| > 0 {
      ExecKeys(g, ss[0]);
      ExecAllKeys(Exec(g, ss[0]), ss[1..]);
    }
  }

  /** No statement leaves a relationship dangling. */
  lemma {:induction false} ExecAllWellFormed(g: Graph, ss: seq<Stmt>)
    requires WellFormed(g)
    ensures WellFormed(ExecAll(g, ss))
    decreases |ss|
  {
    if |ss| > 0 {
      var h := Exec(g, ss[0]);
      assert WellFormed(h) by {
        ExecKeys(g, ss[0]);
      }
      ExecAllWellFormed(h, ss[1..]);
    }
  }

  /** A guarded relationship is there afterwards exactly when it was there
      already or both of its ends were. */
  lemma MatchMergeGuard(g: Graph, r: RelRef, a: Props)
    ensures r in Exec(g, MatchMergeRel(r, a)).rels <==> r in g.rels || (r.from in g.nodes && r.to in g.nodes)
  {
  }

  // ---------------------------------------------------------------------
  // Frames: what a sequence of statements does not touch
  // ---------------------------------------------------------------------

  /** Every node the statement merges has a label in `ls` and every
      relationship it merges a type in `ts`. */
  predicate Within(s: Stmt, ls: set<Label>, ts: set<RelType>) {
    match s
    case MergeSet(n, _) => n.kind in ls
    case MatchMergeRel(r, _) => r.rtype in ts
    case MergeSetLink(n, _, r) => n.kind in ls && r.rtype in ts
  }

  predicate AllWithin(ss: seq<Stmt>, ls: set<Label>, ts: set<RelType>) {
    forall i :: 0 <= i < |ss| ==> Within(ss[i], ls, ts)
  }

  /** The part of the graph outside the given labels and types. */
  function Outside(g: Graph, ls: set<Label>, ts: set<RelType>): Graph {
    Graph(map n | n in g.nodes && n.kind !in ls :: g.nodes[n],
          map r | r in g.rels && r.rtype !in ts :: g.rels[r])
  }

  lemma UpsertNodeFrame(g: Graph, n: NodeRef, a: Props, ls: set<Label>, ts: set<RelType>)
    requires n.kind in ls
    ensures Outside(UpsertNode(g, n, a), ls, ts) == Outside(g, ls, ts)
  {
    var h := UpsertNode(g, n, a);
    assert Outside(h, ls, ts).nodes == Outside(g, ls, ts).nodes;
  }

  lemma MatchMergeFrame(g: Graph, r: RelRef, a: Props, ls: set<Label>, ts: set<RelType>)
    requires r.rtype in ts
    ensures Outside(MatchMerge(g, r, a), ls, ts) == Outside(g, ls, ts)
  {
    var h := MatchMerge(g, r, a);
    assert Outside(h, ls, ts).rels == Outside(g, ls, ts).rels;
  }

  lemma ExecFrame(g: Graph, s: Stmt, ls: set<Label>, ts: set<RelType>)
    requires Within(s, ls, ts)
    ensures Outside(Exec(g, s), ls, ts) == Outside(g, ls, ts)
    ensures forall n :: n in Created(s) ==> n.kind in ls
  {
    match s
    case MergeSet(n, a) => UpsertNodeFrame(g, n, a, ls, ts);
    case MatchMergeRel(r, a) => MatchMergeFrame(g, r, a, ls, ts);
    case MergeSetLink(n, a, r) =>
      UpsertNodeFrame(g, n, a, ls, ts);
      MatchMergeFrame(UpsertNode(g, n, a), r, map[], ls, ts);
  }

  /** Statements that stay within some labels and types change nothing
      outside them, and merge only nodes with those labels. */
  lemma {:induction false} ExecAllFrame(g: Graph, ss: seq<Stmt>, ls: set<Label>, ts: set<RelType>)
    requires AllWithin(ss, ls, ts)
    ensures Outside(ExecAll(g, ss), ls, ts) == Outside(g, ls, ts)
    ensures forall n :: n in CreatedAll(ss) ==> n.kind in ls
    decreases |ss|
  {
    if |ss| > 0 {
      var h := Exec(g, ss[0]);
      assert Within(ss[0], ls, ts);
      ExecFrame(g, ss[0], ls, ts);
      assert AllWithin(ss[1..], ls, ts) by {
        forall i | 0 <= i < |ss| - 1 ensures Within(ss[1..][i], ls, ts) {
          assert ss[1..][i] == ss[i + 1];
        }
      }
      ExecAllFrame(h, ss[1..], ls, ts);
    }
  }

  /** A relationship no later statement merges keeps its properties. */
  lemma {:induction false} ExecAllKeepsRel(g: Graph, ss: seq<Stmt>, r: RelRef)
    requires r in g.rels
    requires forall i :: 0 <= i < |ss| ==> r !in RelOf(ss[i])
    ensures r in ExecAll(g, ss).rels && ExecAll(g, ss).rels[r] == g.rels[r]
    decreases |ss|
  {
    if |ss| > 0 {
      assert r !in RelOf(ss[0]);
      ExecAllKeepsRel(Exec(g, ss[0]), ss[1..], r);
    }
  }

  /** A node no statement merges keeps its properties. */
  lemma {:induction false} ExecAllKeepsNode(g: Graph, ss: seq<Stmt>, n: NodeRef)
    requires n !in CreatedAll(ss)
    ensures n in ExecAll(g, ss).nodes <==> n in g.nodes
    ensures n in g.nodes ==> ExecAll(g, ss).nodes[n] == g.nodes[n]
    decreases |ss|
  {
    if |ss| > 0 {
      ExecAllKeepsNode(Exec(g, ss[0]), ss[1..], n);
    }
  }

  /** A run of guarded relationship merges leaves the nodes alone and adds
      exactly the relationships whose two ends exist. */
  lemma {:induction false} MatchMergeAll(g: Graph, ss: seq<Stmt>)
    requires forall i :: 0 <= i < |ss| ==> ss[i].MatchMergeRel?
    ensures ExecAll(g, ss).nodes == g.nodes
    ensures forall r :: r in ExecAll(g, ss).rels <==>
      r in g.rels || (r.from in g.nodes && r.to in g.nodes && exists i :: 0 <= i < |ss| && ss[i].rel == r)
    decreases |ss|
  {
    if |ss| > 0 {
      var h := Exec(g, ss[0]);
      assert forall i :: 0 <= i < |ss| - 1 ==> ss[1..][i] == ss[i + 1];
      MatchMergeAll(h, ss[1..]);
      forall r ensures r in ExecAll(g, ss).rels <==>
        r in g.rels || (r.from in g.nodes && r.to in g.nodes && exists i :: 0 <= i < |ss| && ss[i].rel == r)
      {
        if r in ExecAll(g, ss).rels && r !in g.rels && r != ss[0].rel {
          var i :| 0 <= i < |ss| - 1 && ss[1..][i].rel == r;
          assert ss[i + 1].rel == r;
        }
        if exists i :: 0 <= i < |ss| && ss[i].rel == r {
          var i :| 0 <= i < |ss| && ss[i].rel == r;
          if i > 0 {
            assert ss[1..][i - 1].rel == r;
          }
        }
      }
    }
  }

  lemma WithinWiden(ss: seq<Stmt>, ls: set<Label>, ts: set<RelType>, ls2: set<Label>, ts2: set<RelType>)
    requires AllWithin(ss, ls, ts) && ls <= ls2 && ts <= ts2
    ensures AllWithin(ss, ls2, ts2)
  {
  }

  /** Once a statement at index `k` merges a relationship whose ends exist
      at that point, the relationship is there at the end. */
  lemma LinkedStays(g: Graph, ss: seq<Stmt>, k: nat)
    requires k < |ss| && !ss[k].MergeSet?
    requires ss[k].rel.from in g.nodes.Keys + CreatedAll(ss[..k]) + Created(ss[k])
    requires ss[k].rel.to in g.nodes.Keys + CreatedAll(ss[..k]) + Created(ss[k])
    ensures ss[k].rel in ExecAll(g, ss).rels
  {
    assert ss == ss[..k] + [ss[k]] + ss[k + 1..];
    ExecAllAppend(g, ss[..k] + [ss[k]], ss[k + 1..]);
    ExecAllAppend(g, ss[..k], [ss[k]]);
    var h := ExecAll(g, ss[..k]);
    ExecAllKeys(g, ss[..k]);
    assert ExecAll(h, [ss[k]]) == Exec(h, ss[k]);
    ExecAllKeys(Exec(h, ss[k]), ss[k + 1..]);
  }

  /** A relationship that appears was merged by some statement, and its two
      ends existed before or were merged by the statements. */
  lemma {:induction false} NewRelHasEnds(g: Graph, ss: seq<Stmt>, r: RelRef)
    requires r in ExecAll(g, ss).rels && r !in g.rels
    ensures r.from in g.nodes.Keys + CreatedAll(ss) && r.to in g.nodes.Keys + CreatedAll(ss)
    ensures exists i :: 0 <= i < |ss| && r in RelOf(ss[i])
    decreases |ss|
  {
    var h := Exec(g, ss[0]);
    ExecKeys(g, ss[0]);
    if r in h.rels {
      assert r in RelOf(ss[0]);
      assert r.from in h.nodes && r.to in h.nodes;
      ExecAllKeys(h, ss[1..]);
    } else {
      NewRelHasEnds(h, ss[1..], r);
      var i :| 0 <= i < |ss| - 1 && r in RelOf(ss[1..][i]);
      assert ss[1..][i] == ss[i + 1];
    }
  }

  /** A relationship that appears has each end whose label the statements
      never merge already in the graph. */
  lemma NewRelEndsPresent(g: Graph, ss: seq<Stmt>, r: RelRef, ls: set<Label>, ts: set<RelType>)
    requires AllWithin(ss, ls, ts)
    requires r in ExecAll(g, ss).rels && r !in g.rels
    ensures r.from.kind !in ls ==> r.from in g.nodes
    ensures r.to.kind !in ls ==> r.to in g.nodes
  {
    NewRelHasEnds(g, ss, r);
    ExecAllFrame(g, ss, ls, ts);
  }

  /** A relationship merged after the first statement, between nodes that
      exist or that the first statement merges, is there at the end. */
  lemma LinkedAfterHead(g: Graph, ss: seq<Stmt>, k: nat)
    requires 0 < k < |ss| && !ss[k].MergeSet?
    requires ss[k].rel.from in g.nodes.Keys + Created(ss[0])
    requires ss[k].rel.to in g.nodes.Keys + Created(ss[0])
    ensures ss[k].rel in ExecAll(g, ss).rels
  {
    assert ss[..k][0] == ss[0];
    assert ss[..k] == [ss[0]] + ss[1..k];
    CreatedAllAppend([ss[0]], ss[1..k]);
    assert CreatedAll([ss[0]]) == Created(ss[0]) by {
      assert [ss[0]][1..] == [];
    }
    LinkedStays(g, ss, k);
  }

  /** A relationship merged after the first statement, from a node whose
      label the statements never merge to a node the first statement merges,
      is there at the end exactly when it was there before or its source
      node was. */
  lemma GuardedFrom(g: Graph, ss: seq<Stmt>, k: nat, ls: set<Label>, ts: set<RelType>)
    requires 0 < k < |ss| && !ss[k].MergeSet? && AllWithin(ss, ls, ts)
    requires ss[k].rel.from.kind !in ls && ss[k].rel.to in Created(ss[0])
    ensures ss[k].rel in ExecAll(g, ss).rels <==> ss[k].rel in g.rels || ss[k].rel.from in g.nodes
  {
    var r := ss[k].rel;
    ExecAllKeys(g, ss);
    if r.from in g.nodes {
      LinkedAfterHead(g, ss, k);
    }
    if r in ExecAll(g, ss).rels && r !in g.rels {
      NewRelEndsPresent(g, ss, r, ls, ts);
    }
  }

  /** The same, for a relationship to a node whose label the statements
      never merge. */
  lemma GuardedTo(g: Graph, ss: seq<Stmt>, k: nat, ls: set<Label>, ts: set<RelType>)
    requires 0 < k < |ss| && !ss[k].MergeSet? && AllWithin(ss, ls, ts)
    requires ss[k].rel.to.kind !in ls && ss[k].rel.from in Created(ss[0])
    ensures ss[k].rel in ExecAll(g, ss).rels <==> ss[k].rel in g.rels || ss[k].rel.to in g.nodes
  {
    var r := ss[k].rel;
    ExecAllKeys(g, ss);
    if r.to in g.nodes {
      LinkedAfterHead(g, ss, k);
    }
    if r in ExecAll(g, ss).rels && r !in g.rels {
      NewRelEndsPresent(g, ss, r, ls, ts);
    }
  }

  /** The last statement that merges a relationship decides the properties
      it lists, once both ends exist at that point. */
  lemma LastMergeWins(g: Graph, ss: seq<Stmt>, k: nat)
    requires k < |ss| && ss[k].MatchMergeRel?
    requires ss[k].rel.from in g.nodes.Keys + CreatedAll(ss[..k])
    requires ss[k].rel.to in g.nodes.Keys + CreatedAll(ss[..k])
    requires forall j :: k < j < |ss| ==> ss[k].rel !in RelOf(ss[j])
    ensures ss[k].rel in ExecAll(g, ss).rels
    ensures ExecAll(g, ss).rels[ss[k].rel] == SetProps(PropsOf(ExecAll(g, ss[..k]).rels, ss[k].rel), ss[k].assign)
  {
    var r := ss[k].rel;
    assert ss == ss[..k] + [ss[k]] + ss[k + 1..];
    ExecAllAppend(g, ss[..k] + [ss[k]], ss[k + 1..]);
    ExecAllAppend(g, ss[..k], [ss[k]]);
    var h := ExecAll(g, ss[..k]);
    ExecAllKeys(g, ss[..k]);
    assert ExecAll(h, [ss[k]]) == Exec(h, ss[k]);
    var rest := ss[k + 1..];
    forall j | 0 <= j < |rest| ensures r !in RelOf(rest[j]) {
      assert rest[j] == ss[k + 1 + j];
    }
    ExecAllKeepsRel(Exec(h, ss[k]), rest, r);
  }
}
