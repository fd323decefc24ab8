/**
 * What the loaders' statement sequences guarantee as a whole: each loader
 * can be run twice with the effect of one run, and each touches only its
 * own labels and relationship types.
 */
module PlanLaws {
  import opened Wrappers
  import opened Json
  import opened Text
  import opened Normalize
  import opened Cypher
  import opened Replay
  import opened Records
  import opened Plans

  // ---------------------------------------------------------------------
  // Shapes
  // ---------------------------------------------------------------------

  /** Every statement merges a relationship between `owner` and a product,
      guarded by both ends. */
  predicate LinksAt(ss: seq<Stmt>, owner: NodeRef) {
    forall i :: 0 <= i < |ss| ==>
      (ss[i].MatchMergeRel? &&
       ((ss[i].rel.from == owner && ss[i].rel.to.kind == Product) ||
        (ss[i].rel.to == owner && ss[i].rel.from.kind == Product)))
  }

  ghost predicate NoProducts(nodes: set<NodeRef>) {
    forall n :: n in nodes ==> n.kind != Product
  }

  lemma LinksAtAppend(a: seq<Stmt>, b: seq<Stmt>, owner: NodeRef)
    requires LinksAt(a, owner) && LinksAt(b, owner)
    ensures LinksAt(a + b, owner)
  {
    forall i | 0 <= i < |a + b| ensures (a + b)[i] == if i < |a| then a[i] else b[i - |a|] {
    }
  }

  lemma AllWithinAppend(a: seq<Stmt>, b: seq<Stmt>, ls: set<Label>, ts: set<RelType>)
    requires AllWithin(a, ls, ts) && AllWithin(b, ls, ts)
    ensures AllWithin(a + b, ls, ts)
  {
    forall i | 0 <= i < |a + b| ensures (a + b)[i] == if i < |a| then a[i] else b[i - |a|] {
    }
  }

  lemma ThenWithin(p: Plan, q: Plan, ls: set<Label>, ts: set<RelType>)
    requires AllWithin(p.stmts, ls, ts) && AllWithin(q.stmts, ls, ts)
    ensures AllWithin(Then(p, q).stmts, ls, ts)
  {
    if p.error.None? {
      AllWithinAppend(p.stmts, q.stmts, ls, ts);
    }
  }

  lemma ThenLinks(p: Plan, q: Plan, owner: NodeRef)
    requires LinksAt(p.stmts, owner) && LinksAt(q.stmts, owner)
    ensures LinksAt(Then(p, q).stmts, owner)
  {
    if p.error.None? {
      LinksAtAppend(p.stmts, q.stmts, owner);
    }
  }

  lemma {:induction false} DisplayedLinks(t: NodeRef, ids: seq<string>)
    ensures LinksAt(DisplayedStmts(t, ids), t)
    ensures |DisplayedStmts(t, ids)| == |ids|
    ensures forall i :: 0 <= i < |ids| ==> DisplayedStmts(t, ids)[i] == MatchMergeRel(Rel(DisplayedAt, Node(Product, ids[i]), t), map[])
    decreases |ids|
  {
    if |ids| > 0 {
      var init := ids[..|ids| - 1];
      DisplayedLinks(t, init);
      var last := [MatchMergeRel(Rel(DisplayedAt, Node(Product, ids[|ids| - 1]), t), map[])];
      LinksAtAppend(DisplayedStmts(t, init), last, t);
    }
  }

  lemma {:induction false} TargetLinks(r: NodeRef, ids: seq<string>)
    ensures LinksAt(TargetStmts(r, ids), r)
    ensures |TargetStmts(r, ids)| == |ids|
    ensures forall i :: 0 <= i < |ids| ==> TargetStmts(r, ids)[i] == MatchMergeRel(Rel(TargetsProduct, r, Node(Product, ids[i])), map[])
    decreases |ids|
  {
    if |ids| > 0 {
      var init := ids[..|ids| - 1];
      TargetLinks(r, init);
      var last := [MatchMergeRel(Rel(TargetsProduct, r, Node(Product, ids[|ids| - 1])), map[])];
      LinksAtAppend(TargetStmts(r, init), last, r);
    }
  }

  lemma IncludeItemLinks(sale: NodeRef, item: string)
    ensures LinksAt(IncludeItem(sale, item).stmts, sale)
    ensures AllWithin(IncludeItem(sale, item).stmts, {}, {IncludesProduct})
  {
    var sh := SplitShorthand(item);
    if sh.Pair? {
      var q := ParseInt(sh.count);
      if q.Some? {
        var st := MatchMergeRel(Rel(IncludesProduct, sale, Node(Product, sh.id)), map["quantity" := Int(q.value)]);
        assert IncludeItem(sale, item).stmts == [st];
      } else {
        assert IncludeItem(sale, item).stmts == [];
      }
    } else {
      assert IncludeItem(sale, item).stmts == [];
    }
  }

  lemma DeployItemLinks(ev: NodeRef, item: string)
    ensures LinksAt(DeployItem(ev, item).stmts, ev)
    ensures AllWithin(DeployItem(ev, item).stmts, {}, {DeployedAt})
  {
    var sh := SplitShorthand(item);
    if sh.Pair? {
      var q := ParseInt(sh.count);
      if q.Some? {
        var st := MatchMergeRel(Rel(DeployedAt, Node(Product, sh.id), ev), map["quantity" := Int(q.value)]);
        assert DeployItem(ev, item).stmts == [st];
      } else {
        assert DeployItem(ev, item).stmts == [];
      }
    } else {
      var st := MatchMergeRel(Rel(DeployedAt, Node(Product, sh.whole), ev), map["quantity" := Int(1)]);
      assert DeployItem(ev, item).stmts == [st];
    }
  }

  lemma {:induction false} IncludesLinks(sale: NodeRef, items: seq<string>)
    ensures LinksAt(IncludesPlan(sale, items).stmts, sale)
    ensures AllWithin(IncludesPlan(sale, items).stmts, {}, {IncludesProduct})
    decreases |items|
  {
    if |items| > 0 {
      var init := items[..|items| - 1];
      IncludesLinks(sale, init);
      IncludeItemLinks(sale, items[|items| - 1]);
      ThenLinks(IncludesPlan(sale, init), IncludeItem(sale, items[|items| - 1]), sale);
      ThenWithin(IncludesPlan(sale, init), IncludeItem(sale, items[|items| - 1]), {}, {IncludesProduct});
    }
  }

  lemma {:induction false} DeployLinks(ev: NodeRef, items: seq<string>)
    ensures LinksAt(DeployPlan(ev, items).stmts, ev)
    ensures AllWithin(DeployPlan(ev, items).stmts, {}, {DeployedAt})
    decreases |items|
  {
    if |items| > 0 {
      var init := items[..|items| - 1];
      DeployLinks(ev, init);
      DeployItemLinks(ev, items[|items| - 1]);
      ThenLinks(DeployPlan(ev, init), DeployItem(ev, items[|items| - 1]), ev);
      ThenWithin(DeployPlan(ev, init), DeployItem(ev, items[|items| - 1]), {}, {DeployedAt});
    }
  }

  lemma {:induction false} LinksCreateNothing(ss: seq<Stmt>, owner: NodeRef)
    requires LinksAt(ss, owner)
    ensures CreatedAll(ss) == {}
    decreases |ss|
  {
    if |ss| > 0 {
      assert LinksAt(ss[1..], owner) by {
        assert forall i :: 0 <= i < |ss| - 1 ==> ss[1..][i] == ss[i + 1];
      }
      LinksCreateNothing(ss[1..], owner);
    }
  }

  lemma LinksWithin(ss: seq<Stmt>, owner: NodeRef, ls: set<Label>, ts: set<RelType>)
    requires LinksAt(ss, owner)
    requires forall i :: 0 <= i < |ss| ==> ss[i].rel.rtype in ts
    ensures AllWithin(ss, ls, ts)
  {
  }

  // ---------------------------------------------------------------------
  // Stable guards
  // ---------------------------------------------------------------------

  /** Product links of an owner merged earlier keep their guards when only
      non-product nodes are added. */
  lemma LinksStable(made: set<NodeRef>, extra: set<NodeRef>, ss: seq<Stmt>, owner: NodeRef)
    requires LinksAt(ss, owner) && owner in made && NoProducts(extra)
    ensures Stable(made, extra, ss)
  {
    forall i | 0 <= i < |ss| ensures ss[i].MatchMergeRel? && Guards(ss[i]) * extra <= made {
      assert Guards(ss[i]) == {ss[i].rel.from, ss[i].rel.to};
    }
    StableLinks(made, extra, ss);
  }

  /** A node merge followed by links from that node. */
  lemma HeadStable(made: set<NodeRef>, extra: set<NodeRef>, head: Stmt, ss: seq<Stmt>)
    requires Guards(head) * extra <= made
    requires Stable(made + Created(head), extra, ss)
    ensures Stable(made, extra, [head] + ss)
  {
    assert ([head] + ss)[0] == head;
    assert ([head] + ss)[1..] == ss;
  }

  lemma ThenStable(extra: set<NodeRef>, p: Plan, q: Plan)
    requires Stable({}, extra, p.stmts) && Stable({}, extra, q.stmts)
    ensures Stable({}, extra, Then(p, q).stmts)
  {
    if p.error.None? {
      StableConcat(extra, p.stmts, q.stmts);
    }
  }

  lemma ProductStable(extra: set<NodeRef>, p: ProductRecord)
    ensures Stable({}, extra, ProductStmts(p))
  {
    var link := MergeSetLink(BatteryNode(p), map[], UsesBatteryRel(p));
    assert Guards(link) == {ProductNode(p)};
    assert [link][1..] == [];
    HeadStable({ProductNode(p)}, extra, link, []);
    assert ProductStmts(p) == [MergeSet(ProductNode(p), ProductProps(p))] + [link];
    HeadStable({}, extra, MergeSet(ProductNode(p), ProductProps(p)), [link]);
  }

  lemma {:induction false} ProductsStable(extra: set<NodeRef>, ps: seq<ProductRecord>)
    ensures Stable({}, extra, ProductsPlan(ps))
    decreases |ps|
  {
    if |ps| > 0 {
      ProductsStable(extra, ps[..|ps| - 1]);
      ProductStable(extra, ps[|ps| - 1]);
      StableConcat(extra, ProductsPlan(ps[..|ps| - 1]), ProductStmts(ps[|ps| - 1]));
    }
  }

  /** Whether a sale's MERGE runs: positive units, a `total_revenue`, and a
      revenue that is not null. */
  predicate SaleRuns(e: TradeShowRecord, ct: string) {
    var s := SalesFor(e, ct);
    Units(s) > 0 && s.totalRevenue.Some? && ParseRevenue(s.totalRevenue.value).Some?
  }

  /** A sale that runs is its MERGE followed by its includes. */
  lemma SaleStmts(e: TradeShowRecord, ct: string)
    requires SaleRuns(e, ct)
    ensures var s := SalesFor(e, ct);
      SalePlan(e, ct).stmts == [SaleStmt(e, ct, Units(s), ParseRevenue(s.totalRevenue.value).value)] + IncludesPlan(SaleNode(e, ct), s.products).stmts
  {
  }

  /** A trade show whose total parses is its MERGE, its DISPLAYED_AT links
      and its sales, and raises what its sales raise. */
  lemma TradeShowStmts(e: TradeShowRecord)
    requires ParseRevenue(e.salesData.totalSales).Some?
    ensures var t := TradeShowNode(e);
      TradeShowPlan(e).stmts ==
        [MergeSet(t, TradeShowProps(e, ParseRevenue(e.salesData.totalSales).value))] + DisplayedStmts(t, e.participation.modelsDisplayed) +
        SalesPlan(e, CustomerTypes).stmts
    ensures TradeShowPlan(e).error == SalesPlan(e, CustomerTypes).error
  {
  }

  lemma SaleStable(made: set<NodeRef>, extra: set<NodeRef>, e: TradeShowRecord, ct: string)
    requires TradeShowNode(e) in made && NoProducts(extra)
    ensures Stable(made, extra, SalePlan(e, ct).stmts)
  {
    var s := SalesFor(e, ct);
    if SaleRuns(e, ct) {
      var sale := SaleNode(e, ct);
      var head := SaleStmt(e, ct, Units(s), ParseRevenue(s.totalRevenue.value).value);
      var inc := IncludesPlan(sale, s.products);
      SaleStmts(e, ct);
      assert Guards(head) == {TradeShowNode(e)};
      IncludesLinks(sale, s.products);
      LinksStable(made + {sale}, extra, inc.stmts, sale);
      HeadStable(made, extra, head, inc.stmts);
    }
  }

  lemma {:induction false} SalesStable(made: set<NodeRef>, extra: set<NodeRef>, e: TradeShowRecord, cts: seq<string>)
    requires TradeShowNode(e) in made && NoProducts(extra)
    ensures Stable(made, extra, SalesPlan(e, cts).stmts)
    decreases |cts|
  {
    if |cts| > 0 {
      var p := SalesPlan(e, cts[..|cts| - 1]);
      var q := SalePlan(e, cts[|cts| - 1]);
      SalesStable(made, extra, e, cts[..|cts| - 1]);
      if p.error.None? {
        SaleStable(made + CreatedAll(p.stmts), extra, e, cts[|cts| - 1]);
        StableAppend(made, extra, p.stmts, q.stmts);
      }
    }
  }

  lemma TradeShowStable(extra: set<NodeRef>, e: TradeShowRecord)
    requires NoProducts(extra)
    ensures Stable({}, extra, TradeShowPlan(e).stmts)
  {
    var r := ParseRevenue(e.salesData.totalSales);
    if r.Some? {
      var t := TradeShowNode(e);
      var head := MergeSet(t, TradeShowProps(e, r.value));
      var shown := DisplayedStmts(t, e.participation.modelsDisplayed);
      DisplayedLinks(t, e.participation.modelsDisplayed);
      LinksStable({t}, extra, shown, t);
      assert {} + Created(head) == {t};
      HeadStable({}, extra, head, shown);
      var a := [head] + shown;
      SalesStable({} + CreatedAll(a), extra, e, CustomerTypes) by {
        CreatedAllAppend([head], shown);
        assert CreatedAll([head]) == {t};
      }
      StableAppend({}, extra, a, SalesPlan(e, CustomerTypes).stmts);
    }
  }

  lemma {:induction false} TradeShowsStable(extra: set<NodeRef>, es: seq<TradeShowRecord>)
    requires NoProducts(extra)
    ensures Stable({}, extra, TradeShowsPlan(es).stmts)
    decreases |es|
  {
    if |es| > 0 {
      TradeShowsStable(extra, es[..|es| - 1]);
      TradeShowStable(extra, es[|es| - 1]);
      ThenStable(extra, TradeShowsPlan(es[..|es| - 1]), TradeShowPlan(es[|es| - 1]));
    }
  }

  lemma PoweredEventStable(extra: set<NodeRef>, e: PoweredEventRecord)
    requires NoProducts(extra)
    ensures Stable({}, extra, PoweredEventPlan(e).stmts)
  {
    var ev := EventNode(e);
    var d := DeployPlan(ev, e.powerDeployment.modelsUsed);
    DeployLinks(ev, e.powerDeployment.modelsUsed);
    LinksStable({ev}, extra, d.stmts, ev);
    assert {} + Created(MergeSet(ev, EventProps(e))) == {ev};
    HeadStable({}, extra, MergeSet(ev, EventProps(e)), d.stmts);
  }

  lemma {:induction false} PoweredEventsStable(extra: set<NodeRef>, es: seq<PoweredEventRecord>)
    requires NoProducts(extra)
    ensures Stable({}, extra, PoweredEventsPlan(es).stmts)
    decreases |es|
  {
    if |es| > 0 {
      PoweredEventsStable(extra, es[..|es| - 1]);
      PoweredEventStable(extra, es[|es| - 1]);
      ThenStable(extra, PoweredEventsPlan(es[..|es| - 1]), PoweredEventPlan(es[|es| - 1]));
    }
  }

  lemma ProjectStable(extra: set<NodeRef>, r: RDProjectRecord)
    requires NoProducts(extra)
    ensures Stable({}, extra, ProjectStmts(r))
  {
    var pn := ProjectNode(r);
    TargetLinks(pn, r.targetProducts);
    LinksStable({pn}, extra, TargetStmts(pn, r.targetProducts), pn);
    assert {} + Created(MergeSet(pn, ProjectProps(r))) == {pn};
    HeadStable({}, extra, MergeSet(pn, ProjectProps(r)), TargetStmts(pn, r.targetProducts));
  }

  lemma {:induction false} ProjectsStable(extra: set<NodeRef>, rs: seq<RDProjectRecord>)
    requires NoProducts(extra)
    ensures Stable({}, extra, ProjectsPlan(rs))
    decreases |rs|
  {
    if |rs| > 0 {
      ProjectsStable(extra, rs[..|rs| - 1]);
      ProjectStable(extra, rs[|rs| - 1]);
      StableConcat(extra, ProjectsPlan(rs[..|rs| - 1]), ProjectStmts(rs[|rs| - 1]));
    }
  }

  // ---------------------------------------------------------------------
  // Frames
  // ---------------------------------------------------------------------

  const EventLabels: set<Label> := {TradeShow, Sale, Event}
  const EventRels: set<RelType> := {DisplayedAt, SoldAt, IncludesProduct, DeployedAt}

  lemma ProductsWithin(ps: seq<ProductRecord>)
    ensures AllWithin(ProductsPlan(ps), {Product, BatteryType}, {UsesBattery})
    decreases |ps|
  {
    if |ps| > 0 {
      ProductsWithin(ps[..|ps| - 1]);
      AllWithinAppend(ProductsPlan(ps[..|ps| - 1]), ProductStmts(ps[|ps| - 1]), {Product, BatteryType}, {UsesBattery});
    }
  }

  /** A sale merges only its Sale node, its SOLD_AT and its INCLUDES_PRODUCT
      relationships. */
  lemma SaleWithin(e: TradeShowRecord, ct: string)
    ensures AllWithin(SalePlan(e, ct).stmts, {Sale}, {SoldAt, IncludesProduct})
  {
    var s := SalesFor(e, ct);
    var q := SalePlan(e, ct);
    if Units(s) > 0 && s.totalRevenue.Some? && ParseRevenue(s.totalRevenue.value).Some? {
      var sale := SaleNode(e, ct);
      IncludesLinks(sale, s.products);
      var inc := IncludesPlan(sale, s.products).stmts;
      WithinWiden(inc, {}, {IncludesProduct}, {Sale}, {SoldAt, IncludesProduct});
      var head := q.stmts[0];
      assert q.stmts == [head] + inc;
      AllWithinAppend([head], inc, {Sale}, {SoldAt, IncludesProduct});
    }
  }

  /** The sales of a trade show merge only Sale nodes, SOLD_AT and
      INCLUDES_PRODUCT relationships. */
  lemma SalesWithin(e: TradeShowRecord, cts: seq<string>)
    ensures AllWithin(SalesPlan(e, cts).stmts, {Sale}, {SoldAt, IncludesProduct})
    decreases |cts|
  {
    if |cts| > 0 {
      SalesWithin(e, cts[..|cts| - 1]);
      SaleWithin(e, cts[|cts| - 1]);
      ThenWithin(SalesPlan(e, cts[..|cts| - 1]), SalePlan(e, cts[|cts| - 1]), {Sale}, {SoldAt, IncludesProduct});
    }
  }

  lemma TradeShowWithin(e: TradeShowRecord)
    ensures AllWithin(TradeShowPlan(e).stmts, EventLabels, EventRels)
  {
    var r := ParseRevenue(e.salesData.totalSales);
    if r.Some? {
      var t := TradeShowNode(e);
      var shown := DisplayedStmts(t, e.participation.modelsDisplayed);
      DisplayedLinks(t, e.participation.modelsDisplayed);
      LinksWithin(shown, t, EventLabels, EventRels);
      AllWithinAppend([MergeSet(t, TradeShowProps(e, r.value))], shown, EventLabels, EventRels);
      SalesWithin(e, CustomerTypes);
      WithinWiden(SalesPlan(e, CustomerTypes).stmts, {Sale}, {SoldAt, IncludesProduct}, EventLabels, EventRels);
      ThenWithin(Done([MergeSet(t, TradeShowProps(e, r.value))] + shown), SalesPlan(e, CustomerTypes), EventLabels, EventRels);
    }
  }

  lemma TradeShowsWithin(es: seq<TradeShowRecord>)
    ensures AllWithin(TradeShowsPlan(es).stmts, EventLabels, EventRels)
    decreases |es|
  {
    if |es| > 0 {
      TradeShowsWithin(es[..|es| - 1]);
      TradeShowWithin(es[|es| - 1]);
      ThenWithin(TradeShowsPlan(es[..|es| - 1]), TradeShowPlan(es[|es| - 1]), EventLabels, EventRels);
    }
  }

  lemma PoweredEventWithin(e: PoweredEventRecord)
    ensures AllWithin(PoweredEventPlan(e).stmts, EventLabels, EventRels)
  {
    DeployLinks(EventNode(e), e.powerDeployment.modelsUsed);
    var d := DeployPlan(EventNode(e), e.powerDeployment.modelsUsed);
    assert AllWithin(d.stmts, EventLabels, EventRels);
    ThenWithin(Done([MergeSet(EventNode(e), EventProps(e))]), d, EventLabels, EventRels);
  }

  lemma PoweredEventsWithin(es: seq<PoweredEventRecord>)
    ensures AllWithin(PoweredEventsPlan(es).stmts, EventLabels, EventRels)
    decreases |es|
  {
    if |es| > 0 {
      PoweredEventsWithin(es[..|es| - 1]);
      PoweredEventWithin(es[|es| - 1]);
      ThenWithin(PoweredEventsPlan(es[..|es| - 1]), PoweredEventPlan(es[|es| - 1]), EventLabels, EventRels);
    }
  }

  lemma EventsWithin(d: Document)
    ensures AllWithin(EventsPlan(d).stmts, EventLabels, EventRels)
  {
    TradeShowsWithin(d.tradeShows);
    PoweredEventsWithin(d.poweredEvents);
    ThenWithin(TradeShowsPlan(d.tradeShows), PoweredEventsPlan(d.poweredEvents), EventLabels, EventRels);
  }

  lemma ProjectsWithin(rs: seq<RDProjectRecord>)
    ensures AllWithin(ProjectsPlan(rs), {RDProject}, {TargetsProduct})
    decreases |rs|
  {
    if |rs| > 0 {
      ProjectsWithin(rs[..|rs| - 1]);
      var r := rs[|rs| - 1];
      TargetLinks(ProjectNode(r), r.targetProducts);
      LinksWithin(TargetStmts(ProjectNode(r), r.targetProducts), ProjectNode(r), {RDProject}, {TargetsProduct});
      AllWithinAppend([MergeSet(ProjectNode(r), ProjectProps(r))], TargetStmts(ProjectNode(r), r.targetProducts), {RDProject}, {TargetsProduct});
      AllWithinAppend(ProjectsPlan(rs[..|rs| - 1]), ProjectStmts(r), {RDProject}, {TargetsProduct});
    }
  }

  /** Loading products changes only Product and BatteryType nodes and
      USES_BATTERY relationships. */
  lemma ProductsFrame(g: Graph, ps: seq<ProductRecord>)
    ensures Outside(ExecAll(g, ProductsPlan(ps)), {Product, BatteryType}, {UsesBattery}) == Outside(g, {Product, BatteryType}, {UsesBattery})
  {
    ProductsWithin(ps);
    ExecAllFrame(g, ProductsPlan(ps), {Product, BatteryType}, {UsesBattery});
  }

  /** Loading events changes only TradeShow, Sale and Event nodes and the
      relationships they own: products, battery types, R&D projects and
      images are left as they were, including when a record raises. */
  lemma EventsFrame(g: Graph, d: Document)
    ensures Outside(ExecAll(g, EventsPlan(d).stmts), EventLabels, EventRels) == Outside(g, EventLabels, EventRels)
    ensures NoProducts(CreatedAll(EventsPlan(d).stmts))
  {
    EventsWithin(d);
    ExecAllFrame(g, EventsPlan(d).stmts, EventLabels, EventRels);
  }

  /** Loading R&D projects changes only RDProject nodes and TARGETS_PRODUCT
      relationships. */
  lemma ProjectsFrame(g: Graph, rs: seq<RDProjectRecord>)
    ensures Outside(ExecAll(g, ProjectsPlan(rs)), {RDProject}, {TargetsProduct}) == Outside(g, {RDProject}, {TargetsProduct})
    ensures NoProducts(CreatedAll(ProjectsPlan(rs)))
  {
    ProjectsWithin(rs);
    ExecAllFrame(g, ProjectsPlan(rs), {RDProject}, {TargetsProduct});
  }

  // ---------------------------------------------------------------------
  // Loading twice is loading once
  // ---------------------------------------------------------------------

  lemma ProductsTwice(g: Graph, ps: seq<ProductRecord>)
    ensures ExecAll(ExecAll(g, ProductsPlan(ps)), ProductsPlan(ps)) == ExecAll(g, ProductsPlan(ps))
  {
    ProductsStable(CreatedAll(ProductsPlan(ps)), ps);
    ExecAllTwice(g, ProductsPlan(ps));
  }

  /** Also when the load raises part-way: the second run raises at the
      same point, having written nothing new. */
  lemma EventsTwice(g: Graph, d: Document)
    ensures ExecAll(ExecAll(g, EventsPlan(d).stmts), EventsPlan(d).stmts) == ExecAll(g, EventsPlan(d).stmts)
  {
    var ss := EventsPlan(d).stmts;
    EventsFrame(g, d);
    TradeShowsStable(CreatedAll(ss), d.tradeShows);
    PoweredEventsStable(CreatedAll(ss), d.poweredEvents);
    ThenStable(CreatedAll(ss), TradeShowsPlan(d.tradeShows), PoweredEventsPlan(d.poweredEvents));
    ExecAllTwice(g, ss);
  }

  lemma ProjectsTwice(g: Graph, rs: seq<RDProjectRecord>)
    ensures ExecAll(ExecAll(g, ProjectsPlan(rs)), ProjectsPlan(rs)) == ExecAll(g, ProjectsPlan(rs))
  {
    ProjectsFrame(g, rs);
    ProjectsStable(CreatedAll(ProjectsPlan(rs)), rs);
    ExecAllTwice(g, ProjectsPlan(rs));
  }
}
