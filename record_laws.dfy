/**
 * What one record leaves in the graph: the node it upserts with every
 * mapped property, the sales it creates only when units are positive and
 * always links to the trade show, the quantity shorthand, the "N/A"
 * defaults, relationships that appear only when the product exists, and the
 * last quantity winning.
 */
module RecordLaws {
  import opened Wrappers
  import opened Json
  import opened Text
  import opened Normalize
  import opened Cypher
  import opened Records
  import opened Plans
  import opened PlanLaws

  // ---------------------------------------------------------------------
  // Sale ids
  // ---------------------------------------------------------------------

  lemma CustomerTypeFacts()
    ensures forall c :: c in CustomerTypes ==> '_' !in c
    ensures |CustomerTypes[0]| == 12 && |CustomerTypes[1]| == 11 && |CustomerTypes[2]| == 13
  {
    assert '_' !in CustomerTypes[0];
    assert '_' !in CustomerTypes[1];
    assert '_' !in CustomerTypes[2];
  }

  lemma LongerTypeDiffers(e1: string, c1: string, e2: string, c2: string)
    requires '_' !in c1 && |c1| > |c2|
    ensures SaleId(e1, c1) != SaleId(e2, c2)
  {
    var s1, s2 := SaleId(e1, c1), SaleId(e2, c2);
    if |s1| == |s2| {
      var i := |s2| - |c2| - 1;
      assert s2[i] == '_';
      assert s1[i] == c1[|c1| - |c2| - 1];
    }
  }

  /** Sale ids determine their event and customer type: no two sales of any
      two trade shows share an id. */
  lemma SaleIdInjective(e1: string, c1: string, e2: string, c2: string)
    requires c1 in CustomerTypes && c2 in CustomerTypes
    requires SaleId(e1, c1) == SaleId(e2, c2)
    ensures e1 == e2 && c1 == c2
  {
    CustomerTypeFacts();
    if |c1| > |c2| {
      LongerTypeDiffers(e1, c1, e2, c2);
    } else if |c2| > |c1| {
      LongerTypeDiffers(e2, c2, e1, c1);
    } else {
      assert c1 == c2;
      var s := SaleId(e1, c1);
      assert |e1| == |e2|;
      assert e1 == s[..|e1|] == e2;
    }
  }

  // ---------------------------------------------------------------------
  // The quantity shorthand in sales and deployments
  // ---------------------------------------------------------------------

  /** A sale's product entry: without exactly one " x" it adds nothing;
      with one, the text before it names the product and the text after it
      must be an integer, or `int()` raises. */
  lemma IncludeItemSpec(sale: NodeRef, item: string)
    ensures (forall i: nat :: !OccursOnlyAt(item, " x", i)) ==> IncludeItem(sale, item) == Done([])
    ensures forall i: nat :: OccursOnlyAt(item, " x", i) ==>
      IncludeItem(sale, item) ==
        if ParseInt(item[i + 2..]).Some?
        then Done([MatchMergeRel(Rel(IncludesProduct, sale, Node(Product, item[..i])), map["quantity" := Int(ParseInt(item[i + 2..]).value)])])
        else Raise(ValueError(item[i + 2..]))
  {
    SplitShorthandSpec(item);
  }

  /** A deployed model: "<id> x<n>" deploys `id` with quantity n (or raises
      when n is not an integer); any other string is the product id itself,
      deployed with quantity 1. */
  lemma DeployItemSpec(ev: NodeRef, item: string)
    ensures (forall i: nat :: !OccursOnlyAt(item, " x", i)) ==>
      DeployItem(ev, item) == Done([MatchMergeRel(Rel(DeployedAt, Node(Product, item), ev), map["quantity" := Int(1)])])
    ensures forall i: nat :: OccursOnlyAt(item, " x", i) ==>
      DeployItem(ev, item) ==
        if ParseInt(item[i + 2..]).Some?
        then Done([MatchMergeRel(Rel(DeployedAt, Node(Product, item[..i]), ev), map["quantity" := Int(ParseInt(item[i + 2..]).value)])])
        else Raise(ValueError(item[i + 2..]))
  {
    SplitShorthandSpec(item);
  }

  lemma IncludeExample(sale: NodeRef)
    ensures IncludeItem(sale, "PG-M01 x3") == Done([MatchMergeRel(Rel(IncludesProduct, sale, Node(Product, "PG-M01")), map["quantity" := Int(3)])])
  {
    PairExample();
  }

  lemma IncludeSkipExample(sale: NodeRef)
    ensures IncludeItem(sale, "PG-M01") == Done([])
  {
    BareExamples();
  }

  lemma IncludeRaiseExample(sale: NodeRef)
    ensures IncludeItem(sale, "PG-M01 xthree") == Raise(ValueError("three"))
  {
    BadCountExample();
    WordCountExample();
  }

  lemma DeployExample(ev: NodeRef)
    ensures DeployItem(ev, "PG-U01 x2") == Done([MatchMergeRel(Rel(DeployedAt, Node(Product, "PG-U01"), ev), map["quantity" := Int(2)])])
  {
    OtherPairExample();
  }

  lemma DeployBareExample(ev: NodeRef)
    ensures DeployItem(ev, "PG-U01") == Done([MatchMergeRel(Rel(DeployedAt, Node(Product, "PG-U01"), ev), map["quantity" := Int(1)])])
  {
    BareExamples();
  }

  // ---------------------------------------------------------------------
  // Sales
  // ---------------------------------------------------------------------

  /** The Sale nodes of a trade show for the customer types with positive
      units. */
  function SaleNodesOf(e: TradeShowRecord, cts: seq<string>): set<NodeRef> {
    set ct | ct in cts && Units(SalesFor(e, ct)) > 0 :: SaleNode(e, ct)
  }

  function SaleNodeIf(e: TradeShowRecord, ct: string): set<NodeRef> {
    if Units(SalesFor(e, ct)) > 0 then {SaleNode(e, ct)} else {}
  }

  lemma SaleNodesOfSnoc(e: TradeShowRecord, cts: seq<string>, ct: string)
    ensures SaleNodesOf(e, cts + [ct]) == SaleNodesOf(e, cts) + SaleNodeIf(e, ct)
  {
    forall n | n in SaleNodesOf(e, cts + [ct]) ensures n in SaleNodesOf(e, cts) + SaleNodeIf(e, ct) {
      var c :| c in cts + [ct] && Units(SalesFor(e, c)) > 0 && n == SaleNode(e, c);
      if c != ct {
        assert c in cts;
      }
    }
  }

  lemma SalePlanCreated(e: TradeShowRecord, ct: string)
    requires SalePlan(e, ct).error.None?
    ensures CreatedAll(SalePlan(e, ct).stmts) == SaleNodeIf(e, ct)
  {
    var s := SalesFor(e, ct);
    if Units(s) > 0 {
      var revenue := ParseRevenue(s.totalRevenue.value).value;
      var inc := IncludesPlan(SaleNode(e, ct), s.products).stmts;
      assert SalePlan(e, ct).stmts == [SaleStmt(e, ct, Units(s), revenue)] + inc;
      IncludesLinks(SaleNode(e, ct), s.products);
      LinksCreateNothing(inc, SaleNode(e, ct));
      CreatedAllAppend([SaleStmt(e, ct, Units(s), revenue)], inc);
    }
  }

  lemma {:induction false} SalesCreated(e: TradeShowRecord, cts: seq<string>)
    requires SalesPlan(e, cts).error.None?
    ensures CreatedAll(SalesPlan(e, cts).stmts) == SaleNodesOf(e, cts)
    decreases |cts|
  {
    if |cts| > 0 {
      var init, last := cts[..|cts| - 1], cts[|cts| - 1];
      var p, q := SalesPlan(e, init), SalePlan(e, last);
      assert SalesPlan(e, cts) == Then(p, q);
      SalesCreated(e, init);
      SalePlanCreated(e, last);
      CreatedAllAppend(p.stmts, q.stmts);
      assert cts == init + [last];
      SaleNodesOfSnoc(e, init, last);
    }
  }

  /** The nodes a trade show merges once nothing raised: the trade show and
      one Sale per customer type with positive units. */
  lemma TradeShowCreated(e: TradeShowRecord)
    requires TradeShowPlan(e).error.None?
    ensures CreatedAll(TradeShowPlan(e).stmts) == {TradeShowNode(e)} + SaleNodesOf(e, CustomerTypes)
  {
    var t := TradeShowNode(e);
    var total := ParseRevenue(e.salesData.totalSales).value;
    var head := MergeSet(t, TradeShowProps(e, total));
    var shown := DisplayedStmts(t, e.participation.modelsDisplayed);
    DisplayedLinks(t, e.participation.modelsDisplayed);
    LinksCreateNothing(shown, t);
    CreatedAllAppend([head], shown);
    assert CreatedAll([head]) == {t};
    SalesCreated(e, CustomerTypes);
    CreatedAllAppend([head] + shown, SalesPlan(e, CustomerTypes).stmts);
  }

  /** A trade show's Sale node for a customer type exists afterwards exactly
      when it existed before or that type has positive units (an absent
      customer type has none). */
  lemma SaleGate(g: Graph, e: TradeShowRecord, ct: string)
    requires ct in CustomerTypes && TradeShowPlan(e).error.None?
    ensures SaleNode(e, ct) in ExecAll(g, TradeShowPlan(e).stmts).nodes <==>
      SaleNode(e, ct) in g.nodes || Units(SalesFor(e, ct)) > 0
  {
    ExecAllKeys(g, TradeShowPlan(e).stmts);
    TradeShowCreated(e);
    if SaleNode(e, ct) in SaleNodesOf(e, CustomerTypes) {
      var c :| c in CustomerTypes && Units(SalesFor(e, c)) > 0 && SaleNode(e, ct) == SaleNode(e, c);
      SaleIdInjective(e.eventId, ct, e.eventId, c);
    }
  }

  lemma {:induction false} SaleStmtIn(e: TradeShowRecord, cts: seq<string>, ct: string)
    requires SalesPlan(e, cts).error.None? && ct in cts && Units(SalesFor(e, ct)) > 0
    ensures SalesFor(e, ct).totalRevenue.Some? && ParseRevenue(SalesFor(e, ct).totalRevenue.value).Some?
    ensures SaleStmt(e, ct, Units(SalesFor(e, ct)), ParseRevenue(SalesFor(e, ct).totalRevenue.value).value) in SalesPlan(e, cts).stmts
    decreases |cts|
  {
    var init, last := cts[..|cts| - 1], cts[|cts| - 1];
    var p, q := SalesPlan(e, init), SalePlan(e, last);
    assert SalesPlan(e, cts) == Then(p, q);
    assert cts == init + [last];
    if ct == last {
      var s := SalesFor(e, ct);
      assert q.stmts[0] == SaleStmt(e, ct, Units(s), ParseRevenue(s.totalRevenue.value).value);
      assert (p.stmts + q.stmts)[|p.stmts|] == q.stmts[0];
    } else {
      assert ct in init;
      SaleStmtIn(e, init, ct);
    }
  }

  lemma CreatedAllHead(ss: seq<Stmt>, k: nat)
    requires 0 < k <= |ss|
    ensures Created(ss[0]) <= CreatedAll(ss[..k])
  {
    assert ss[..k][0] == ss[0];
  }

  /** The position of a Sale's statement in its trade show's statements,
      after the trade show's MERGE. */
  lemma SaleIndex(e: TradeShowRecord, ct: string) returns (k: nat)
    requires ct in CustomerTypes && TradeShowPlan(e).error.None? && Units(SalesFor(e, ct)) > 0
    ensures SalesFor(e, ct).totalRevenue.Some? && ParseRevenue(SalesFor(e, ct).totalRevenue.value).Some?
    ensures 0 < k < |TradeShowPlan(e).stmts|
    ensures TradeShowPlan(e).stmts[0].MergeSet? && TradeShowPlan(e).stmts[0].node == TradeShowNode(e)
    ensures TradeShowPlan(e).stmts[k] == SaleStmt(e, ct, Units(SalesFor(e, ct)), ParseRevenue(SalesFor(e, ct).totalRevenue.value).value)
  {
    assert ParseRevenue(e.salesData.totalSales).Some?;
    TradeShowStmts(e);
    var t := TradeShowNode(e);
    var head := MergeSet(t, TradeShowProps(e, ParseRevenue(e.salesData.totalSales).value));
    var a := [head] + DisplayedStmts(t, e.participation.modelsDisplayed);
    SaleStmtIn(e, CustomerTypes, ct);
    var s := SalesFor(e, ct);
    k := InTail(a, SalesPlan(e, CustomerTypes).stmts, SaleStmt(e, ct, Units(s), ParseRevenue(s.totalRevenue.value).value));
    assert (a + SalesPlan(e, CustomerTypes).stmts)[0] == head;
  }

  /** Every Sale created is linked SOLD_AT to its trade show. */
  lemma SaleLinked(g: Graph, e: TradeShowRecord, ct: string)
    requires ct in CustomerTypes && TradeShowPlan(e).error.None? && Units(SalesFor(e, ct)) > 0
    ensures Rel(SoldAt, SaleNode(e, ct), TradeShowNode(e)) in ExecAll(g, TradeShowPlan(e).stmts).rels
  {
    var ss := TradeShowPlan(e).stmts;
    var k := SaleIndex(e, ct);
    CreatedAllHead(ss, k);
    LinkedStays(g, ss, k);
  }

  // ---------------------------------------------------------------------
  // Products
  // ---------------------------------------------------------------------

  lemma ProductCreated(p: ProductRecord)
    ensures CreatedAll(ProductStmts(p)) == {ProductNode(p), BatteryNode(p)}
  {
    var ss := ProductStmts(p);
    assert ss == [ss[0]] + [ss[1]];
    CreatedAllAppend([ss[0]], [ss[1]]);
    assert CreatedAll([ss[0]]) == {ProductNode(p)};
    assert CreatedAll([ss[1]]) == {BatteryNode(p)};
  }

  lemma ProductStep(h: Graph, p: ProductRecord)
    ensures var h1 := ExecAll(h, ProductStmts(p));
      h1.nodes.Keys == h.nodes.Keys + {ProductNode(p), BatteryNode(p)} && h.rels.Keys <= h1.rels.Keys && UsesBatteryRel(p) in h1.rels
    ensures ExecAll(h, ProductStmts(p)).nodes[ProductNode(p)] == SetProps(PropsOf(h.nodes, ProductNode(p)), ProductProps(p))
  {
    var ss := ProductStmts(p);
    ProductCreated(p);
    ExecAllKeys(h, ss);
    var h1 := Exec(h, ss[0]);
    assert ss[1..][1..] == [];
    assert ExecAll(h, ss) == ExecAll(h1, ss[1..]);
    assert ss[1..][0] == ss[1];
    assert ExecAll(h1, ss[1..]) == ExecAll(Exec(h1, ss[1]), []);
    assert UpsertNode(h1, BatteryNode(p), map[]).nodes[ProductNode(p)] == h1.nodes[ProductNode(p)];
    assert ss[..1] == [ss[0]];
    assert CreatedAll([ss[0]]) == {ProductNode(p)};
    LinkedStays(h, ss, 1);
  }

  /** After loading products, each product, its battery type and the
      USES_BATTERY relationship between them exist. */
  lemma {:induction false} ProductsLinked(g: Graph, ps: seq<ProductRecord>)
    ensures forall i :: 0 <= i < |ps| ==>
      var h := ExecAll(g, ProductsPlan(ps));
      ProductNode(ps[i]) in h.nodes && BatteryNode(ps[i]) in h.nodes && UsesBatteryRel(ps[i]) in h.rels
    decreases |ps|
  {
    if |ps| > 0 {
      var init, p := ps[..|ps| - 1], ps[|ps| - 1];
      var h0 := ExecAll(g, ProductsPlan(init));
      ProductsLinked(g, init);
      ExecAllAppend(g, ProductsPlan(init), ProductStmts(p));
      ProductStep(h0, p);
      forall i | 0 <= i < |ps| - 1 ensures ps[i] == init[i] {
      }
    }
  }

  lemma {:induction false} ProductsPlanAppend(a: seq<ProductRecord>, b: seq<ProductRecord>)
    ensures ProductsPlan(a + b) == ProductsPlan(a) + ProductsPlan(b)
    decreases |b|
  {
    if |b| == 0 {
      assert a + b == a;
    } else {
      var b0 := b[..|b| - 1];
      assert (a + b)[..|a + b| - 1] == a + b0;
      assert (a + b)[|a + b| - 1] == b[|b| - 1];
      ProductsPlanAppend(a, b0);
    }
  }

  lemma {:induction false} ProductsCreated(ps: seq<ProductRecord>, n: NodeRef)
    requires n in CreatedAll(ProductsPlan(ps)) && n.kind == Product
    ensures exists j :: 0 <= j < |ps| && n == ProductNode(ps[j])
    decreases |ps|
  {
    var init, p := ps[..|ps| - 1], ps[|ps| - 1];
    CreatedAllAppend(ProductsPlan(init), ProductStmts(p));
    ProductCreated(p);
    if n in CreatedAll(ProductsPlan(init)) {
      ProductsCreated(init, n);
      var j :| 0 <= j < |init| && n == ProductNode(init[j]);
      assert ps[j] == init[j];
    } else {
      assert n == ProductNode(ps[|ps| - 1]);
    }
  }

  /** The Product MERGE overwrites every mapped property: the last record
      with a given id decides them, and a null removes the property. */
  lemma ProductOverwrites(g: Graph, ps: seq<ProductRecord>, i: nat)
    requires i < |ps|
    requires forall j :: i < j < |ps| ==> ps[j].productId != ps[i].productId
    ensures ProductNode(ps[i]) in ExecAll(g, ProductsPlan(ps)).nodes
    ensures var props := ExecAll(g, ProductsPlan(ps)).nodes[ProductNode(ps[i])];
      forall k :: k in ProductProps(ps[i]) ==>
        if ProductProps(ps[i])[k] == Null then k !in props else k in props && props[k] == ProductProps(ps[i])[k]
  {
    var p := ps[i];
    var n := ProductNode(p);
    var pre, rest := ps[..i], ps[i + 1..];
    assert ps == (pre + [p]) + rest;
    ProductsPlanAppend(pre + [p], rest);
    ProductsPlanAppend(pre, [p]);
    assert ProductsPlan([p]) == ProductStmts(p) by {
      assert [p][..0] == [];
    }
    var h0 := ExecAll(g, ProductsPlan(pre));
    ExecAllAppend(g, ProductsPlan(pre), ProductStmts(p));
    ProductStep(h0, p);
    var h1 := ExecAll(g, ProductsPlan(pre + [p]));
    ExecAllAppend(g, ProductsPlan(pre + [p]), ProductsPlan(rest));
    if n in CreatedAll(ProductsPlan(rest)) {
      ProductsCreated(rest, n);
      assert false;
    }
    ExecAllKeepsNode(h1, ProductsPlan(rest), n);
  }

  // ---------------------------------------------------------------------
  // Powered events and R&D projects: the record's own node
  // ---------------------------------------------------------------------

  /** A powered event's node is merged whatever its deployments do, with
      every mapped property overwritten; a missing `attendees` is stored as
      "N/A". */
  lemma EventLoaded(g: Graph, e: PoweredEventRecord)
    ensures EventNode(e) in ExecAll(g, PoweredEventPlan(e).stmts).nodes
    ensures ExecAll(g, PoweredEventPlan(e).stmts).nodes[EventNode(e)] == SetProps(PropsOf(g.nodes, EventNode(e)), EventProps(e))
    ensures e.powerDeployment.attendees.None? ==>
      var props := ExecAll(g, PoweredEventPlan(e).stmts).nodes[EventNode(e)];
      "attendees" in props && props["attendees"] == Str("N/A")
  {
    var ev := EventNode(e);
    var head := MergeSet(ev, EventProps(e));
    var deploy := DeployPlan(ev, e.powerDeployment.modelsUsed).stmts;
    assert PoweredEventPlan(e).stmts == [head] + deploy;
    DeployLinks(ev, e.powerDeployment.modelsUsed);
    LinksCreateNothing(deploy, ev);
    ExecAllAppend(g, [head], deploy);
    assert ExecAll(g, [head]) == Exec(g, head);
    ExecAllKeepsNode(Exec(g, head), deploy, ev);
  }

  /** An R&D project's node is merged with every mapped property
      overwritten; a missing `projected_annual_savings` is stored as "N/A". */
  lemma ProjectLoaded(g: Graph, r: RDProjectRecord)
    ensures ProjectNode(r) in ExecAll(g, ProjectStmts(r)).nodes
    ensures ExecAll(g, ProjectStmts(r)).nodes[ProjectNode(r)] == SetProps(PropsOf(g.nodes, ProjectNode(r)), ProjectProps(r))
    ensures r.projectedAnnualSavings.None? ==>
      var props := ExecAll(g, ProjectStmts(r)).nodes[ProjectNode(r)];
      "projected_savings" in props && props["projected_savings"] == Str("N/A")
  {
    var pr := ProjectNode(r);
    var head := MergeSet(pr, ProjectProps(r));
    var targets := TargetStmts(pr, r.targetProducts);
    TargetLinks(pr, r.targetProducts);
    LinksCreateNothing(targets, pr);
    ExecAllAppend(g, [head], targets);
    assert ExecAll(g, [head]) == Exec(g, head);
    ExecAllKeepsNode(Exec(g, head), targets, pr);
  }

  // ---------------------------------------------------------------------
  // Guarded relationships
  // ---------------------------------------------------------------------

  /** A trade show's first statement merges its node, and the ones after it
      its DISPLAYED_AT links in order. */
  lemma DisplayedStmtAt(e: TradeShowRecord, i: nat)
    requires ParseRevenue(e.salesData.totalSales).Some? && i < |e.participation.modelsDisplayed|
    ensures var ss := TradeShowPlan(e).stmts;
      1 + i < |ss| && ss[0].MergeSet? && ss[0].node == TradeShowNode(e) &&
      ss[1 + i] == MatchMergeRel(Rel(DisplayedAt, Node(Product, e.participation.modelsDisplayed[i]), TradeShowNode(e)), map[])
  {
    var t := TradeShowNode(e);
    var ids := e.participation.modelsDisplayed;
    var shown := DisplayedStmts(t, ids);
    var ss := TradeShowPlan(e).stmts;
    TradeShowStmts(e);
    DisplayedLinks(t, ids);
    assert ss[1 + i] == shown[i];
  }

  /** DISPLAYED_AT from a listed model to its trade show is there afterwards
      exactly when it was before or the Product node already existed. */
  lemma DisplayedGuard(g: Graph, e: TradeShowRecord, i: nat)
    requires ParseRevenue(e.salesData.totalSales).Some? && i < |e.participation.modelsDisplayed|
    ensures var r := Rel(DisplayedAt, Node(Product, e.participation.modelsDisplayed[i]), TradeShowNode(e));
      r in ExecAll(g, TradeShowPlan(e).stmts).rels <==> r in g.rels || r.from in g.nodes
  {
    DisplayedStmtAt(e, i);
    TradeShowWithin(e);
    GuardedFrom(g, TradeShowPlan(e).stmts, 1 + i, EventLabels, EventRels);
  }

  /** TARGETS_PRODUCT from a project to a listed product is there afterwards
      exactly when it was before or the Product node already existed. */
  lemma TargetGuard(g: Graph, r: RDProjectRecord, i: nat)
    requires i < |r.targetProducts|
    ensures var rel := Rel(TargetsProduct, ProjectNode(r), Node(Product, r.targetProducts[i]));
      rel in ExecAll(g, ProjectStmts(r)).rels <==> rel in g.rels || rel.to in g.nodes
  {
    var pr := ProjectNode(r);
    var ss := ProjectStmts(r);
    TargetLinks(pr, r.targetProducts);
    assert ss[1 + i] == TargetStmts(pr, r.targetProducts)[i];
    ProjectsWithin([r]);
    assert ProjectsPlan([r]) == ss by {
      assert [r][..0] == [];
    }
    GuardedTo(g, ss, 1 + i, {RDProject}, {TargetsProduct});
  }

  // ---------------------------------------------------------------------
  // Deployments
  // ---------------------------------------------------------------------

  /** The product id a quantity entry names: the text before " x", or the
      whole entry when it does not split in two. */
  function ItemProduct(item: string): string {
    match SplitShorthand(item)
    case Bare(whole) => whole
    case Pair(id, _) => id
  }

  /** The quantity it deploys, or None when `int()` raises on it. */
  function DeployedQuantity(item: string): Option<int> {
    match SplitShorthand(item)
    case Bare(_) => Some(1)
    case Pair(_, count) => ParseInt(count)
  }

  function DeployRel(ev: NodeRef, item: string): RelRef {
    Rel(DeployedAt, Node(Product, ItemProduct(item)), ev)
  }

  /** The statement an entry that parses becomes. */
  predicate DeploysAs(s: Stmt, ev: NodeRef, item: string) {
    DeployedQuantity(item).Some? && s == MatchMergeRel(DeployRel(ev, item), map["quantity" := Int(DeployedQuantity(item).value)])
  }

  lemma DeployItemOk(ev: NodeRef, item: string)
    requires DeployItem(ev, item).error.None?
    ensures |DeployItem(ev, item).stmts| == 1 && DeploysAs(DeployItem(ev, item).stmts[0], ev, item)
  {
  }

  /** Without an error, the deployments are one guarded merge per entry, in
      order. */
  lemma {:induction false} DeployShape(ev: NodeRef, items: seq<string>)
    requires DeployPlan(ev, items).error.None?
    ensures |DeployPlan(ev, items).stmts| == |items|
    ensures forall i :: 0 <= i < |items| ==> DeploysAs(DeployPlan(ev, items).stmts[i], ev, items[i])
    decreases |items|
  {
    if |items| > 0 {
      var init, last := items[..|items| - 1], items[|items| - 1];
      var p, q := DeployPlan(ev, init), DeployItem(ev, last);
      assert DeployPlan(ev, items) == Then(p, q);
      assert p.error.None?;
      DeployShape(ev, init);
      DeployItemOk(ev, last);
      var ss := p.stmts + q.stmts;
      forall i | 0 <= i < |items| ensures DeploysAs(ss[i], ev, items[i]) {
        AppendIndex(p.stmts, q.stmts, items, i);
      }
    }
  }

  /** No model entry after the `i`th that parses names the `i`th's product
      (a later entry on which `int()` raises sends nothing). */
  predicate DeployLaterAvoids(items: seq<string>, i: nat)
    requires i < |items|
  {
    forall j :: i < j < |items| && DeployedQuantity(items[j]).Some? ==> ItemProduct(items[j]) != ItemProduct(items[i])
  }

  /** The entries after the `i`th, read as a list of their own. */
  lemma DeployLaterAvoid(items: seq<string>, i: nat)
    requires i < |items| && DeployLaterAvoids(items, i)
    ensures var rest := items[i + 1..];
      forall j :: 0 <= j < |rest| && DeployedQuantity(rest[j]).Some? ==> ItemProduct(rest[j]) != ItemProduct(items[i])
  {
    var rest := items[i + 1..];
    forall j | 0 <= j < |rest| && DeployedQuantity(rest[j]).Some? ensures ItemProduct(rest[j]) != ItemProduct(items[i]) {
      SuffixIndex(items, i + 1, j);
    }
  }

  /** The statements of one model entry: its link when it parses, none when
      `int()` raises. */
  lemma DeployItemStmts(ev: NodeRef, item: string)
    ensures DeployItem(ev, item).stmts ==
      if DeployedQuantity(item).Some? then [MatchMergeRel(DeployRel(ev, item), map["quantity" := Int(DeployedQuantity(item).value)])] else []
  {
  }

  /** Model entries that do not name a product never touch its DEPLOYED_AT. */
  lemma {:induction false} DeploysNoRel(ev: NodeRef, items: seq<string>, pid: string)
    requires forall j :: 0 <= j < |items| && DeployedQuantity(items[j]).Some? ==> ItemProduct(items[j]) != pid
    ensures forall k :: 0 <= k < |DeployPlan(ev, items).stmts| ==>
      Rel(DeployedAt, Node(Product, pid), ev) !in RelOf(DeployPlan(ev, items).stmts[k])
    decreases |items|
  {
    if |items| > 0 {
      var init, last := items[..|items| - 1], items[|items| - 1];
      var p, q := DeployPlan(ev, init), DeployItem(ev, last);
      assert DeployPlan(ev, items) == Then(p, q);
      assert forall j :: 0 <= j < |init| ==> init[j] == items[j];
      DeploysNoRel(ev, init, pid);
      DeployItemStmts(ev, last);
      if p.error.None? {
        var ss := p.stmts + q.stmts;
        forall k | 0 <= k < |ss| ensures Rel(DeployedAt, Node(Product, pid), ev) !in RelOf(ss[k]) {
          if k >= |p.stmts| {
            assert ss[k] == q.stmts[0];
          }
        }
      }
    }
  }

  /** Statements with the link of the `i`th model entry at position `k`,
      followed by the deployments of the later entries. */
  predicate DeployAt(ss: seq<Stmt>, k: nat, ev: NodeRef, items: seq<string>, i: nat) {
    k < |ss| && i < |items| && DeployedQuantity(items[i]).Some? &&
    ss[k] == MatchMergeRel(DeployRel(ev, items[i]), map["quantity" := Int(DeployedQuantity(items[i]).value)]) &&
    ss[k + 1..] == DeployPlan(ev, items[i + 1..]).stmts
  }

  lemma DeployAtSplit(ev: NodeRef, items: seq<string>, i: nat)
    requires i < |items| && DeployPlan(ev, items[..i]).error.None? && DeployedQuantity(items[i]).Some?
    ensures DeployAt(DeployPlan(ev, items).stmts, |DeployPlan(ev, items[..i]).stmts|, ev, items, i)
  {
    var a := DeployPlan(ev, items[..i]).stmts;
    var link := MatchMergeRel(DeployRel(ev, items[i]), map["quantity" := Int(DeployedQuantity(items[i]).value)]);
    var b := DeployPlan(ev, items[i + 1..]).stmts;
    DeploySplit(ev, items, i);
    assert (a + [link] + b)[|a|] == link;
    assert (a + [link] + b)[|a| + 1..] == b;
  }

  /** The link at position `k` keeps its entry's quantity when no later
      statement deploys the same product. */
  lemma DeployLinkWins(h: Graph, ss: seq<Stmt>, k: nat, ev: NodeRef, items: seq<string>, i: nat)
    requires DeployAt(ss, k, ev, items, i) && DeployLaterAvoids(items, i)
    requires ev in h.nodes && Node(Product, ItemProduct(items[i])) in h.nodes
    ensures var r := DeployRel(ev, items[i]);
      var h1 := ExecAll(h, ss);
      r in h1.rels && "quantity" in h1.rels[r] && h1.rels[r]["quantity"] == Int(DeployedQuantity(items[i]).value)
  {
    DeployLaterAvoid(items, i);
    DeploysNoRel(ev, items[i + 1..], ItemProduct(items[i]));
    forall j | k < j < |ss| ensures ss[k].rel !in RelOf(ss[j]) {
      SuffixIndex(ss, k + 1, j - k - 1);
    }
    LastMergeWins(h, ss, k);
    SetQuantity(PropsOf(ExecAll(h, ss[..k]).rels, ss[k].rel), DeployedQuantity(items[i]).value);
  }

  /** An entry whose earlier entries parsed, and whose product no later
      parsing entry names, leaves its quantity on its DEPLOYED_AT, whatever
      the entries after it raise. */
  lemma DeployListLastWins(h: Graph, ev: NodeRef, items: seq<string>, i: nat)
    requires i < |items| && DeployPlan(ev, items[..i]).error.None? && DeployedQuantity(items[i]).Some?
    requires ev in h.nodes && Node(Product, ItemProduct(items[i])) in h.nodes
    requires DeployLaterAvoids(items, i)
    ensures var r := DeployRel(ev, items[i]);
      var h1 := ExecAll(h, DeployPlan(ev, items).stmts);
      r in h1.rels && "quantity" in h1.rels[r] && h1.rels[r]["quantity"] == Int(DeployedQuantity(items[i]).value)
  {
    DeployAtSplit(ev, items, i);
    DeployLinkWins(h, DeployPlan(ev, items).stmts, |DeployPlan(ev, items[..i]).stmts|, ev, items, i);
  }

  /** Across a powered event: the DEPLOYED_AT of an entry whose earlier
      entries parsed, and whose product no later parsing entry names, ends up
      with that entry's quantity, so a product repeated in `models_used`
      keeps the last quantity listed for it. */
  lemma DeployLastWins(g: Graph, e: PoweredEventRecord, i: nat)
    requires i < |e.powerDeployment.modelsUsed|
    requires DeployPlan(EventNode(e), e.powerDeployment.modelsUsed[..i]).error.None?
    requires DeployedQuantity(e.powerDeployment.modelsUsed[i]).Some?
    requires Node(Product, ItemProduct(e.powerDeployment.modelsUsed[i])) in g.nodes
    requires DeployLaterAvoids(e.powerDeployment.modelsUsed, i)
    ensures var r := DeployRel(EventNode(e), e.powerDeployment.modelsUsed[i]);
      var h := ExecAll(g, PoweredEventPlan(e).stmts);
      r in h.rels && "quantity" in h.rels[r] && h.rels[r]["quantity"] == Int(DeployedQuantity(e.powerDeployment.modelsUsed[i]).value)
  {
    var ev := EventNode(e);
    var items := e.powerDeployment.modelsUsed;
    var head := MergeSet(ev, EventProps(e));
    var deploy := DeployPlan(ev, items).stmts;
    assert PoweredEventPlan(e).stmts == [head] + deploy;
    ExecAllAppend(g, [head], deploy);
    assert ExecAll(g, [head]) == Exec(g, head);
    DeployListLastWins(Exec(g, head), ev, items, i);
  }

  lemma ThenAssoc(p: Plan, q: Plan, r: Plan)
    ensures Then(Then(p, q), r) == Then(p, Then(q, r))
  {
    if p.error.None? && q.error.None? {
      assert (p.stmts + q.stmts) + r.stmts == p.stmts + (q.stmts + r.stmts);
    }
  }

  lemma DeployAppend(ev: NodeRef, a: seq<string>, b: seq<string>)
    ensures DeployPlan(ev, a + b) == Then(DeployPlan(ev, a), DeployPlan(ev, b))
    decreases |b|
  {
    if |b| == 0 {
      assert a + b == a;
    } else {
      var b0 := b[..|b| - 1];
      assert (a + b)[..|a + b| - 1] == a + b0;
      assert (a + b)[|a + b| - 1] == b[|b| - 1];
      DeployAppend(ev, a, b0);
      ThenAssoc(DeployPlan(ev, a), DeployPlan(ev, b0), DeployItem(ev, b[|b| - 1]));
    }
  }

  lemma SalesAppend(e: TradeShowRecord, a: seq<string>, b: seq<string>)
    ensures SalesPlan(e, a + b) == Then(SalesPlan(e, a), SalesPlan(e, b))
    decreases |b|
  {
    if |b| == 0 {
      assert a + b == a;
    } else {
      var b0 := b[..|b| - 1];
      assert (a + b)[..|a + b| - 1] == a + b0;
      assert (a + b)[|a + b| - 1] == b[|b| - 1];
      SalesAppend(e, a, b0);
      ThenAssoc(SalesPlan(e, a), SalesPlan(e, b0), SalePlan(e, b[|b| - 1]));
    }
  }

  lemma TradeShowsAppend(a: seq<TradeShowRecord>, b: seq<TradeShowRecord>)
    ensures TradeShowsPlan(a + b) == Then(TradeShowsPlan(a), TradeShowsPlan(b))
    decreases |b|
  {
    if |b| == 0 {
      assert a + b == a;
    } else {
      var b0 := b[..|b| - 1];
      assert (a + b)[..|a + b| - 1] == a + b0;
      assert (a + b)[|a + b| - 1] == b[|b| - 1];
      TradeShowsAppend(a, b0);
      ThenAssoc(TradeShowsPlan(a), TradeShowsPlan(b0), TradeShowPlan(b[|b| - 1]));
    }
  }

  lemma PoweredEventsAppend(a: seq<PoweredEventRecord>, b: seq<PoweredEventRecord>)
    ensures PoweredEventsPlan(a + b) == Then(PoweredEventsPlan(a), PoweredEventsPlan(b))
    decreases |b|
  {
    if |b| == 0 {
      assert a + b == a;
    } else {
      var b0 := b[..|b| - 1];
      assert (a + b)[..|a + b| - 1] == a + b0;
      assert (a + b)[|a + b| - 1] == b[|b| - 1];
      PoweredEventsAppend(a, b0);
      ThenAssoc(PoweredEventsPlan(a), PoweredEventsPlan(b0), PoweredEventPlan(b[|b| - 1]));
    }
  }

  /** Once a prefix of the entries raises, the rest never run. */
  lemma IncludesAbsorb(sale: NodeRef, items: seq<string>, n: nat)
    requires n <= |items| && IncludesPlan(sale, items[..n]).error.Some?
    ensures IncludesPlan(sale, items) == IncludesPlan(sale, items[..n])
  {
    var a, b := items[..n], items[n..];
    SplitAt(items, n);
    IncludesAppend(sale, a, b);
  }

  lemma DeployAbsorb(ev: NodeRef, items: seq<string>, n: nat)
    requires n <= |items| && DeployPlan(ev, items[..n]).error.Some?
    ensures DeployPlan(ev, items) == DeployPlan(ev, items[..n])
  {
    var a, b := items[..n], items[n..];
    SplitAt(items, n);
    DeployAppend(ev, a, b);
  }

  lemma SalesAbsorb(e: TradeShowRecord, cts: seq<string>, n: nat)
    requires n <= |cts| && SalesPlan(e, cts[..n]).error.Some?
    ensures SalesPlan(e, cts) == SalesPlan(e, cts[..n])
  {
    var a, b := cts[..n], cts[n..];
    SplitAt(cts, n);
    SalesAppend(e, a, b);
  }

  lemma TradeShowsAbsorb(es: seq<TradeShowRecord>, n: nat)
    requires n <= |es| && TradeShowsPlan(es[..n]).error.Some?
    ensures TradeShowsPlan(es) == TradeShowsPlan(es[..n])
  {
    var a, b := es[..n], es[n..];
    SplitAt(es, n);
    TradeShowsAppend(a, b);
  }

  lemma PoweredEventsAbsorb(es: seq<PoweredEventRecord>, n: nat)
    requires n <= |es| && PoweredEventsPlan(es[..n]).error.Some?
    ensures PoweredEventsPlan(es) == PoweredEventsPlan(es[..n])
  {
    var a, b := es[..n], es[n..];
    SplitAt(es, n);
    PoweredEventsAppend(a, b);
  }

  lemma DeploySplit(ev: NodeRef, items: seq<string>, i: nat)
    requires i < |items| && DeployPlan(ev, items[..i]).error.None? && DeployedQuantity(items[i]).Some?
    ensures DeployPlan(ev, items).stmts ==
      DeployPlan(ev, items[..i]).stmts + [MatchMergeRel(DeployRel(ev, items[i]), map["quantity" := Int(DeployedQuantity(items[i]).value)])] + DeployPlan(ev, items[i + 1..]).stmts
  {
    SplitAt(items, i + 1);
    DeployAppend(ev, items[..i + 1], items[i + 1..]);
    assert items[..i + 1][..i] == items[..i];
    assert DeployPlan(ev, items[..i + 1]) == Then(DeployPlan(ev, items[..i]), DeployItem(ev, items[i]));
  }

  /** A DEPLOYED_AT for an entry whose earlier entries parsed is there
      afterwards exactly when it was before or the Product node existed:
      the event node itself is merged first, and a later `int()` failure
      does not undo it. */
  lemma DeployGuard(g: Graph, e: PoweredEventRecord, i: nat)
    requires i < |e.powerDeployment.modelsUsed|
    requires DeployPlan(EventNode(e), e.powerDeployment.modelsUsed[..i]).error.None?
    requires DeployedQuantity(e.powerDeployment.modelsUsed[i]).Some?
    ensures var r := DeployRel(EventNode(e), e.powerDeployment.modelsUsed[i]);
      r in ExecAll(g, PoweredEventPlan(e).stmts).rels <==> r in g.rels || r.from in g.nodes
  {
    PoweredEventWithin(e);
    DeployGuardOn(g, EventNode(e), EventProps(e), e.powerDeployment.modelsUsed, i);
  }

  /** DeployGuard for any event MERGE followed by the event's deployments. */
  lemma DeployGuardOn(g: Graph, ev: NodeRef, props: Props, items: seq<string>, i: nat)
    requires i < |items| && DeployPlan(ev, items[..i]).error.None? && DeployedQuantity(items[i]).Some?
    requires ev.kind == Event && AllWithin([MergeSet(ev, props)] + DeployPlan(ev, items).stmts, EventLabels, EventRels)
    ensures var r := DeployRel(ev, items[i]);
      r in ExecAll(g, [MergeSet(ev, props)] + DeployPlan(ev, items).stmts).rels <==> r in g.rels || r.from in g.nodes
  {
    var link := MatchMergeRel(DeployRel(ev, items[i]), map["quantity" := Int(DeployedQuantity(items[i]).value)]);
    DeploySplit(ev, items, i);
    HeadGuard(g, MergeSet(ev, props), DeployPlan(ev, items[..i]).stmts, link, DeployPlan(ev, items[i + 1..]).stmts, EventLabels, EventRels);
  }

  /** A link after a head MERGE that creates its target, from a node of a
      label the statements never merge, is there afterwards exactly when it
      was before or its source node existed. */
  lemma HeadGuard(g: Graph, head: Stmt, p: seq<Stmt>, x: Stmt, r: seq<Stmt>, ls: set<Label>, ts: set<RelType>)
    requires !x.MergeSet? && AllWithin([head] + (p + [x] + r), ls, ts)
    requires x.rel.from.kind !in ls && x.rel.to in Created(head)
    ensures x.rel in ExecAll(g, [head] + (p + [x] + r)).rels <==> x.rel in g.rels || x.rel.from in g.nodes
  {
    Middle(head, p, x, r);
    GuardedFrom(g, [head] + (p + [x] + r), 1 + |p|, ls, ts);
  }

  lemma DeploySnoc(ev: NodeRef, items: seq<string>, i: nat)
    requires i < |items|
    ensures DeployPlan(ev, items[..i + 1]) == Then(DeployPlan(ev, items[..i]), DeployItem(ev, items[i]))
  {
    assert items[..i + 1][..i] == items[..i];
  }

  // ---------------------------------------------------------------------
  // Products included in a sale
  // ---------------------------------------------------------------------

  /** The quantity a sale's product entry links, or None when the entry is
      skipped or `int()` raises on it. */
  function IncludedQuantity(item: string): Option<int> {
    match SplitShorthand(item)
    case Bare(_) => None
    case Pair(_, count) => ParseInt(count)
  }

  function IncludeRel(sale: NodeRef, item: string): RelRef {
    Rel(IncludesProduct, sale, Node(Product, ItemProduct(item)))
  }

  function IncludeLink(sale: NodeRef, item: string): Stmt
    requires IncludedQuantity(item).Some?
  {
    MatchMergeRel(IncludeRel(sale, item), map["quantity" := Int(IncludedQuantity(item).value)])
  }

  /** The statements of one entry: its link when it has a quantity, none
      otherwise (skipped or raising). */
  lemma IncludeItemStmts(sale: NodeRef, item: string)
    ensures IncludeItem(sale, item).stmts == if IncludedQuantity(item).Some? then [IncludeLink(sale, item)] else []
    ensures IncludedQuantity(item).Some? ==> IncludeItem(sale, item).error.None?
  {
  }

  lemma IncludesAppend(sale: NodeRef, a: seq<string>, b: seq<string>)
    ensures IncludesPlan(sale, a + b) == Then(IncludesPlan(sale, a), IncludesPlan(sale, b))
    decreases |b|
  {
    if |b| == 0 {
      assert a + b == a;
    } else {
      var b0 := b[..|b| - 1];
      assert (a + b)[..|a + b| - 1] == a + b0;
      assert (a + b)[|a + b| - 1] == b[|b| - 1];
      IncludesAppend(sale, a, b0);
      ThenAssoc(IncludesPlan(sale, a), IncludesPlan(sale, b0), IncludeItem(sale, b[|b| - 1]));
    }
  }

  lemma IncludesSnoc(sale: NodeRef, items: seq<string>, i: nat)
    requires i < |items|
    ensures IncludesPlan(sale, items[..i + 1]) == Then(IncludesPlan(sale, items[..i]), IncludeItem(sale, items[i]))
  {
    assert items[..i + 1][..i] == items[..i];
  }

  lemma {:induction false} IncludesSplit(sale: NodeRef, items: seq<string>, i: nat)
    requires i < |items| && IncludesPlan(sale, items[..i]).error.None? && IncludedQuantity(items[i]).Some?
    ensures IncludesPlan(sale, items).stmts ==
      IncludesPlan(sale, items[..i]).stmts + [IncludeLink(sale, items[i])] + IncludesPlan(sale, items[i + 1..]).stmts
  {
    var init, rest := items[..i + 1], items[i + 1..];
    SplitAt(items, i + 1);
    var p, q := IncludesPlan(sale, items[..i]), IncludeItem(sale, items[i]);
    IncludeItemStmts(sale, items[i]);
    IncludesSnoc(sale, items, i);
    var pq, r := IncludesPlan(sale, init), IncludesPlan(sale, rest);
    assert pq.stmts == p.stmts + [IncludeLink(sale, items[i])] && pq.error.None?;
    IncludesAppend(sale, init, rest);
    assert IncludesPlan(sale, items).stmts == pq.stmts + r.stmts;
  }

  /** Entries that do not link a product never touch its INCLUDES_PRODUCT. */
  lemma {:induction false} IncludesNoRel(sale: NodeRef, items: seq<string>, pid: string)
    requires forall j :: 0 <= j < |items| && IncludedQuantity(items[j]).Some? ==> ItemProduct(items[j]) != pid
    ensures forall k :: 0 <= k < |IncludesPlan(sale, items).stmts| ==>
      Rel(IncludesProduct, sale, Node(Product, pid)) !in RelOf(IncludesPlan(sale, items).stmts[k])
    decreases |items|
  {
    if |items| > 0 {
      var init, last := items[..|items| - 1], items[|items| - 1];
      var p, q := IncludesPlan(sale, init), IncludeItem(sale, last);
      assert IncludesPlan(sale, items) == Then(p, q);
      assert forall j :: 0 <= j < |init| ==> init[j] == items[j];
      IncludesNoRel(sale, init, pid);
      IncludeItemStmts(sale, last);
      if p.error.None? {
        var ss := p.stmts + q.stmts;
        forall k | 0 <= k < |ss| ensures Rel(IncludesProduct, sale, Node(Product, pid)) !in RelOf(ss[k]) {
          if k >= |p.stmts| {
            assert ss[k] == q.stmts[0];
          }
        }
      }
    }
  }

  /** Statements that open with the MERGE of `sale`, have the link of the
      `i`th entry at position `k`, and after it the includes of the later
      entries. */
  predicate SaleShape(ss: seq<Stmt>, k: nat, sale: NodeRef, items: seq<string>, i: nat) {
    0 < k < |ss| && i < |items| && IncludedQuantity(items[i]).Some? &&
    ss[0].MergeSetLink? && ss[0].node == sale &&
    ss[k] == IncludeLink(sale, items[i]) && ss[k + 1..] == IncludesPlan(sale, items[i + 1..]).stmts
  }

  lemma SaleSplit(e: TradeShowRecord, ct: string, i: nat)
    requires SaleRuns(e, ct) && i < |SalesFor(e, ct).products|
    requires IncludesPlan(SaleNode(e, ct), SalesFor(e, ct).products[..i]).error.None?
    requires IncludedQuantity(SalesFor(e, ct).products[i]).Some?
    ensures SaleShape(SalePlan(e, ct).stmts, 1 + |IncludesPlan(SaleNode(e, ct), SalesFor(e, ct).products[..i]).stmts|, SaleNode(e, ct), SalesFor(e, ct).products, i)
  {
    var s := SalesFor(e, ct);
    var sale := SaleNode(e, ct);
    var head := SaleStmt(e, ct, Units(s), ParseRevenue(s.totalRevenue.value).value);
    SaleStmts(e, ct);
    IncludesSplit(sale, s.products, i);
    Middle(head, IncludesPlan(sale, s.products[..i]).stmts, IncludeLink(sale, s.products[i]), IncludesPlan(sale, s.products[i + 1..]).stmts);
  }

  /** An INCLUDES_PRODUCT for an entry whose earlier entries parsed is there
      after the sale exactly when it was before or the Product node
      existed. */
  lemma IncludeGuard(g: Graph, e: TradeShowRecord, ct: string, i: nat)
    requires SaleRuns(e, ct) && i < |SalesFor(e, ct).products|
    requires IncludesPlan(SaleNode(e, ct), SalesFor(e, ct).products[..i]).error.None?
    requires IncludedQuantity(SalesFor(e, ct).products[i]).Some?
    ensures var r := IncludeRel(SaleNode(e, ct), SalesFor(e, ct).products[i]);
      r in ExecAll(g, SalePlan(e, ct).stmts).rels <==> r in g.rels || r.to in g.nodes
  {
    SaleSplit(e, ct, i);
    SaleWithin(e, ct);
    var k := 1 + |IncludesPlan(SaleNode(e, ct), SalesFor(e, ct).products[..i]).stmts|;
    GuardedTo(g, SalePlan(e, ct).stmts, k, {Sale}, {SoldAt, IncludesProduct});
  }

  lemma SalePlanCreatedAny(e: TradeShowRecord, ct: string)
    ensures CreatedAll(SalePlan(e, ct).stmts) <= {SaleNode(e, ct)}
  {
    var s := SalesFor(e, ct);
    if SaleRuns(e, ct) {
      var head := SaleStmt(e, ct, Units(s), ParseRevenue(s.totalRevenue.value).value);
      var inc := IncludesPlan(SaleNode(e, ct), s.products).stmts;
      assert SalePlan(e, ct).stmts == [head] + inc;
      IncludesLinks(SaleNode(e, ct), s.products);
      LinksCreateNothing(inc, SaleNode(e, ct));
      CreatedAllAppend([head], inc);
    }
  }

  /** The INCLUDES_PRODUCT of an entry whose product no later entry links
      ends up with that entry's quantity: repeating a product in a sale's
      `products` leaves the last quantity. */
  lemma IncludeLastWins(g: Graph, e: TradeShowRecord, ct: string, i: nat)
    requires SaleRuns(e, ct) && i < |SalesFor(e, ct).products|
    requires IncludesPlan(SaleNode(e, ct), SalesFor(e, ct).products[..i]).error.None?
    requires IncludedQuantity(SalesFor(e, ct).products[i]).Some?
    requires Node(Product, ItemProduct(SalesFor(e, ct).products[i])) in g.nodes
    requires LaterAvoids(SalesFor(e, ct).products, i)
    ensures var r := IncludeRel(SaleNode(e, ct), SalesFor(e, ct).products[i]);
      var h := ExecAll(g, SalePlan(e, ct).stmts);
      r in h.rels && "quantity" in h.rels[r] && h.rels[r]["quantity"] == Int(IncludedQuantity(SalesFor(e, ct).products[i]).value)
  {
    var items := SalesFor(e, ct).products;
    SaleSplit(e, ct, i);
    var k := 1 + |IncludesPlan(SaleNode(e, ct), items[..i]).stmts|;
    LinkLastWins(g, SalePlan(e, ct).stmts, k, SaleNode(e, ct), items, i);
  }

  /** The entries after the `i`th, read as a list of their own. */
  lemma LaterAvoid(items: seq<string>, i: nat)
    requires i < |items| && LaterAvoids(items, i)
    ensures var rest := items[i + 1..];
      forall j :: 0 <= j < |rest| && IncludedQuantity(rest[j]).Some? ==> ItemProduct(rest[j]) != ItemProduct(items[i])
  {
    var rest := items[i + 1..];
    forall j | 0 <= j < |rest| && IncludedQuantity(rest[j]).Some? ensures ItemProduct(rest[j]) != ItemProduct(items[i]) {
      SuffixIndex(items, i + 1, j);
    }
  }

  /** No entry after the `i`th that links a product links the `i`th's. */
  predicate LaterAvoids(items: seq<string>, i: nat)
    requires i < |items|
  {
    forall j :: i < j < |items| && IncludedQuantity(items[j]).Some? ==> ItemProduct(items[j]) != ItemProduct(items[i])
  }

  /** The link at position `k` of statements that open with the Sale's
      MERGE and continue with the includes of the entries after the `i`th
      keeps that entry's quantity when none of them links the same
      product. */
  lemma LinkLastWins(g: Graph, ss: seq<Stmt>, k: nat, sale: NodeRef, items: seq<string>, i: nat)
    requires SaleShape(ss, k, sale, items, i) && LaterAvoids(items, i)
    requires Node(Product, ItemProduct(items[i])) in g.nodes
    ensures var r := IncludeRel(sale, items[i]);
      var h := ExecAll(g, ss);
      r in h.rels && "quantity" in h.rels[r] && h.rels[r]["quantity"] == Int(IncludedQuantity(items[i]).value)
  {
    var item := items[i];
    CreatedAllHead(ss, k);
    LaterAvoid(items, i);
    IncludesNoRel(sale, items[i + 1..], ItemProduct(item));
    forall j | k < j < |ss| ensures ss[k].rel !in RelOf(ss[j]) {
      SuffixIndex(ss, k + 1, j - k - 1);
    }
    LastMergeWins(g, ss, k);
    SetQuantity(PropsOf(ExecAll(g, ss[..k]).rels, ss[k].rel), IncludedQuantity(item).value);
  }

  /** SET r.quantity = q leaves that quantity, whatever was there. */
  lemma SetQuantity(p: Props, q: int)
    ensures var r := SetProps(p, map["quantity" := Int(q)]);
      "quantity" in r && r["quantity"] == Int(q)
  {
    var a := map["quantity" := Int(q)];
    assert "quantity" in a && a["quantity"] != Null;
  }
}
