/**
 * The loader itself: a database connection whose graph changes statement by
 * statement as the loading methods walk the JSON records, and `load_all`,
 * which clears the database and runs the four loaders in turn, counting the
 * ones that report success.
 *
 * Everything the loader reads from outside is fixed in an `Env`: which paths
 * exist, what `glob` returns for each pattern, the parsed contents of the
 * files that can be opened and parsed, and the pages Pixtral returns for the
 * images whose analysis succeeds.
 */
module Loader {
  import opened Wrappers
  import opened Json
  import opened Text
  import opened Normalize
  import opened Cypher
  import opened Records
  import opened Plans
  import opened RecordLaws

  datatype Env = Env(
    present: set<string>,                 // `os.path.exists`
    glob: map<string, seq<string>>,       // `glob.glob(pattern)`, in the order it returns them
    files: map<string, Document>,         // the files that open and parse as JSON
    analyses: map<string, seq<string>>)   // `process_image_complete`: page contents, for the calls that return

  const ProductsFile := "data/greenpower_products.json"
  const EventsFile := "data/greenpower_events.json"
  const RdFile := "data/greenpower_rd_innovations.json"
  const ImageFile := "data/exemple.jpg"

  const ProductsPattern := "data/*product*.json"
  const EventsPattern := "data/*event*.json"
  const RdPattern := "data/*rd*.json"

  function Candidates(env: Env, pattern: string): seq<string> {
    if pattern in env.glob then env.glob[pattern] else []
  }

  /** `_find_file` followed by `open` and `json.load`: None when no file is
      found or it cannot be read (both make the loader return False). */
  function ReadData(env: Env, defaultPath: string, pattern: string): Option<Document> {
    match FindFile(env.present, defaultPath, Candidates(env, pattern))
    case None => None
    case Some(path) => if path in env.files then Some(env.files[path]) else None
  }

  /** How a loader call ends: it returns a boolean, or an exception escapes. */
  datatype Outcome = Returned(loaded: bool) | Raised(error: LoadError)

  /** The statements a loader call runs, and how it ends. */
  datatype Effect = Effect(stmts: seq<Stmt>, outcome: Outcome)

  const NotLoaded := Effect([], Returned(false))

  function PlanEffect(p: Plan): Effect {
    Effect(p.stmts, if p.error.Some? then Raised(p.error.value) else Returned(true))
  }

  function ProductsEffect(env: Env, productsFile: string): Effect {
    match ReadData(env, productsFile, ProductsPattern)
    case None => NotLoaded
    case Some(d) => Effect(ProductsPlan(d.products), Returned(true))
  }

  function EventsEffect(env: Env, eventsFile: string): Effect {
    match ReadData(env, eventsFile, EventsPattern)
    case None => NotLoaded
    case Some(d) => PlanEffect(EventsPlan(d))
  }

  function RdEffect(env: Env, rdFile: string): Effect {
    match ReadData(env, rdFile, RdPattern)
    case None => NotLoaded
    case Some(d) => Effect(ProjectsPlan(d.rdProjects), Returned(true))
  }

  /** `load_image`: it returns False for a missing file, for an analysis that
      raises (the exception is caught) and for an empty analysis. */
  function ImageEffect(env: Env, imagePath: string): Effect {
    if imagePath !in env.present || imagePath !in env.analyses || |env.analyses[imagePath]| == 0 then NotLoaded
    else Effect([ImageStmt(imagePath, env.analyses[imagePath])], Returned(true))
  }

  // ---------------------------------------------------------------------
  // load_all
  // ---------------------------------------------------------------------

  datatype Report = Completed(filesLoaded: nat) | Aborted(error: LoadError)

  datatype LoadRun = LoadRun(stmts: seq<Stmt>, report: Report)

  /** Loader calls in order, each counted when it returns True; an exception
      ends the sequence. */
  function RunStages(es: seq<Effect>): LoadRun
    decreases |es|
  {
    if |es| == 0 then LoadRun([], Completed(0))
    else match es[0].outcome
      case Raised(e) => LoadRun(es[0].stmts, Aborted(e))
      case Returned(b) =>
        var rest := RunStages(es[1..]);
        LoadRun(es[0].stmts + rest.stmts,
                match rest.report
                case Completed(n) => Completed(n + if b then 1 else 0)
                case Aborted(e) => Aborted(e))
  }

  function Stages(env: Env): seq<Effect> {
    [ProductsEffect(env, ProductsFile), EventsEffect(env, EventsFile), RdEffect(env, RdFile), ImageEffect(env, ImageFile)]
  }

  /** Everything `load_all` sends after `clear_database`, and its outcome. */
  function LoadAllRun(env: Env): LoadRun {
    RunStages(Stages(env))
  }

  function Outcomes(es: seq<Effect>): seq<Outcome> {
    seq(|es|, i requires 0 <= i < |es| => es[i].outcome)
  }

  function AllStmts(es: seq<Effect>): seq<Stmt>
    decreases |es|
  {
    if |es| == 0 then [] else es[0].stmts + AllStmts(es[1..])
  }

  /** The counter: with no exception, the number of calls that returned True,
      which is at most the number of calls. */
  lemma {:induction false} StagesCount(es: seq<Effect>)
    ensures RunStages(es).report.Completed? <==> forall i :: 0 <= i < |es| ==> es[i].outcome.Returned?
    ensures RunStages(es).report.Completed? ==>
      RunStages(es).report.filesLoaded == multiset(Outcomes(es))[Returned(true)] <= |es| &&
      RunStages(es).stmts == AllStmts(es)
    decreases |es|
  {
    if |es| > 0 {
      StagesCount(es[1..]);
      assert Outcomes(es) == [es[0].outcome] + Outcomes(es[1..]);
      assert multiset(Outcomes(es)) == multiset([es[0].outcome]) + multiset(Outcomes(es[1..]));
      assert |Outcomes(es[1..])| == |es| - 1;
      assert multiset(Outcomes(es[1..]))[Returned(true)] <= |multiset(Outcomes(es[1..]))|;
      if forall i :: 0 <= i < |es| - 1 ==> es[1..][i].outcome.Returned? {
        assert forall i :: 1 <= i < |es| ==> es[i] == es[1..][i - 1];
      } else {
        var i :| 0 <= i < |es| - 1 && !es[1..][i].outcome.Returned?;
        assert es[i + 1] == es[1..][i];
      }
    }
  }

  /** An exception comes from the first call that raises; the calls after it
      do not run. */
  lemma {:induction false} StagesAbort(es: seq<Effect>, k: nat)
    requires k < |es| && es[k].outcome.Raised?
    requires forall j :: 0 <= j < k ==> es[j].outcome.Returned?
    ensures RunStages(es).report == Aborted(es[k].outcome.error)
    ensures RunStages(es).stmts == AllStmts(es[..k + 1])
    decreases k
  {
    if k > 0 {
      assert forall j :: 0 <= j < k - 1 ==> es[1..][j] == es[j + 1];
      StagesAbort(es[1..], k - 1);
      assert es[1..][..k] == es[..k + 1][1..];
    }
  }

  /** Of the four loaders only `load_events` can raise on well-typed data;
      without an exception `files_loaded` counts the loaders that returned
      True and lies in 0..4, and with one the R&D projects and the image are
      never loaded. */
  lemma LoadAllReport(env: Env)
    ensures LoadAllRun(env).report.Aborted? <==> EventsEffect(env, EventsFile).outcome.Raised?
    ensures LoadAllRun(env).report.Aborted? ==>
      LoadAllRun(env).report.error == EventsEffect(env, EventsFile).outcome.error &&
      LoadAllRun(env).stmts == ProductsEffect(env, ProductsFile).stmts + EventsEffect(env, EventsFile).stmts
    ensures LoadAllRun(env).report.Completed? ==>
      LoadAllRun(env).report.filesLoaded == multiset(Outcomes(Stages(env)))[Returned(true)] <= 4
  {
    var es := Stages(env);
    StagesCount(es);
    if EventsEffect(env, EventsFile).outcome.Raised? {
      StagesAbort(es, 1);
      assert es[..2][1..][1..] == [];
    } else {
      assert forall i :: 0 <= i < |es| ==> es[i].outcome.Returned?;
    }
  }

  /** `files_loaded` is 0 exactly when no loader returned True. */
  lemma LoadAllNothing(env: Env)
    requires LoadAllRun(env).report.Completed?
    ensures LoadAllRun(env).report.filesLoaded == 0 <==>
      forall i :: 0 <= i < 4 ==> Stages(env)[i].outcome == Returned(false)
  {
    var es := Stages(env);
    StagesCount(es);
    var outs := Outcomes(es);
    if multiset(outs)[Returned(true)] == 0 {
      forall i | 0 <= i < 4 ensures es[i].outcome == Returned(false) {
        assert outs[i] in multiset(outs);
        assert outs[i] != Returned(true);
      }
    } else {
      assert Returned(true) in outs;
    }
  }

  /** The image is recorded under its file name, which has no '/', with its
      path, and a description that splits back into the analysis pages when
      none of them contains a newline. */
  lemma ImageLoaded(env: Env, imagePath: string)
    ensures ImageEffect(env, imagePath).outcome == Returned(true) <==>
      imagePath in env.present && imagePath in env.analyses && |env.analyses[imagePath]| > 0
    ensures ImageEffect(env, imagePath).outcome == Returned(true) ==>
      var s := ImageEffect(env, imagePath).stmts;
      var pages := env.analyses[imagePath];
      var name := s[0].node.key;
      |s| == 1 && s[0].MergeSet? && s[0].node.kind == Image &&
      '/' !in name && |name| <= |imagePath| && imagePath[|imagePath| - |name|..] == name &&
      (|name| < |imagePath| ==> imagePath[|imagePath| - |name| - 1] == '/') &&
      "path" in s[0].assign && s[0].assign["path"] == Str(imagePath) && "description" in s[0].assign &&
      ((forall k :: 0 <= k < |pages| ==> '\n' !in pages[k]) ==> Split(s[0].assign["description"].s, "\n") == pages)
  {
    if ImageEffect(env, imagePath).outcome == Returned(true) {
      var pages := env.analyses[imagePath];
      if forall k :: 0 <= k < |pages| ==> '\n' !in pages[k] {
        SplitJoinChar(pages, '\n');
      }
    }
  }

  // ---------------------------------------------------------------------
  // Execution helpers
  // ---------------------------------------------------------------------

  lemma ExecAllOne(g: Graph, s: Stmt)
    ensures ExecAll(g, [s]) == Exec(g, s)
  {
    assert [s][1..] == [];
  }

  lemma ExecAllSnoc(g: Graph, ss: seq<Stmt>, s: Stmt)
    ensures ExecAll(g, ss + [s]) == Exec(ExecAll(g, ss), s)
  {
    ExecAllAppend(g, ss, [s]);
    ExecAllOne(ExecAll(g, ss), s);
  }

  /** Running `p` followed by `q` is running `p`, then `q`. */
  lemma ThenRun(g: Graph, p: Plan, q: Plan)
    requires p.error.None?
    ensures ExecAll(g, Then(p, q).stmts) == ExecAll(ExecAll(g, p.stmts), q.stmts)
    ensures Then(p, q).error == q.error
  {
    ExecAllAppend(g, p.stmts, q.stmts);
  }

  /** The same, seen from the state `p` leaves. */
  lemma ThenExecAt(g: Graph, p: Plan, h: Graph, q: Plan)
    requires p.error.None? && h == ExecAll(g, p.stmts)
    ensures ExecAll(h, q.stmts) == ExecAll(g, Then(p, q).stmts)
    ensures Then(p, q).error == q.error
  {
    ThenRun(g, p, q);
  }

  /** A plan that starts with the statement `s`, seen from the state `s`
      leaves. */
  lemma PrefixExec(g: Graph, s: Stmt, h: Graph, q: Plan)
    requires h == Exec(g, s)
    ensures ExecAll(h, q.stmts) == ExecAll(g, Then(Done([s]), q).stmts)
    ensures Then(Done([s]), q).error == q.error
  {
    ExecAllOne(g, s);
    ThenExecAt(g, Done([s]), h, q);
  }

  lemma DisplayedSnoc(t: NodeRef, ids: seq<string>, i: nat)
    requires i < |ids|
    ensures DisplayedStmts(t, ids[..i + 1]) == DisplayedStmts(t, ids[..i]) + [MatchMergeRel(Rel(DisplayedAt, Node(Product, ids[i]), t), map[])]
  {
    assert ids[..i + 1][..i] == ids[..i];
  }

  lemma TargetsSnoc(pr: NodeRef, ids: seq<string>, i: nat)
    requires i < |ids|
    ensures TargetStmts(pr, ids[..i + 1]) == TargetStmts(pr, ids[..i]) + [MatchMergeRel(Rel(TargetsProduct, pr, Node(Product, ids[i])), map[])]
  {
    assert ids[..i + 1][..i] == ids[..i];
  }

  lemma ProductsSnoc(ps: seq<ProductRecord>, i: nat)
    requires i < |ps|
    ensures ProductsPlan(ps[..i + 1]) == ProductsPlan(ps[..i]) + ProductStmts(ps[i])
  {
    assert ps[..i + 1][..i] == ps[..i];
  }

  lemma ProjectsSnoc(rs: seq<RDProjectRecord>, i: nat)
    requires i < |rs|
    ensures ProjectsPlan(rs[..i + 1]) == ProjectsPlan(rs[..i]) + ProjectStmts(rs[i])
  {
    assert rs[..i + 1][..i] == rs[..i];
  }

  /** A sale's product entry in the terms the loop uses, `split(" x")`. */
  lemma IncludeItemByParts(sale: NodeRef, item: string)
    ensures var parts := Split(item, " x");
      IncludeItem(sale, item) ==
        if |parts| != 2 then Done([])
        else if ParseInt(parts[1]).None? then Raise(ValueError(parts[1]))
        else Done([MatchMergeRel(Rel(IncludesProduct, sale, Node(Product, parts[0])), map["quantity" := Int(ParseInt(parts[1]).value)])])
  {
  }

  lemma DeployItemByParts(ev: NodeRef, item: string)
    ensures var parts := Split(item, " x");
      DeployItem(ev, item) ==
        if |parts| != 2 then Done([MatchMergeRel(Rel(DeployedAt, Node(Product, item), ev), map["quantity" := Int(1)])])
        else if ParseInt(parts[1]).None? then Raise(ValueError(parts[1]))
        else Done([MatchMergeRel(Rel(DeployedAt, Node(Product, parts[0]), ev), map["quantity" := Int(ParseInt(parts[1]).value)])])
  {
  }

  function Loaded(o: Outcome): nat {
    if o == Returned(true) then 1 else 0
  }

  /** A call that returns, in front of calls that complete. */
  lemma RunReturned(e: Effect, rest: seq<Effect>)
    requires e.outcome.Returned? && RunStages(rest).report.Completed?
    ensures RunStages([e] + rest) ==
      LoadRun(e.stmts + RunStages(rest).stmts, Completed(RunStages(rest).report.filesLoaded + Loaded(e.outcome)))
  {
    assert ([e] + rest)[0] == e;
    assert ([e] + rest)[1..] == rest;
  }

  /** Four calls of which only the second can raise. */
  lemma RunFour(a: Effect, b: Effect, c: Effect, d: Effect)
    requires a.outcome.Returned? && c.outcome.Returned? && d.outcome.Returned?
    ensures b.outcome.Raised? ==> RunStages([a, b, c, d]) == LoadRun(a.stmts + b.stmts, Aborted(b.outcome.error))
    ensures b.outcome.Returned? ==>
      RunStages([a, b, c, d]) ==
        LoadRun(a.stmts + b.stmts + c.stmts + d.stmts,
                Completed(Loaded(a.outcome) + Loaded(b.outcome) + Loaded(c.outcome) + Loaded(d.outcome)))
  {
    assert [a, b, c, d] == [a] + [b, c, d];
    assert [b, c, d] == [b] + [c, d];
    assert [c, d] == [c] + [d];
    assert [d] == [d] + [];
    RunReturned(d, []);
    RunReturned(c, [d]);
    if b.outcome.Returned? {
      RunReturned(b, [c, d]);
      RunReturned(a, [b, c, d]);
      assert a.stmts + (b.stmts + (c.stmts + (d.stmts + []))) == a.stmts + b.stmts + c.stmts + d.stmts;
    } else {
      assert [b, c, d][0] == b;
      assert RunStages([b, c, d]) == LoadRun(b.stmts, Aborted(b.outcome.error));
      assert ([a] + [b, c, d])[0] == a;
      assert ([a] + [b, c, d])[1..] == [b, c, d];
    }
  }

  /** `load_all`'s four calls written out. */
  lemma LoadAllUnfold(env: Env)
    ensures var es := Stages(env);
      es[0].outcome.Returned? && es[2].outcome.Returned? && es[3].outcome.Returned? &&
      (es[1].outcome.Raised? ==> LoadAllRun(env) == LoadRun(es[0].stmts + es[1].stmts, Aborted(es[1].outcome.error))) &&
      (es[1].outcome.Returned? ==>
         LoadAllRun(env) ==
           LoadRun(es[0].stmts + es[1].stmts + es[2].stmts + es[3].stmts,
                   Completed(Loaded(es[0].outcome) + Loaded(es[1].outcome) + Loaded(es[2].outcome) + Loaded(es[3].outcome))))
  {
    var es := Stages(env);
    RunFour(es[0], es[1], es[2], es[3]);
  }

  // ---------------------------------------------------------------------
  // The loader
  // ---------------------------------------------------------------------

  /** `Neo4jLoader`: the graph behind the driver, changed by each
      `session.run`. */
  class Neo4jLoader {
    const env: Env
    var nodes: map<NodeRef, Props>
    var rels: map<RelRef, Props>

    function State(): Graph
      reads this
    {
      Graph(nodes, rels)
    }

    /** Connecting to a database that holds `db`. */
    constructor(env: Env, db: Graph)
      ensures this.env == env && State() == db
    {
      this.env := env;
      nodes := db.nodes;
      rels := db.rels;
    }

    /** One `session.run`, committed at once. */
    method Run(s: Stmt)
      modifies this
      ensures State() == Exec(old(State()), s)
    {
      var g := Exec(State(), s);
      nodes := g.nodes;
      rels := g.rels;
    }

    /** `MATCH (n) DETACH DELETE n`. */
    method ClearDatabase()
      modifies this
      ensures State() == Empty
    {
      nodes := map[];
      rels := map[];
    }

    /** One entry of `products`: its node, then its battery type and the
        USES_BATTERY link. */
    method LoadProduct(p: ProductRecord)
      modifies this
      ensures State() == ExecAll(old(State()), ProductStmts(p))
    {
      ghost var g0 := State();
      var first := MergeSet(ProductNode(p), ProductProps(p));
      Run(first);
      ghost var g1 := State();
      var second := MergeSetLink(BatteryNode(p), map[], UsesBatteryRel(p));
      Run(second);
      ExecAllOne(g1, second);
      PrefixExec(g0, first, g1, Done([second]));
    }

    method LoadProducts(productsFile: string) returns (loaded: bool)
      modifies this
      ensures State() == ExecAll(old(State()), ProductsEffect(env, productsFile).stmts)
      ensures ProductsEffect(env, productsFile).outcome == Returned(loaded)
    {
      ghost var g0 := State();
      var actual := FindFile(env.present, productsFile, Candidates(env, ProductsPattern));
      if actual.None? || actual.value !in env.files {
        return false;
      }
      var ps := env.files[actual.value].products;
      var i := 0;
      while i < |ps|
        invariant 0 <= i <= |ps|
        invariant State() == ExecAll(g0, ProductsPlan(ps[..i]))
      {
        ProductsSnoc(ps, i);
        ExecAllAppend(g0, ProductsPlan(ps[..i]), ProductStmts(ps[i]));
        LoadProduct(ps[i]);
        i := i + 1;
      }
      assert ps[..|ps|] == ps;
      return true;
    }

    /** The `for product_info in sales.get("products", [])` loop of a sale. */
    method LoadIncludes(sale: NodeRef, items: seq<string>) returns (err: Option<LoadError>)
      modifies this
      ensures State() == ExecAll(old(State()), IncludesPlan(sale, items).stmts)
      ensures err == IncludesPlan(sale, items).error
    {
      ghost var g0 := State();
      var i := 0;
      while i < |items|
        invariant 0 <= i <= |items|
        invariant IncludesPlan(sale, items[..i]).error.None?
        invariant State() == ExecAll(g0, IncludesPlan(sale, items[..i]).stmts)
      {
        ghost var before := State();
        IncludesSnoc(sale, items, i);
        ThenRun(g0, IncludesPlan(sale, items[..i]), IncludeItem(sale, items[i]));
        IncludeItemByParts(sale, items[i]);
        var parts := Split(items[i], " x");
        if |parts| == 2 {
          var quantity := ParseInt(parts[1]);
          if quantity.None? {
            IncludesAbsorb(sale, items, i + 1);
            return Some(ValueError(parts[1]));
          }
          var link := MatchMergeRel(Rel(IncludesProduct, sale, Node(Product, parts[0])), map["quantity" := Int(quantity.value)]);
          Run(link);
          ExecAllOne(before, link);
        }
        i := i + 1;
      }
      assert items[..|items|] == items;
      return None;
    }

    /** One customer type of a trade show, with the products its sale
        includes. */
    method LoadSale(e: TradeShowRecord, customerType: string) returns (err: Option<LoadError>)
      modifies this
      ensures State() == ExecAll(old(State()), SalePlan(e, customerType).stmts)
      ensures err == SalePlan(e, customerType).error
    {
      ghost var g0 := State();
      var sales := SalesFor(e, customerType);
      if Units(sales) <= 0 {
        return None;
      }
      if sales.totalRevenue.None? {
        return Some(KeyError("total_revenue"));
      }
      var revenue := ParseRevenue(sales.totalRevenue.value);
      if revenue.None? {
        return Some(AttributeError);
      }
      var sale := SaleNode(e, customerType);
      var head := SaleStmt(e, customerType, Units(sales), revenue.value);
      Run(head);
      ghost var g1 := State();
      err := LoadIncludes(sale, sales.products);
      PrefixExec(g0, head, g1, IncludesPlan(sale, sales.products));
    }

    /** The DISPLAYED_AT loop of a trade show. */
    method LoadDisplayed(t: NodeRef, ids: seq<string>)
      modifies this
      ensures State() == ExecAll(old(State()), DisplayedStmts(t, ids))
    {
      ghost var g0 := State();
      var i := 0;
      while i < |ids|
        invariant 0 <= i <= |ids|
        invariant State() == ExecAll(g0, DisplayedStmts(t, ids[..i]))
      {
        ghost var done := DisplayedStmts(t, ids[..i]);
        var link := MatchMergeRel(Rel(DisplayedAt, Node(Product, ids[i]), t), map[]);
        DisplayedSnoc(t, ids, i);
        Run(link);
        ExecAllSnoc(g0, done, link);
        i := i + 1;
      }
      assert ids[..|ids|] == ids;
    }

    /** The `for customer_type in [...]` loop of a trade show. */
    method LoadSales(e: TradeShowRecord) returns (err: Option<LoadError>)
      modifies this
      ensures State() == ExecAll(old(State()), SalesPlan(e, CustomerTypes).stmts)
      ensures err == SalesPlan(e, CustomerTypes).error
    {
      ghost var g0 := State();
      var k := 0;
      while k < |CustomerTypes|
        invariant 0 <= k <= |CustomerTypes|
        invariant SalesPlan(e, CustomerTypes[..k]).error.None?
        invariant State() == ExecAll(g0, SalesPlan(e, CustomerTypes[..k]).stmts)
      {
        assert CustomerTypes[..k + 1][..k] == CustomerTypes[..k];
        assert SalesPlan(e, CustomerTypes[..k + 1]) == Then(SalesPlan(e, CustomerTypes[..k]), SalePlan(e, CustomerTypes[k]));
        ThenRun(g0, SalesPlan(e, CustomerTypes[..k]), SalePlan(e, CustomerTypes[k]));
        err := LoadSale(e, CustomerTypes[k]);
        if err.Some? {
          SalesAbsorb(e, CustomerTypes, k + 1);
          return;
        }
        k := k + 1;
      }
      assert CustomerTypes[..|CustomerTypes|] == CustomerTypes;
      return None;
    }

    /** One entry of `trade_shows_exhibitions`. */
    method LoadTradeShow(e: TradeShowRecord) returns (err: Option<LoadError>)
      modifies this
      ensures State() == ExecAll(old(State()), TradeShowPlan(e).stmts)
      ensures err == TradeShowPlan(e).error
    {
      ghost var g0 := State();
      var total := ParseRevenue(e.salesData.totalSales);
      if total.None? {
        return Some(AttributeError);
      }
      var t := TradeShowNode(e);
      var first := MergeSet(t, TradeShowProps(e, total.value));
      Run(first);
      ghost var g1 := State();
      var ids := e.participation.modelsDisplayed;
      LoadDisplayed(t, ids);
      PrefixExec(g0, first, g1, Done(DisplayedStmts(t, ids)));
      ghost var g2 := State();
      err := LoadSales(e);
      ThenExecAt(g0, Done([first] + DisplayedStmts(t, ids)), g2, SalesPlan(e, CustomerTypes));
    }

    /** The `for model_info in ...["models_used"]` loop of a powered event. */
    method LoadDeployments(ev: NodeRef, items: seq<string>) returns (err: Option<LoadError>)
      modifies this
      ensures State() == ExecAll(old(State()), DeployPlan(ev, items).stmts)
      ensures err == DeployPlan(ev, items).error
    {
      ghost var g0 := State();
      var i := 0;
      while i < |items|
        invariant 0 <= i <= |items|
        invariant DeployPlan(ev, items[..i]).error.None?
        invariant State() == ExecAll(g0, DeployPlan(ev, items[..i]).stmts)
      {
        ghost var before := State();
        DeploySnoc(ev, items, i);
        ThenRun(g0, DeployPlan(ev, items[..i]), DeployItem(ev, items[i]));
        DeployItemByParts(ev, items[i]);
        var parts := Split(items[i], " x");
        var link;
        if |parts| == 2 {
          var quantity := ParseInt(parts[1]);
          if quantity.None? {
            DeployAbsorb(ev, items, i + 1);
            return Some(ValueError(parts[1]));
          }
          link := MatchMergeRel(Rel(DeployedAt, Node(Product, parts[0]), ev), map["quantity" := Int(quantity.value)]);
        } else {
          link := MatchMergeRel(Rel(DeployedAt, Node(Product, items[i]), ev), map["quantity" := Int(1)]);
        }
        Run(link);
        ExecAllOne(before, link);
        i := i + 1;
      }
      assert items[..|items|] == items;
      return None;
    }

    /** One entry of `powered_events`, with the models it deploys. */
    method LoadPoweredEvent(e: PoweredEventRecord) returns (err: Option<LoadError>)
      modifies this
      ensures State() == ExecAll(old(State()), PoweredEventPlan(e).stmts)
      ensures err == PoweredEventPlan(e).error
    {
      ghost var g0 := State();
      var ev := EventNode(e);
      var first := MergeSet(ev, EventProps(e));
      Run(first);
      ghost var g1 := State();
      err := LoadDeployments(ev, e.powerDeployment.modelsUsed);
      PrefixExec(g0, first, g1, DeployPlan(ev, e.powerDeployment.modelsUsed));
    }

    /** The trade-show loop of `load_events`. */
    method LoadTradeShows(shows: seq<TradeShowRecord>) returns (err: Option<LoadError>)
      modifies this
      ensures State() == ExecAll(old(State()), TradeShowsPlan(shows).stmts)
      ensures err == TradeShowsPlan(shows).error
    {
      ghost var g0 := State();
      var i := 0;
      while i < |shows|
        invariant 0 <= i <= |shows|
        invariant TradeShowsPlan(shows[..i]).error.None?
        invariant State() == ExecAll(g0, TradeShowsPlan(shows[..i]).stmts)
      {
        assert shows[..i + 1][..i] == shows[..i];
        assert TradeShowsPlan(shows[..i + 1]) == Then(TradeShowsPlan(shows[..i]), TradeShowPlan(shows[i]));
        ThenRun(g0, TradeShowsPlan(shows[..i]), TradeShowPlan(shows[i]));
        err := LoadTradeShow(shows[i]);
        if err.Some? {
          TradeShowsAbsorb(shows, i + 1);
          return;
        }
        i := i + 1;
      }
      assert shows[..|shows|] == shows;
      return None;
    }

    /** The powered-event loop of `load_events`. */
    method LoadPoweredEvents(events: seq<PoweredEventRecord>) returns (err: Option<LoadError>)
      modifies this
      ensures State() == ExecAll(old(State()), PoweredEventsPlan(events).stmts)
      ensures err == PoweredEventsPlan(events).error
    {
      ghost var g0 := State();
      var j := 0;
      while j < |events|
        invariant 0 <= j <= |events|
        invariant PoweredEventsPlan(events[..j]).error.None?
        invariant State() == ExecAll(g0, PoweredEventsPlan(events[..j]).stmts)
      {
        assert events[..j + 1][..j] == events[..j];
        assert PoweredEventsPlan(events[..j + 1]) == Then(PoweredEventsPlan(events[..j]), PoweredEventPlan(events[j]));
        ThenRun(g0, PoweredEventsPlan(events[..j]), PoweredEventPlan(events[j]));
        err := LoadPoweredEvent(events[j]);
        if err.Some? {
          PoweredEventsAbsorb(events, j + 1);
          return;
        }
        j := j + 1;
      }
      assert events[..|events|] == events;
      return None;
    }

    method LoadEvents(eventsFile: string) returns (outcome: Outcome)
      modifies this
      ensures State() == ExecAll(old(State()), EventsEffect(env, eventsFile).stmts)
      ensures outcome == EventsEffect(env, eventsFile).outcome
    {
      ghost var g0 := State();
      var actual := FindFile(env.present, eventsFile, Candidates(env, EventsPattern));
      if actual.None? || actual.value !in env.files {
        return Returned(false);
      }
      var d := env.files[actual.value];
      assert EventsEffect(env, eventsFile) == PlanEffect(EventsPlan(d));
      ghost var shows, events := TradeShowsPlan(d.tradeShows), PoweredEventsPlan(d.poweredEvents);
      assert EventsPlan(d) == Then(shows, events);
      var err := LoadTradeShows(d.tradeShows);
      if err.Some? {
        return Raised(err.value);
      }
      ThenRun(g0, shows, events);
      err := LoadPoweredEvents(d.poweredEvents);
      if err.Some? {
        return Raised(err.value);
      }
      return Returned(true);
    }

    /** The TARGETS loop of an R&D project. */
    method LoadTargets(pr: NodeRef, ids: seq<string>)
      modifies this
      ensures State() == ExecAll(old(State()), TargetStmts(pr, ids))
    {
      ghost var g0 := State();
      var i := 0;
      while i < |ids|
        invariant 0 <= i <= |ids|
        invariant State() == ExecAll(g0, TargetStmts(pr, ids[..i]))
      {
        ghost var done := TargetStmts(pr, ids[..i]);
        var link := MatchMergeRel(Rel(TargetsProduct, pr, Node(Product, ids[i])), map[]);
        TargetsSnoc(pr, ids, i);
        Run(link);
        ExecAllSnoc(g0, done, link);
        i := i + 1;
      }
      assert ids[..|ids|] == ids;
    }

    /** One entry of `active_rd_projects`, with its target products. */
    method LoadProject(r: RDProjectRecord)
      modifies this
      ensures State() == ExecAll(old(State()), ProjectStmts(r))
    {
      ghost var g0 := State();
      var pr := ProjectNode(r);
      var first := MergeSet(pr, ProjectProps(r));
      Run(first);
      ghost var g1 := State();
      LoadTargets(pr, r.targetProducts);
      PrefixExec(g0, first, g1, Done(TargetStmts(pr, r.targetProducts)));
    }

    method LoadRdProjects(rdFile: string) returns (loaded: bool)
      modifies this
      ensures State() == ExecAll(old(State()), RdEffect(env, rdFile).stmts)
      ensures RdEffect(env, rdFile).outcome == Returned(loaded)
    {
      ghost var g0 := State();
      var actual := FindFile(env.present, rdFile, Candidates(env, RdPattern));
      if actual.None? || actual.value !in env.files {
        return false;
      }
      var rs := env.files[actual.value].rdProjects;
      var i := 0;
      while i < |rs|
        invariant 0 <= i <= |rs|
        invariant State() == ExecAll(g0, ProjectsPlan(rs[..i]))
      {
        ProjectsSnoc(rs, i);
        ExecAllAppend(g0, ProjectsPlan(rs[..i]), ProjectStmts(rs[i]));
        LoadProject(rs[i]);
        i := i + 1;
      }
      assert rs[..|rs|] == rs;
      return true;
    }

    method LoadImage(imagePath: string) returns (loaded: bool)
      modifies this
      ensures State() == ExecAll(old(State()), ImageEffect(env, imagePath).stmts)
      ensures ImageEffect(env, imagePath).outcome == Returned(loaded)
    {
      if imagePath !in env.present || imagePath !in env.analyses {
        return false;
      }
      var documents := env.analyses[imagePath];
      if |documents| == 0 {
        return false;
      }
      var description := Join(documents, "\n");
      var filename := Basename(imagePath);
      var s := MergeSet(Node(Image, filename), map["description" := Str(description), "path" := Str(imagePath)]);
      assert s == ImageStmt(imagePath, documents);
      ghost var g0 := State();
      Run(s);
      ExecAllOne(g0, s);
      return true;
    }

    /** `load_all`: clear the database, then run the four loaders with
        their default paths, counting those that return True. */
    method LoadAll() returns (report: Report)
      modifies this
      ensures State() == ExecAll(Empty, LoadAllRun(env).stmts)
      ensures report == LoadAllRun(env).report
    {
      ClearDatabase();
      ghost var es := Stages(env);
      ghost var s0, s1, s2, s3 := es[0].stmts, es[1].stmts, es[2].stmts, es[3].stmts;
      LoadAllUnfold(env);
      var filesLoaded := 0;
      var products := LoadProducts(ProductsFile);
      if products {
        filesLoaded := filesLoaded + 1;
      }
      assert filesLoaded == Loaded(es[0].outcome);
      var events := LoadEvents(EventsFile);
      ExecAllAppend(Empty, s0, s1);
      if events.Raised? {
        return Aborted(events.error);
      }
      if events.loaded {
        filesLoaded := filesLoaded + 1;
      }
      assert filesLoaded == Loaded(es[0].outcome) + Loaded(es[1].outcome);
      var projects := LoadRdProjects(RdFile);
      ExecAllAppend(Empty, s0 + s1, s2);
      if projects {
        filesLoaded := filesLoaded + 1;
      }
      assert filesLoaded == Loaded(es[0].outcome) + Loaded(es[1].outcome) + Loaded(es[2].outcome);
      var image := LoadImage(ImageFile);
      ExecAllAppend(Empty, s0 + s1 + s2, s3);
      if image {
        filesLoaded := filesLoaded + 1;
      }
      assert filesLoaded == Loaded(es[0].outcome) + Loaded(es[1].outcome) + Loaded(es[2].outcome) + Loaded(es[3].outcome);
      return Completed(filesLoaded);
    }
  }
}
