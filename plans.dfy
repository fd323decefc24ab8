/**
 * What each loader sends to the database, record by record: the Cypher
 * statements in the order `session.run` receives them and the exception, if
 * any, that interrupts the sequence. The Python code never reads a result
 * back from the database, so the statements depend on the records alone.
 */
module Plans {
  import opened Wrappers
  import opened Json
  import opened Text
  import opened Normalize
  import opened Cypher
  import opened Records

  /** The exceptions the mapping code can raise on well-typed records. */
  datatype LoadError =
    | KeyError(key: string)          // `sales["total_revenue"]` absent
    | ValueError(literal: string)    // `int(...)` on a count that is not an integer
    | AttributeError                 // `parse_revenue(None)`: null has no `replace`

  /** The statements that run, and the exception that stops the sequence
      after them, if one does. */
  datatype Plan = Plan(stmts: seq<Stmt>, error: Option<LoadError>)

  function Done(ss: seq<Stmt>): Plan {
    Plan(ss, None)
  }

  function Raise(e: LoadError): Plan {
    Plan([], Some(e))
  }

  /** `p` followed by `q`, unless `p` raised. */
  function Then(p: Plan, q: Plan): Plan {
    if p.error.Some? then p else Plan(p.stmts + q.stmts, q.error)
  }

  // ---------------------------------------------------------------------
  // load_products
  // ---------------------------------------------------------------------

  function ProductNode(p: ProductRecord): NodeRef {
    Node(Product, p.productId)
  }

  function BatteryNode(p: ProductRecord): NodeRef {
    Node(BatteryType, p.specifications.batteryType)
  }

  function UsesBatteryRel(p: ProductRecord): RelRef {
    Rel(UsesBattery, ProductNode(p), BatteryNode(p))
  }

  /** The twelve properties the Product MERGE sets. */
  function ProductProps(p: ProductRecord): Props {
    map[
      "name" := p.name,
      "category" := p.category,
      "continuous_power" := p.powerOutput.continuous,
      "peak_power" := p.powerOutput.peak,
      "battery_capacity" := p.specifications.batteryCapacity,
      "battery_type" := Str(p.specifications.batteryType),
      "solar_capacity" := p.specifications.solarPanelCapacity,
      "total_cost" := p.privateCostBreakdown.privateTotalCost,
      "avg_selling_price" := p.pricing.averageSellingPrice,
      "margin_percentage" := p.pricing.marginPercentage,
      "co2_reduction" := p.co2Reduction,
      "rental_available" := p.rentalAvailable
    ]
  }

  function ProductStmts(p: ProductRecord): seq<Stmt> {
    [MergeSet(ProductNode(p), ProductProps(p)),
     MergeSetLink(BatteryNode(p), map[], UsesBatteryRel(p))]
  }

  function ProductsPlan(ps: seq<ProductRecord>): seq<Stmt>
    decreases |ps|
  {
    if |ps| == 0 then [] else ProductsPlan(ps[..|ps| - 1]) + ProductStmts(ps[|ps| - 1])
  }

  // ---------------------------------------------------------------------
  // load_events: trade shows
  // ---------------------------------------------------------------------

  const CustomerTypes: seq<string> := ["particuliers", "entreprises", "collectivites"]

  /** `f"{event_id}_{customer_type}"`. */
  function SaleId(eventId: string, customerType: string): string {
    eventId + "_" + customerType
  }

  function TradeShowNode(e: TradeShowRecord): NodeRef {
    Node(TradeShow, e.eventId)
  }

  function SaleNode(e: TradeShowRecord, customerType: string): NodeRef {
    Node(Sale, SaleId(e.eventId, customerType))
  }

  function TradeShowProps(e: TradeShowRecord, totalSales: real): Props {
    map[
      "name" := e.eventName,
      "type" := e.kind,
      "location" := e.location,
      "date" := e.date,
      "leads_generated" := e.salesData.leadsGenerated,
      "total_sales" := Float(totalSales)
    ]
  }

  /** `sales_closed.get(customer_type, {})`. */
  function SalesFor(e: TradeShowRecord, customerType: string): SalesEntry {
    if customerType in e.salesData.salesClosed then e.salesData.salesClosed[customerType] else NoSales
  }

  /** `sales.get("units", 0)`. */
  function Units(s: SalesEntry): int {
    s.units.GetOr(0)
  }

  function SaleProps(customerType: string, units: int, revenue: real): Props {
    map["customer_type" := Str(customerType), "units" := Int(units), "total_revenue" := Float(revenue)]
  }

  /** The Sale MERGE, linked SOLD_AT to its trade show. */
  function SaleStmt(e: TradeShowRecord, customerType: string, units: int, revenue: real): Stmt {
    MergeSetLink(SaleNode(e, customerType), SaleProps(customerType, units, revenue), Rel(SoldAt, SaleNode(e, customerType), TradeShowNode(e)))
  }

  function DisplayedStmts(t: NodeRef, ids: seq<string>): seq<Stmt>
    decreases |ids|
  {
    if |ids| == 0 then []
    else DisplayedStmts(t, ids[..|ids| - 1]) + [MatchMergeRel(Rel(DisplayedAt, Node(Product, ids[|ids| - 1]), t), map[])]
  }

  /** One entry of a sale's `products`: an "<id> x<n>" string links the
      product with quantity n; anything else is skipped. */
  function IncludeItem(sale: NodeRef, item: string): Plan {
    match SplitShorthand(item)
    case Bare(_) => Done([])
    case Pair(id, count) =>
      match ParseInt(count)
      case None => Raise(ValueError(count))
      case Some(q) => Done([MatchMergeRel(Rel(IncludesProduct, sale, Node(Product, id)), map["quantity" := Int(q)])])
  }

  function IncludesPlan(sale: NodeRef, items: seq<string>): Plan
    decreases |items|
  {
    if |items| == 0 then Done([])
    else Then(IncludesPlan(sale, items[..|items| - 1]), IncludeItem(sale, items[|items| - 1]))
  }

  /** One customer type of a trade show. */
  function SalePlan(e: TradeShowRecord, customerType: string): Plan {
    var s := SalesFor(e, customerType);
    if Units(s) <= 0 then Done([])
    else if s.totalRevenue.None? then Raise(KeyError("total_revenue"))
    else
      match ParseRevenue(s.totalRevenue.value)
      case None => Raise(AttributeError)
      case Some(revenue) =>
        Then(Done([SaleStmt(e, customerType, Units(s), revenue)]), IncludesPlan(SaleNode(e, customerType), s.products))
  }

  function SalesPlan(e: TradeShowRecord, customerTypes: seq<string>): Plan
    decreases |customerTypes|
  {
    if |customerTypes| == 0 then Done([])
    else Then(SalesPlan(e, customerTypes[..|customerTypes| - 1]), SalePlan(e, customerTypes[|customerTypes| - 1]))
  }

  function TradeShowPlan(e: TradeShowRecord): Plan {
    match ParseRevenue(e.salesData.totalSales)
    case None => Raise(AttributeError)
    case Some(total) =>
      Then(Done([MergeSet(TradeShowNode(e), TradeShowProps(e, total))] + DisplayedStmts(TradeShowNode(e), e.participation.modelsDisplayed)),
           SalesPlan(e, CustomerTypes))
  }

  function TradeShowsPlan(es: seq<TradeShowRecord>): Plan
    decreases |es|
  {
    if |es| == 0 then Done([]) else Then(TradeShowsPlan(es[..|es| - 1]), TradeShowPlan(es[|es| - 1]))
  }

  // ---------------------------------------------------------------------
  // load_events: powered events
  // ---------------------------------------------------------------------

  function EventNode(e: PoweredEventRecord): NodeRef {
    Node(Event, e.eventId)
  }

  function EventProps(e: PoweredEventRecord): Props {
    map[
      "name" := e.eventName,
      "type" := e.kind,
      "location" := e.location,
      "date" := e.date,
      "attendees" := e.powerDeployment.attendees.GetOr(Str("N/A")),
      "runtime" := e.powerDeployment.runtime,
      "fuel_saved" := e.powerDeployment.fuelSaved,
      "co2_reduction" := e.powerDeployment.co2Reduction
    ]
  }

  /** One entry of `models_used`: "<id> x<n>" deploys the product with
      quantity n; any other string is taken whole as the product id, with
      quantity 1. */
  function DeployItem(ev: NodeRef, item: string): Plan {
    match SplitShorthand(item)
    case Bare(whole) => Done([MatchMergeRel(Rel(DeployedAt, Node(Product, whole), ev), map["quantity" := Int(1)])])
    case Pair(id, count) =>
      match ParseInt(count)
      case None => Raise(ValueError(count))
      case Some(q) => Done([MatchMergeRel(Rel(DeployedAt, Node(Product, id), ev), map["quantity" := Int(q)])])
  }

  function DeployPlan(ev: NodeRef, items: seq<string>): Plan
    decreases |items|
  {
    if |items| == 0 then Done([])
    else Then(DeployPlan(ev, items[..|items| - 1]), DeployItem(ev, items[|items| - 1]))
  }

  function PoweredEventPlan(e: PoweredEventRecord): Plan {
    Then(Done([MergeSet(EventNode(e), EventProps(e))]), DeployPlan(EventNode(e), e.powerDeployment.modelsUsed))
  }

  function PoweredEventsPlan(es: seq<PoweredEventRecord>): Plan
    decreases |es|
  {
    if |es| == 0 then Done([]) else Then(PoweredEventsPlan(es[..|es| - 1]), PoweredEventPlan(es[|es| - 1]))
  }

  /** The whole of `load_events` once the file is read. */
  function EventsPlan(d: Document): Plan {
    Then(TradeShowsPlan(d.tradeShows), PoweredEventsPlan(d.poweredEvents))
  }

  // ---------------------------------------------------------------------
  // load_rd_projects
  // ---------------------------------------------------------------------

  function ProjectNode(r: RDProjectRecord): NodeRef {
    Node(RDProject, r.projectId)
  }

  function ProjectProps(r: RDProjectRecord): Props {
    map[
      "name" := r.projectName,
      "status" := r.status,
      "objective" := r.objective,
      "projected_savings" := r.projectedAnnualSavings.GetOr(Str("N/A"))
    ]
  }

  function TargetStmts(project: NodeRef, ids: seq<string>): seq<Stmt>
    decreases |ids|
  {
    if |ids| == 0 then []
    else TargetStmts(project, ids[..|ids| - 1]) + [MatchMergeRel(Rel(TargetsProduct, project, Node(Product, ids[|ids| - 1])), map[])]
  }

  function ProjectStmts(r: RDProjectRecord): seq<Stmt> {
    [MergeSet(ProjectNode(r), ProjectProps(r))] + TargetStmts(ProjectNode(r), r.targetProducts)
  }

  function ProjectsPlan(rs: seq<RDProjectRecord>): seq<Stmt>
    decreases |rs|
  {
    if |rs| == 0 then [] else ProjectsPlan(rs[..|rs| - 1]) + ProjectStmts(rs[|rs| - 1])
  }

  // ---------------------------------------------------------------------
  // load_image
  // ---------------------------------------------------------------------

  /** The Image MERGE for an analysis that produced `pages` (the
      `page_content` of each document, in order). */
  function ImageStmt(path: string, pages: seq<string>): Stmt {
    MergeSet(Node(Image, Basename(path)), map["description" := Str(Join(pages, "\n")), "path" := Str(path)])
  }
}
