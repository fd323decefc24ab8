/**
 * The JSON records the loader reads, as it reads them. A field the code
 * reads with `record["key"]` is a plain field (its absence would be a
 * `KeyError` before anything is written, and is not represented); a field it
 * reads with `.get(key, default)` is an `Option` or, for lists, a sequence
 * that is empty when the key is absent. Values the code copies into the
 * graph unchanged are JSON values.
 */
module Records {
  import opened Wrappers
  import opened Json

  datatype PowerOutput = PowerOutput(continuous: Value, peak: Value)

  datatype Specifications = Specifications(batteryCapacity: Value, batteryType: string, solarPanelCapacity: Value)

  datatype CostBreakdown = CostBreakdown(privateTotalCost: Value)

  datatype Pricing = Pricing(averageSellingPrice: Value, marginPercentage: Value)

  /** An entry of `products`. */
  datatype ProductRecord = ProductRecord(
    productId: string,
    name: Value,
    category: Value,
    powerOutput: PowerOutput,
    specifications: Specifications,
    privateCostBreakdown: CostBreakdown,
    pricing: Pricing,
    co2Reduction: Value,
    rentalAvailable: Value)

  /** One customer type's entry of `sales_closed`: `units` and `products`
      are read with `.get`, `total_revenue` with `[...]` but only when
      `units` is positive, so its absence is an error the model keeps. */
  datatype SalesEntry = SalesEntry(units: Option<int>, totalRevenue: Option<Value>, products: seq<string>)

  /** What `sales_closed.get(customer_type, {})` gives for an absent type. */
  const NoSales := SalesEntry(None, None, [])

  datatype SalesData = SalesData(leadsGenerated: Value, totalSales: Value, salesClosed: map<string, SalesEntry>)

  /** `greenpower_participation`; `models_displayed` is read with `.get`. */
  datatype Participation = Participation(modelsDisplayed: seq<string>)

  /** An entry of `trade_shows_exhibitions`. */
  datatype TradeShowRecord = TradeShowRecord(
    eventId: string,
    eventName: Value,
    kind: Value,
    location: Value,
    date: Value,
    participation: Participation,
    salesData: SalesData)

  /** `power_deployment`; `attendees` is read with `.get`, `models_used`
      with `[...]`. */
  datatype PowerDeployment = PowerDeployment(
    attendees: Option<Value>,
    runtime: Value,
    fuelSaved: Value,
    co2Reduction: Value,
    modelsUsed: seq<string>)

  /** An entry of `powered_events`. */
  datatype PoweredEventRecord = PoweredEventRecord(
    eventId: string,
    eventName: Value,
    kind: Value,
    location: Value,
    date: Value,
    powerDeployment: PowerDeployment)

  /** An entry of `active_rd_projects`; `projected_annual_savings` and
      `target_products` are read with `.get`. */
  datatype RDProjectRecord = RDProjectRecord(
    projectId: string,
    projectName: Value,
    status: Value,
    objective: Value,
    projectedAnnualSavings: Option<Value>,
    targetProducts: seq<string>)

  /** A parsed data file: the four top-level lists, each empty when its key
      is absent (every loader reads them with `data.get(key, [])`). */
  datatype Document = Document(
    products: seq<ProductRecord>,
    tradeShows: seq<TradeShowRecord>,
    poweredEvents: seq<PoweredEventRecord>,
    rdProjects: seq<RDProjectRecord>)
}
