# GreenPower Neo4j loader, modelled in Dafny

The `Neo4jLoader` class reads GreenPower's JSON data files and loads them into a
Neo4j property graph. The graph has these node labels and relationship types:

- Product, with a BatteryType and USES_BATTERY;
- TradeShow, with its Sale nodes, SOLD_AT and INCLUDES_PRODUCT;
- DISPLAYED_AT from a product to a trade show;
- powered Event nodes, with DEPLOYED_AT;
- RDProject, with TARGETS_PRODUCT;
- one Image node, described by an external image-analysis service.

`load_all` clears the database and runs the four loaders in turn. It counts the
loaders that report success.

## How the model is organised

The model splits along the line the code itself draws. The Python code never
reads a result back from the database, so each loader's effect is:

- the list of Cypher statements that its loops send, which is worked out from
  the records alone;
- these statements executed one after the other on the graph.

| file | module | what it holds |
|---|---|---|
| `wrappers.dfy` | `Wrappers` | `Option` and a few sequence facts |
| `json.dfy` | `Json` | JSON values (null, bool, int, float, string) |
| `text.dfy` | `Text` | the Python string behaviour the loader relies on (see below) |
| `normalize.dfy` | `Normalize` | `parse_revenue`, the `" x"` quantity shorthand, `_find_file`, `os.path.basename` |
| `cypher.dfy` | `Cypher` | the graph and the three statement shapes the loader sends (see below) |
| `records.dfy` | `Records` | the JSON records (see below) |
| `plans.dfy` | `Plans` | for each loader, the statements it sends and the exception that stops it, if any |
| `loader.dfy` | `Loader` | the class `Neo4jLoader` and `load_all`'s counter (see below) |
| `replay.dfy` | `Replay` | why a loader run twice leaves the graph it leaves once |
| `plan_laws.dfy` | `PlanLaws` | what each loader's statements do as a whole |
| `record_laws.dfy` | `RecordLaws` | what each record leaves in the graph |

Notes on some of these modules:

- **`Text`** covers:
  - `str.split` with a multi-character separator;
  - `str.join` and `str.strip`;
  - the decimal grammars of `int(str)` and `float(str)`.
- **`Cypher`** models the graph and the three statement shapes:
  - a node is keyed by its label and its unique id;
  - a relationship is keyed by its type and its two ends;
  - the three shapes are:
    - `MERGE (n) SET ...`;
    - `MATCH (a) MATCH (b) MERGE (a)-[r]->(b) SET ...`;
    - `MERGE (n) SET ... WITH n MATCH (m) MERGE (n)-[]-(m)`.
- **`Records`** holds the JSON records as the loader reads them:
  - a key read with `record["key"]` is a plain field;
  - a key read with `.get(key, default)` is an `Option` or an empty list.
- **`Loader`** holds:
  - the class `Neo4jLoader`, whose fields are the graph;
  - one method per loop of the Python code, each proved to leave exactly the
    graph that its statements produce;
  - `load_all`'s counter.

All I/O is fixed in an `Env` value:

- which paths exist;
- what `glob` returns for each pattern;
- the parsed data files;
- the pages the image analysis returns for each image.

Where the repository's design description and the code disagree, the model
follows the code:

- **`load_all` does not catch exceptions.** The design says that a failing
  stage is caught and does not block later stages. In the code there is no
  `try` around the session loops, so an exception raised while mapping a record
  ends `load_all`. The model reports this as `Aborted`. With typed records, only
  `load_events` can raise. The cases are:
  - `int()` on a count that is not an integer;
  - `parse_revenue(None)`;
  - a sale with positive `units` and no `total_revenue`.
- **`parse_revenue` is not total.** The design says a string never makes it
  raise. That holds, but on JSON `null` it raises `AttributeError`.
- **A bad count raises.** The design says that trade-show product entries that
  do not match the shorthand are skipped. An entry with two parts whose count is
  not an integer (`"PG-M01 xthree"`) raises `ValueError` instead.
- **`_find_file` does not sort.** It returns `glob`'s first match in the order
  `glob` gives. The model takes that order as given.
- **Empty image analysis.** `load_image` also returns False when the analysis
  returns no page.

## Model

| member | source | states |
|---|---|---|
| `Text.Find` | src/services/neo4j_loader.py:195 | the index found is the first occurrence of the separator at or after the start, and none occurs before it |
| `Text.JoinSplit` | src/services/neo4j_loader.py:195 | joining `s.split(sep)` with `sep` gives back `s`: splitting loses nothing |
| `Text.SplitPartsFree` | src/services/neo4j_loader.py:195 | no part of a split contains the separator |
| `Text.SplitFree` | src/services/neo4j_loader.py:254-256 | a string without the separator splits into itself alone |
| `Text.SplitQuantitySep` | src/services/neo4j_loader.py:195-197 | `s.split(" x")` has exactly two parts if and only if `" x"` occurs exactly once in `s`; the parts are then the text before and after that occurrence |
| `Text.SplitJoinChar` | src/services/neo4j_loader.py:338 | pages joined with a newline split back into the same pages when no page contains a newline |
| `Text.StripLeft` | src/services/neo4j_loader.py:116 | the result is a suffix of the input; everything removed is whitespace; the result starts with something else |
| `Text.StripRight` | src/services/neo4j_loader.py:116 | the result is a prefix of the input; everything removed is whitespace; the result ends with something else |
| `Text.Strip` | src/services/neo4j_loader.py:116 | neither end of the result is whitespace; a string with no whitespace at its ends is unchanged |
| `Text.StripOnlyRemoves` | src/services/neo4j_loader.py:116 | every character of the stripped text was in the input |
| `Text.StripAbsent` | src/services/neo4j_loader.py:116 | a character absent from the input is absent from the stripped text |
| `Text.StripKeeps` | src/services/neo4j_loader.py:116 | a character that is not whitespace survives stripping |
| `Text.NatToString` | src/services/neo4j_loader.py:198 | the decimal notation of a number is a non-empty run of digits |
| `Text.NatToStringValue` | src/services/neo4j_loader.py:198 | the decimal notation of `n` denotes `n` |
| `Text.ParseIntRoundTrip` | src/services/neo4j_loader.py:198 | `int(str(n)) == n` for every integer, negative ones included |
| `Text.ParseIntRejects` | src/services/neo4j_loader.py:198 | `int()` raises on any text holding a character that is not whitespace, a digit, an underscore or a sign |
| `Text.ParseFloatDigits` | src/services/neo4j_loader.py:118 | `float()` of a run of digits is the number it denotes |
| `Text.ParseFloatRejects` | src/services/neo4j_loader.py:118 | `float()` raises on any text holding a character that decimal notation does not use |
| `Text.UnsignedFloatChars` | src/services/neo4j_loader.py:118 | the unsigned part of a numeral that `float()` accepts uses only digits, `_`, `.`, `e`, `E` and signs |
| `Normalize.RemoveChar` | src/services/neo4j_loader.py:116 | `replace(c, '')` drops every `c`, keeps every other character, and adds none |
| `Normalize.Clean` | src/services/neo4j_loader.py:116 | the cleaned text holds no `€`, `,` or space, and no whitespace at its ends |
| `Normalize.ParseRevenue` | src/services/neo4j_loader.py:111-120 | an int or float comes back as the same number in float form; a string always gives a number; null, and only null, gives no number (the `AttributeError`) |
| `Normalize.RevenueIdempotent` | src/services/neo4j_loader.py:113-120 | applying `parse_revenue` to its own result returns that result |
| `Normalize.RemoveFormatting` | src/services/neo4j_loader.py:116 | on text made of digits, `€`, `,` and spaces, cleaning leaves exactly the digits, in order |
| `Normalize.RevenueFormattedDigits` | src/services/neo4j_loader.py:116-118 | such text with at least one digit parses to the value of its digits, as `'€911,750'` or `'1 250 €'` do |
| `Normalize.RevenueExample` | src/services/neo4j_loader.py:111-118 | `'€911,750'` gives 911750.0 |
| `Normalize.RevenueOfDecimal` | src/services/neo4j_loader.py:116-118 | the decimal notation of a natural number parses back to that number |
| `Normalize.RevenueNonNumeric` | src/services/neo4j_loader.py:117-120 | a string holding a character that is neither whitespace, `€`, `,` nor used by any numeral gives 0.0, not an exception |
| `Normalize.RevenueNotANumber` | src/services/neo4j_loader.py:117-120 | `"not a number"` gives 0.0 |
| `Normalize.SplitShorthand` | src/services/neo4j_loader.py:195-197 | an entry that is not a two-part split is kept whole |
| `Normalize.SplitShorthandSpec` | src/services/neo4j_loader.py:195-197 | the entry is a pair exactly when `" x"` occurs once in it, and then `id + " x" + count` is the entry; otherwise it is the whole string |
| `Normalize.ShorthandPair` | src/services/neo4j_loader.py:195-197 | an id and a count that do not contain `" x"` are split back out of `id + " x" + count` |
| `Normalize.ShorthandRoundTrip` | src/services/neo4j_loader.py:195-198 | `"<id> x<n>"` is read back as `id` and the integer `n` whenever `id` does not contain `" x"` |
| `Normalize.ShorthandPairOf` | src/services/neo4j_loader.py:195-197 | an entry with exactly one `" x"` is a pair |
| `Normalize.ShorthandBareOf` | src/services/neo4j_loader.py:254-256 | an entry without exactly one `" x"` is bare |
| `Normalize.PairExample` | src/services/neo4j_loader.py:194-198 | `"PG-M01 x3"` reads as `PG-M01` with quantity 3 |
| `Normalize.OtherPairExample` | src/services/neo4j_loader.py:239-243 | `"PG-U01 x2"` reads as `PG-U01` and count `"2"` |
| `Normalize.BareExamples` | src/services/neo4j_loader.py:254-256 | `"PG-M01"` and `"PG-U01"` are bare |
| `Normalize.BadCountExample` | src/services/neo4j_loader.py:195-197 | `"PG-M01 xthree"` still splits into two parts |
| `Normalize.WordCountExample` | src/services/neo4j_loader.py:198 | `int("three")` raises |
| `Normalize.FindFile` | src/services/neo4j_loader.py:37-47 | the default path when it exists; otherwise the first candidate; `None` only when there is no candidate |
| `Normalize.Basename` | src/services/neo4j_loader.py:339 | the file name holds no `/`; it is the path's tail, preceded by a `/` when it is shorter than the path |
| `Cypher.SetProps` | src/services/neo4j_loader.py:67-95 | each property the SET lists takes its new value (null removes it); every other property is unchanged |
| `Cypher.SetPropsCompose` | src/services/neo4j_loader.py:67-95 | two SETs in a row are one SET of the combined list, the later value winning |
| `Cypher.SetPropsIdempotent` | src/services/neo4j_loader.py:67-95 | repeating a SET changes nothing |
| `Cypher.UpsertNode` | src/services/neo4j_loader.py:67-68 | MERGE adds the node when it is absent and changes only that node's properties |
| `Cypher.UpsertRel` | src/services/neo4j_loader.py:202-203 | MERGE of a relationship adds it when it is absent and changes only its properties |
| `Cypher.MatchMerge` | src/services/neo4j_loader.py:199-203 | the relationship is merged when both ends exist; otherwise the graph is unchanged and no error is raised |
| `Cypher.MatchMergeGuard` | src/services/neo4j_loader.py:160-168 | a guarded relationship is there afterwards exactly when it was there before or both its ends exist |
| `Cypher.ExecKeys` | src/services/neo4j_loader.py:98-102 | a statement leaves the nodes it found plus the ones it merges, and removes no relationship |
| `Cypher.ExecAllKeys` | src/services/neo4j_loader.py:64-106 | statements in sequence add exactly the nodes they merge and remove nothing |
| `Cypher.ExecAllWellFormed` | src/services/neo4j_loader.py:98-102 | no sequence of statements leaves a relationship whose ends are not both nodes of the graph |
| `Cypher.ExecAllFrame` | src/services/neo4j_loader.py:285-311 | statements confined to some labels and relationship types leave every other node and relationship as it was |
| `Cypher.ExecAllKeepsRel` | src/services/neo4j_loader.py:199-203 | a relationship that no later statement merges keeps its properties |
| `Cypher.ExecAllKeepsNode` | src/services/neo4j_loader.py:67-68 | a node that no statement merges keeps its presence and its properties |
| `Cypher.MatchMergeAll` | src/services/neo4j_loader.py:160-168 | a run of guarded merges leaves the nodes alone and adds exactly the relationships whose ends exist |
| `Cypher.NewRelHasEnds` | src/services/neo4j_loader.py:199-203 | a relationship that appears was merged by some statement, between nodes that were there or were merged |
| `Cypher.GuardedFrom` | src/services/neo4j_loader.py:160-168 | a link from a product to the record's own node appears exactly when it was there or the product exists |
| `Cypher.GuardedTo` | src/services/neo4j_loader.py:303-311 | a link from the record's own node to a product appears exactly when it was there or the product exists |
| `Cypher.LastMergeWins` | src/services/neo4j_loader.py:199-203 | the last statement that merges a relationship decides its properties |
| `Replay.ExecAllResolve` | src/services/neo4j_loader.py:64-106 | a statement sequence acts as the unconditional upserts it resolves to in the graph it starts from |
| `Replay.ApplySummary` | src/services/neo4j_loader.py:67-95 | a list of upserts acts as one combined SET per node and per relationship |
| `Replay.ApplyTwice` | src/services/neo4j_loader.py:67-95 | running a list of upserts twice leaves what running it once leaves |
| `Replay.ExecAllTwice` | src/services/neo4j_loader.py:64-106 | statements whose guards are settled by their own merges can be run twice with the effect of one run |
| `PlanLaws.DisplayedLinks` | src/services/neo4j_loader.py:160-168 | one guarded DISPLAYED_AT per listed model, in list order |
| `PlanLaws.TargetLinks` | src/services/neo4j_loader.py:303-311 | one guarded TARGETS_PRODUCT per target product, in list order |
| `PlanLaws.IncludesLinks` | src/services/neo4j_loader.py:193-208 | a sale's product entries send only INCLUDES_PRODUCT links from the sale |
| `PlanLaws.DeployLinks` | src/services/neo4j_loader.py:238-265 | an event's models send only DEPLOYED_AT links to the event |
| `PlanLaws.ProductsWithin` | src/services/neo4j_loader.py:64-106 | loading products touches only Product and BatteryType nodes and USES_BATTERY |
| `PlanLaws.EventsWithin` | src/services/neo4j_loader.py:137-265 | loading events touches only TradeShow, Sale and Event nodes and their four relationship types |
| `PlanLaws.ProjectsWithin` | src/services/neo4j_loader.py:285-311 | loading R&D projects touches only RDProject nodes and TARGETS_PRODUCT |
| `PlanLaws.ProductsFrame` | src/services/neo4j_loader.py:64-106 | loading products leaves every other node and relationship as it was |
| `PlanLaws.EventsFrame` | src/services/neo4j_loader.py:137-265 | loading events leaves the rest of the graph as it was and creates no Product |
| `PlanLaws.ProjectsFrame` | src/services/neo4j_loader.py:285-311 | loading R&D projects changes only RDProject nodes and TARGETS_PRODUCT relationships, and creates no Product |
| `PlanLaws.ProductsTwice` | src/services/neo4j_loader.py:64-106 | loading the same products twice gives the graph one load gives |
| `PlanLaws.EventsTwice` | src/services/neo4j_loader.py:137-265 | loading the same events twice gives the graph one load gives, exceptions included |
| `PlanLaws.ProjectsTwice` | src/services/neo4j_loader.py:285-311 | loading the same R&D projects twice gives the graph one load gives |
| `RecordLaws.CustomerTypeFacts` | src/services/neo4j_loader.py:171 | the three customer types contain no `_` and have distinct lengths |
| `RecordLaws.LongerTypeDiffers` | src/services/neo4j_loader.py:175 | a sale id with a longer customer type without `_` differs from one with a shorter type |
| `RecordLaws.SaleIdInjective` | src/services/neo4j_loader.py:175 | equal sale ids have the same event id and the same customer type |
| `RecordLaws.IncludeItemSpec` | src/services/neo4j_loader.py:193-208 | a sale entry without exactly one `" x"` adds nothing; with one, it links the product with `int(count)`, or raises `ValueError` |
| `RecordLaws.DeployItemSpec` | src/services/neo4j_loader.py:238-265 | an event entry without exactly one `" x"` deploys the whole string with quantity 1; with one, it deploys the id with `int(count)`, or raises |
| `RecordLaws.IncludeExample` | src/services/neo4j_loader.py:193-208 | `"PG-M01 x3"` becomes INCLUDES_PRODUCT to PG-M01 with quantity 3 |
| `RecordLaws.IncludeSkipExample` | src/services/neo4j_loader.py:196 | the bare entry `"PG-M01"` adds nothing to a sale |
| `RecordLaws.IncludeRaiseExample` | src/services/neo4j_loader.py:198 | `"PG-M01 xthree"` raises `ValueError`; it is not skipped |
| `RecordLaws.DeployExample` | src/services/neo4j_loader.py:238-253 | `"PG-U01 x2"` deploys PG-U01 with quantity 2 |
| `RecordLaws.DeployBareExample` | src/services/neo4j_loader.py:254-265 | the bare `"PG-U01"` deploys PG-U01 with quantity 1 |
| `RecordLaws.SalePlanCreated` | src/services/neo4j_loader.py:172-190 | a customer type merges its Sale node exactly when its units are positive |
| `RecordLaws.SalesCreated` | src/services/neo4j_loader.py:171-190 | the customer-type loop merges exactly the Sale nodes of the types with positive units |
| `RecordLaws.TradeShowCreated` | src/services/neo4j_loader.py:139-208 | a trade show merges its own node and the Sales of its positive-unit customer types, and no other node |
| `RecordLaws.SaleGate` | src/services/neo4j_loader.py:171-190 | a Sale exists afterwards exactly when it existed before or its customer type had positive units |
| `RecordLaws.SaleStmtIn` | src/services/neo4j_loader.py:173-190 | a positive-unit customer type has a parsing `total_revenue`, and its Sale MERGE is among the statements |
| `RecordLaws.SaleIndex` | src/services/neo4j_loader.py:141-190 | a trade show's statements open with its own MERGE, and its Sale statement comes later |
| `PlanLaws.TradeShowStmts` | src/services/neo4j_loader.py:139-190 | a trade show sends its MERGE, then its DISPLAYED_AT links, then its sales, and raises what its sales raise |
| `RecordLaws.SaleLinked` | src/services/neo4j_loader.py:176-183 | every Sale created is linked SOLD_AT to its trade show |
| `RecordLaws.ProductCreated` | src/services/neo4j_loader.py:67-106 | a product's statements merge exactly its own node and its battery type |
| `RecordLaws.ProductStep` | src/services/neo4j_loader.py:67-106 | after one product: its node takes the twelve mapped properties, its battery type exists, USES_BATTERY links them, and no relationship is lost |
| `RecordLaws.ProductsLinked` | src/services/neo4j_loader.py:97-106 | after loading products, every product, its battery type and USES_BATTERY between them exist |
| `RecordLaws.ProductsCreated` | src/services/neo4j_loader.py:65-95 | every Product node that loading creates belongs to some record |
| `RecordLaws.ProductOverwrites` | src/services/neo4j_loader.py:67-95 | a product's node carries every mapped property of the last record with its id |
| `RecordLaws.EventLoaded` | src/services/neo4j_loader.py:215-235 | a powered event's node is merged with all its properties whatever its deployments do; a missing `attendees` is stored as `"N/A"` |
| `RecordLaws.ProjectLoaded` | src/services/neo4j_loader.py:288-300 | a project's node is merged with all its properties; a missing `projected_annual_savings` is stored as `"N/A"` |
| `RecordLaws.DisplayedStmtAt` | src/services/neo4j_loader.py:160-168 | a trade show's displayed models follow its MERGE, in order |
| `RecordLaws.DisplayedGuard` | src/services/neo4j_loader.py:160-168 | DISPLAYED_AT from a listed model is there afterwards exactly when it was there or the Product exists |
| `RecordLaws.TargetGuard` | src/services/neo4j_loader.py:303-311 | TARGETS_PRODUCT to a listed product is there afterwards exactly when it was there or the Product exists |
| `RecordLaws.DeployItemOk` | src/services/neo4j_loader.py:238-265 | an entry that does not raise sends exactly one DEPLOYED_AT merge, at its parsed quantity |
| `RecordLaws.DeployShape` | src/services/neo4j_loader.py:238-265 | without an exception, the models send one DEPLOYED_AT merge each, in list order |
| `RecordLaws.DeployGuard` | src/services/neo4j_loader.py:244-265 | an entry whose earlier entries parsed has its DEPLOYED_AT there afterwards exactly when it was there or the Product exists |
| `RecordLaws.DeployListLastWins` | src/services/neo4j_loader.py:244-265 | when the entries before it raise nothing and no later entry with a quantity names its product, an entry's DEPLOYED_AT carries that entry's quantity, whatever later entries raise |
| `RecordLaws.DeployLastWins` | src/services/neo4j_loader.py:238-265 | across an event: a repeated product keeps the last quantity listed once the entries up to that one raise nothing, whatever later entries raise |
| `RecordLaws.IncludesAbsorb` | src/services/neo4j_loader.py:193-198 | once an entry raises, the entries after it send nothing |
| `RecordLaws.DeployAbsorb` | src/services/neo4j_loader.py:238-243 | once a model entry raises, the entries after it send nothing |
| `RecordLaws.SalesAbsorb` | src/services/neo4j_loader.py:171-190 | once a customer type raises, the later types send nothing |
| `RecordLaws.TradeShowsAbsorb` | src/services/neo4j_loader.py:139-208 | once a trade show raises, the later ones send nothing |
| `RecordLaws.PoweredEventsAbsorb` | src/services/neo4j_loader.py:213-265 | once a powered event raises, the later ones send nothing |
| `RecordLaws.IncludeItemStmts` | src/services/neo4j_loader.py:193-208 | an entry sends its link when it has a quantity, and nothing otherwise |
| `RecordLaws.IncludesNoRel` | src/services/neo4j_loader.py:193-208 | entries that do not name a product never merge that product's INCLUDES_PRODUCT |
| `RecordLaws.DeploysNoRel` | src/services/neo4j_loader.py:238-265 | entries with a quantity that do not name a product never merge that product's DEPLOYED_AT |
| `PlanLaws.SaleStmts` | src/services/neo4j_loader.py:176-208 | a sale that runs is its MERGE followed by its INCLUDES_PRODUCT links |
| `RecordLaws.IncludeGuard` | src/services/neo4j_loader.py:199-208 | an INCLUDES_PRODUCT whose earlier entries parsed is there afterwards exactly when it was there or the Product exists |
| `RecordLaws.SalePlanCreatedAny` | src/services/neo4j_loader.py:172-208 | a customer type merges at most its own Sale node, whatever it raises |
| `RecordLaws.IncludeLastWins` | src/services/neo4j_loader.py:193-208 | a product listed twice in a sale keeps the last quantity listed |
| `RecordLaws.SetQuantity` | src/services/neo4j_loader.py:203 | `SET r.quantity = q` leaves quantity q, whatever was there before |
| `Loader.StagesCount` | src/services/neo4j_loader.py:368-382 | `load_all` completes exactly when no loader raises; then the counter is the number of loaders that returned True, at most the number of loaders |
| `Loader.StagesAbort` | src/services/neo4j_loader.py:368-382 | the first loader that raises ends `load_all`; the loaders after it do not run |
| `Loader.LoadAllReport` | src/services/neo4j_loader.py:361-382 | `load_all` aborts exactly when `load_events` raises; otherwise it counts the four loaders that return True, between 0 and 4 |
| `Loader.LoadAllNothing` | src/services/neo4j_loader.py:384-389 | `files_loaded` is 0 exactly when every loader returned False |
| `Loader.ImageLoaded` | src/services/neo4j_loader.py:316-359 | an image loads exactly when it exists and its analysis returns at least one page; it is keyed by its file name and stores its path and the newline-joined pages |
| `Loader.Neo4jLoader.constructor` | src/services/neo4j_loader.py:11-15 | the loader starts on the graph the database holds |
| `Loader.Neo4jLoader.Run` | src/services/neo4j_loader.py:23 | one `session.run` changes the graph by that one statement |
| `Loader.Neo4jLoader.ClearDatabase` | src/services/neo4j_loader.py:20-24 | the graph is empty afterwards |
| `Loader.Neo4jLoader.LoadProduct` | src/services/neo4j_loader.py:66-106 | the graph after one record is the one its Product and BatteryType statements leave |
| `Loader.Neo4jLoader.LoadProducts` | src/services/neo4j_loader.py:49-109 | the graph is the one left by each product's statements, in file order; the result is False exactly when no file can be read |
| `Loader.Neo4jLoader.LoadDisplayed` | src/services/neo4j_loader.py:160-168 | the graph is the one the DISPLAYED_AT loop's statements leave |
| `Loader.Neo4jLoader.LoadIncludes` | src/services/neo4j_loader.py:193-208 | the graph is the one a sale's product entries leave, and the exception returned is the one they raise |
| `Loader.Neo4jLoader.LoadSale` | src/services/neo4j_loader.py:172-208 | the graph and the exception are those of one customer type's statements |
| `Loader.Neo4jLoader.LoadSales` | src/services/neo4j_loader.py:171-208 | the graph and the exception are those of the three customer types in order |
| `Loader.Neo4jLoader.LoadTradeShow` | src/services/neo4j_loader.py:139-208 | the graph and the exception are those of one trade show's statements |
| `Loader.Neo4jLoader.LoadTradeShows` | src/services/neo4j_loader.py:139-208 | the graph and the exception are those of every trade show's statements, in order |
| `Loader.Neo4jLoader.LoadDeployments` | src/services/neo4j_loader.py:238-265 | the graph and the exception are those of an event's model entries |
| `Loader.Neo4jLoader.LoadPoweredEvent` | src/services/neo4j_loader.py:213-265 | the graph and the exception are those of one powered event's statements |
| `Loader.Neo4jLoader.LoadPoweredEvents` | src/services/neo4j_loader.py:213-265 | the graph and the exception are those of every powered event, in order |
| `Loader.Neo4jLoader.LoadEvents` | src/services/neo4j_loader.py:122-268 | the graph is the one the trade-show and powered-event loops leave; the outcome is False without a readable file, an escaping exception if one is raised, and True otherwise |
| `Loader.Neo4jLoader.LoadTargets` | src/services/neo4j_loader.py:303-311 | the graph is the one the TARGETS_PRODUCT loop's statements leave |
| `Loader.Neo4jLoader.LoadProject` | src/services/neo4j_loader.py:286-311 | the graph is the one left by one project's MERGE and TARGETS_PRODUCT statements |
| `Loader.Neo4jLoader.LoadRdProjects` | src/services/neo4j_loader.py:270-314 | the graph is the one every project's statements leave, in file order; the result is False exactly when no file can be read |
| `Loader.Neo4jLoader.LoadImage` | src/services/neo4j_loader.py:316-359 | the graph gains the Image MERGE exactly when the image loads; the result says whether it did |
| `Loader.Neo4jLoader.LoadAll` | src/services/neo4j_loader.py:361-389 | the graph is the empty graph followed by every statement the four loaders send until one raises; the report is the counter, or the exception |

## Left out

- The Neo4j driver, sessions and `close` are not modelled. The graph is a value
  held by the class, and each `session.run` commits at once.
- `create_indexes` is left out. Indexes do not change the graph's contents.
- `verify_data` and all `print` output are left out. They only report.
- Image analysis (`PixtralPDFProcessor`) is left out. It is the given list of
  pages for each image. An image with no entry stands for an analysis that
  raised, which `load_image` catches.
- `i.analyzed_at = datetime()` is not modelled. It is a clock reading.
- Database errors inside `load_image`, which it also catches, are left out.
- File reading, `json.load`, `load_dotenv` and environment variables are left
  out. A file that cannot be opened or parsed makes the loader return False.
  A file that parses is a given `Document`, whose top level is an object and
  whose lists are lists.
- A JSON top level that is not an object, or a `null` list value, is not
  modelled. Either raises outside the `try` (`data.get` at
  src/services/neo4j_loader.py:65, :139 and :286, or `for … in None` there and
  at :213), and the error escapes the loader.
- Record fields have fixed types. `product_id`, `event_id`, `project_id`,
  `battery_type` and every entry of `products` and `models_used` are strings.
  `units` is an integer or absent. Values of other types are outside the
  model. Examples are `units: null`, which raises a `TypeError` at :173;
  `units: 2.5` or `true`, which create a Sale; a numeric `event_id`, which
  gives an integer TradeShow key but a string sale id (:175); and a non-string
  entry in `products` or `models_used`, which raises at :195 or :240.
- `glob` matching is left out. What each pattern returns is given, in the order
  it is returned.
- A required key that is missing from a record (a `KeyError` on `record["key"]`)
  is not representable: the records are typed. The exception is
  `sales["total_revenue"]`, which is read only when units are positive and is
  modelled.
- `Text.ParseFloat`: `float()` is modelled over decimal notation with an
  optional exponent and single underscores. It does not model `inf`/`nan`,
  IEEE rounding or the double range. It is exact on rationals.
- `Text.IsSpace`: whitespace is the ASCII part of Python's `str.isspace()`.
  Unicode spaces are not modelled.
- JSON integers are unbounded, as Python's are. JSON floats are exact
  rationals, not IEEE doubles.
- `Normalize.ParseRevenue`: a numeric revenue becomes `i as real`. For an
  integer too large for a double, `float()` raises an uncaught
  `OverflowError` at src/services/neo4j_loader.py:114, which is not modelled.
- `Text.IsDigit`: digits are ASCII. Python's `int()` and `float()` also accept
  other Unicode decimal digits, which are not modelled.
- `Loader.LoadAllReport`: it states which exceptions can escape on well-typed
  records. Errors raised by the database itself, which would also escape, are
  not modelled.
