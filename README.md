# Dimensional transformation of the sales warehouse

This project models the transformation step of a small sales ETL
(`ETL/transform.py`) in Dafny and proves properties of that model. The step
takes the raw relational tables and builds a star schema from them:

- **dim_calendar** holds every day from the earliest to the latest date found
  in nine timestamp columns of the raw data. Each day gets a surrogate key and
  its calendar attributes: day, month, year, English day and month names,
  quarter, ISO 8601 week number, a `YYYY-MM` label and a weekend flag.
- **Five entity dimensions** (customer, channel, address, product, store) are
  denormalised with left merges, sorted by their natural key and numbered 1..N.
- **Six fact tables** (sales order, sales order item, payment, shipment, web
  session, NPS response) are built as follows:
  - where needed, the fact is left-merged with its order header;
  - each timestamp is resolved to a calendar surrogate key and an
    `HH:MM:SS` time;
  - a missing relational key is replaced by `-1`;
  - the shipment lead time is derived in days.
- **transform_all_data** builds all twelve tables, calendar first, and returns
  them in a dictionary. It returns None when there is no input. In this
  model the dictionary's dim_product is the corrected product dimension
  described under Findings, not the one the code's text merge produces.

How the model represents the data:

- Tables are sequences of records and nullable cells are `Option`s.
- A timestamp is a day number plus the nanoseconds since midnight, restricted
  to pandas' nanosecond range.
- Timestamp parsing (`pd.to_datetime(..., errors='coerce')`) is a parameter
  `parse: string -> Option<Timestamp>`.
- pandas' left merge is `Relational.LeftJoin`. It keeps the left order, repeats
  a left row once per matching right row, and keeps an unmatched left row with
  no match.
- "Sort by the natural key, then number" is `Relational.BuildDimension`.

Modules, one per file: `Nullable`, `Text` (decimal rendering), `Civil`
(Gregorian calendar, ISO week, `YYYY-MM` and `HH:MM:SS`), `Relational`
(columns, left merge, lookup, sort-and-number), `Source` (raw records),
`Warehouse` (output rows and tables), `KeyResolution` (`_get_date_id`,
`_get_time`), `CalendarDimension`, `Dimensions`, `Facts` and `Transform`.

## Model

| member | source | states |
|---|---|---|
| KeyResolution.NormalizedDay | ETL/transform.py:28 | `.dt.normalize()` of a parsed cell: it has a day exactly when the cell parses, and that day is the timestamp's own day |
| KeyResolution.DateIdColumn | ETL/transform.py:28-40 | the left merge with the calendar yields at least one key per input value; with distinct calendar dates, exactly one per value in input order, and each is the id of the calendar row dated that value's day, or null when the value does not parse or no row carries that date |
| KeyResolution.FoundIdResolves | ETL/transform.py:33-40 | the id the lookup takes from the matched calendar row is the key that value must resolve to |
| KeyResolution.ResolutionIsUnique | ETL/transform.py:33-40 | with distinct calendar dates a value has only one possible key |
| KeyResolution.ClockText | ETL/transform.py:54-55 | one `strftime('%H:%M:%S')` cell: 8 characters that read back as the timestamp's second of the day, or `00:00:00` for NaT |
| KeyResolution.TimeColumn | ETL/transform.py:54-55 | one time per input value, in order; a parseable value's time reads back as its second of the day; a null or unparseable value gets exactly `00:00:00` |
| Civil.SecondOfDay | ETL/transform.py:55 | the whole seconds since midnight lie in 0..86399 and bracket the timestamp's nanoseconds |
| Civil.CivilFromDays | ETL/transform.py:104-106 | every day number converts to a valid Gregorian date: month 1..12 and a day within that month's length; Civil.EpochAnchor fixes which date |
| Civil.EpochAnchor | ETL/transform.py:104-106 | day 0 is 1 January 1970 in both directions, so the round trips pin the pandas day numbering rather than a shifted one |
| Civil.DaysFromCivilRoundTrip | ETL/transform.py:104-106 | converting a day number to day/month/year and back returns the same day number |
| Civil.CivilFromDaysRoundTrip | ETL/transform.py:104-106 | converting a valid date to a day number and back returns the same date |
| Civil.YearOfTimestampDay | ETL/transform.py:106 | every day a pandas timestamp can hold lies in a year from 1600 to 2400, so `%Y` has four digits |
| Civil.Quarter | ETL/transform.py:109 | the quarter is 1..4 and contains the month |
| Civil.IsoWeekday | ETL/transform.py:107 | the ISO weekday is 1 (Monday) to 7 (Sunday); Civil.WeekdayAnchor and Civil.IsoWeekdayNext fix which day is which |
| Civil.WeekdayAnchor | ETL/transform.py:107-112 | day 0 is a Thursday (weekday 4), 1 January 2024 is day 19723 and a Monday, and 6 January 2024 is a Saturday |
| Civil.IsoWeekdayNext | ETL/transform.py:107 | each day's ISO weekday is the previous day's plus one, Sunday (7) wrapping to Monday (1) |
| Civil.DayOfYear | ETL/transform.py:110 | the ordinal day lies in 1..366 |
| Civil.DayOfYearCountsFromJanuaryFirst | ETL/transform.py:110 | the ordinal day counts from 1 January of the day's year |
| Civil.IsoWeek | ETL/transform.py:110 | the ISO week number lies in 1..53 |
| Civil.IsoWeekIsThursdayRank | ETL/transform.py:110 | the ISO week is the rank of the week's Thursday among the Thursdays of that Thursday's year (ISO 8601 week calendar) |
| Civil.JanuaryFourthInWeekOne | ETL/transform.py:110 | 4 January always lies in ISO week 1 |
| Civil.IsoWeekConstantWithinWeek | ETL/transform.py:110 | Monday to Sunday of one week share one ISO week number |
| Civil.YearMonthRoundTrip | ETL/transform.py:111 | the `YYYY-MM` label has 7 characters and reads back as its year and month |
| Civil.ClockRoundTrip | ETL/transform.py:55 | the `HH:MM:SS` text has 8 characters and reads back as its second of the day |
| Civil.WeekendIffSaturdayOrSunday | ETL/transform.py:112 | the day name is Saturday or Sunday exactly when the ISO weekday is 6 or 7 |
| CalendarDimension.CollectDays | ETL/transform.py:76-88 | concat + dropna + normalize: the day of every cell that parses is collected, and every collected day lies in the timestamp range |
| CalendarDimension.DayComesFromCell | ETL/transform.py:76-88 | conversely, every collected day is the day of some cell that parses |
| CalendarDimension.NoDaysIffNoneParse | ETL/transform.py:76-93 | no day is collected exactly when no cell parses, the condition of the empty-calendar branch |
| CalendarDimension.CalendarRowOf | ETL/transform.py:102-116 | the row built for a day carries that day as its date and the given id |
| CalendarDimension.TabulateAt | ETL/transform.py:100-116 | the rows built one day at a time hold, at position i, the element built for i |
| CalendarDimension.CalendarOfDaysRow | ETL/transform.py:100-116 | row i of the calendar of some days is the row built for day min + i, numbered i + 1 |
| CalendarDimension.CalendarRowsWellFormed | ETL/transform.py:100-116 | every row of dim_calendar holds the attributes of its own date, in the sense of CalendarRowOfWellFormed |
| CalendarDimension.CalendarRowOfWellFormed | ETL/transform.py:104-112 | the row's day/month/year name its own date, its day and month names, quarter and ISO week are those of that date, `year_month` reads back as year and month, and `is_weekend` holds exactly for Saturday and Sunday |
| CalendarDimension.CalendarOfDays | ETL/transform.py:90-116 | no days give no rows; otherwise max - min + 1 rows, row i dated min + i with id i + 1 |
| CalendarDimension.EmptyCalendarShape | ETL/transform.py:90-93 | when no collected value parses, the calendar has zero rows and exactly the eleven columns `id, date, ..., is_weekend` |
| CalendarDimension.CalendarIsConsecutive | ETL/transform.py:100-116 | rows are consecutive days: ids and dates ascend together, one day per row, no gaps |
| CalendarDimension.CalendarDatesUnique | ETL/transform.py:100 | no two calendar rows share a date |
| CalendarDimension.CalendarSpan | ETL/transform.py:96-100 | the first and last rows are the earliest and latest collected days, and a day has a row exactly when it lies between them |
| CalendarDimension.ConsecutiveSpan | ETL/transform.py:96-100 | a table numbered 1.. whose dates run one by one from lo to hi starts at lo, ends at hi, has a row for a day exactly when the day lies in lo..hi, and that row's id is the day's offset from lo plus one |
| CalendarDimension.CollectedDayHasRow | ETL/transform.py:76-116 | every collected day that parses has exactly one row, whose id is its offset from the earliest day plus one |
| CalendarDimension.SameDateSameRow | ETL/transform.py:100 | in a table with distinct dates, two rows with one date are the same row |
| Relational.LeftJoin | ETL/transform.py:209 | the merge keeps every left row, each paired with a right row of the same key, or unmatched only when no right row has that key |
| Relational.LeftJoinAppend | ETL/transform.py:209 | the merge works in left order: merging a concatenation of left tables is concatenating their merges |
| Relational.LeftJoinOfOne | ETL/transform.py:209 | one left row alone yields exactly its block of merged rows |
| Relational.JoinRowLength | ETL/transform.py:209 | a left row's block has one merged row per matching right row, or one unmatched row when nothing matches |
| Relational.MatchesCountsEveryMatch | ETL/transform.py:209 | the matching right rows are taken as often as the right table holds them, and no others |
| Relational.LeftJoinKeepsEveryMatch | ETL/transform.py:209 | no matching pair is dropped: each left row appears with each right row of its key |
| Relational.LeftJoinOneToOne | ETL/transform.py:209 | with distinct right keys the merge has one row per left row, in order, paired with the right row that key finds |
| Relational.JoinedColumn | ETL/transform.py:209-221 | with distinct right keys, a column projected from the merge has one entry per left row, computed from that row and its match |
| Relational.SortBy | ETL/transform.py:147 | the sort yields the same rows (a permutation) in ascending key order |
| Relational.BuildDimension | ETL/transform.py:147-150 | sort then number: the dimension holds the input rows (as a multiset), in ascending natural-key order, with ids 1..N by position |
| Relational.DimensionRowsAreInputRows | ETL/transform.py:147-150 | a row is in the dimension exactly when it is among the input rows |
| Relational.SurrogateKeyIsRank | ETL/transform.py:147-150 | with distinct natural keys, a row's surrogate id is one plus the number of rows with a smaller natural key |
| Relational.DimensionOfTwo | ETL/transform.py:147-150 | two rows listed against key order are numbered in key order |
| Relational.SingleRowDimension | ETL/transform.py:147-150 | a dimension over one row is that row with id 1 |
| Dimensions.CreateDimCustomer | ETL/transform.py:138-153 | dim_customer is the sort-and-number dimension of the renamed customer columns |
| Dimensions.CustomerKeysFollowNaturalOrder | ETL/transform.py:147-150 | customers listed with keys 2 then 1 get id 1 for key 1 and id 2 for key 2 |
| Dimensions.CreateDimChannel | ETL/transform.py:171-183 | dim_channel is the sort-and-number dimension of the renamed channel columns |
| Dimensions.CreateDimAddress | ETL/transform.py:204-229 | dim_address is the sort-and-number dimension of the addresses merged with their province |
| Dimensions.AddressRowsDenormalise | ETL/transform.py:209-221 | with distinct province ids, row i before sorting is address i with the name and code of the province its province_id names, null when none does |
| Dimensions.AddressRowsKeepEveryAddress | ETL/transform.py:209 | whatever the provinces, every address keeps a row with its own key |
| Dimensions.CreateDimStore | ETL/transform.py:326-358 | dim_store is the sort-and-number dimension of the stores merged with their address and then its province |
| Dimensions.StoreRowsDenormalise | ETL/transform.py:332-349 | with distinct address and province ids, one row per store in store order, carrying the store's own name, its address's line, city, codes and created_at, and the province name and code |
| Dimensions.CreateDimProduct | ETL/transform.py:250-304 | dim_product, with the merges on the integer ids, is the sort-and-number dimension of the product rows |
| Dimensions.Label | ETL/transform.py:294-295 | `fillna('Sin Categoría')`: a missing name becomes the label; a present one is kept |
| Dimensions.ExpectedProduct | ETL/transform.py:265-295 | a product whose category is not found gets the label for both category and parent category name |
| Dimensions.EnrichedCategoriesByRow | ETL/transform.py:259-271 | with distinct category ids, the self-merge holds each category once, in order, with the name of its parent |
| Dimensions.FindEnrichedCategory | ETL/transform.py:275-281 | a category id finds an enriched category exactly when it finds a category, with the same name and parent name |
| Dimensions.ProductRowsDenormalise | ETL/transform.py:265-295 | with distinct category ids, one row per product in product order; category and parent names come from the matched category and its parent, and each is "Sin Categoría" when missing |
| Dimensions.AsText | ETL/transform.py:254-256 | `astype(str)` of an id column: int texts when no id is null; otherwise `<int>.0` texts and `nan` |
| Dimensions.CreateDimProductAsWritten | ETL/transform.py:250-304 | dim_product as written is the sort-and-number dimension of the rows merged on those texts |
| Dimensions.FloatTextIsNotIntText | ETL/transform.py:254-256 | a `<int>.0` text or `nan` never equals an int text |
| Dimensions.TextSelfMergeFindsNoParent | ETL/transform.py:254-271 | as written, once one category is a root, the self-merge finds no parent for any category |
| Dimensions.AsWrittenLosesParentNames | ETL/transform.py:254-295 | as written, one root category makes every product's parent_category_name "Sin Categoría" |
| Dimensions.AsWrittenLosesCategoryNames | ETL/transform.py:254-295 | as written, one product with a null category_id makes every product's category and parent names "Sin Categoría" |
| Dimensions.ParentNameCounterexample | ETL/transform.py:254-295 | a phone in "Celulares" under root "Electrónica": as written the parent name is lost; with the integer merge its one row names "Electrónica" |
| Facts.Sentinel | ETL/transform.py:391-393 | `fillna(-1).astype(int)`: a present key is kept, a missing one becomes -1, and for non-negative ids -1 marks exactly the missing ones |
| Facts.CreateFactSalesOrder | ETL/transform.py:381-402 | one row per order, in order: order id as `id`, customer and channel as they are, -1 for a missing store or address, the order's time of day, status and amounts passed through; with distinct calendar dates order_date_id resolves the order's day |
| Facts.SalesOrderItemFacts | ETL/transform.py:429-449 | one item fact per merged row, with the header's customer, channel and store and the item's product each defaulted to -1, and the header's order date resolved |
| Facts.CreateFactSalesOrderItem | ETL/transform.py:429 | the merge with the order headers gives at least one fact per item |
| Facts.SalesOrderItemFactsKeepEveryItem | ETL/transform.py:429-449 | the merge never drops an item: each item has a fact agreeing with it and with its own order as header, or with no header when no order has its id |
| Facts.SalesOrderItemFactsFollowItems | ETL/transform.py:423-449 | with distinct order ids, one fact per item in item order, each carrying its own order's header keys (-1 where missing) and order date key |
| Facts.OrphanItemGetsSentinels | ETL/transform.py:429-441 | an item whose order is missing keeps its row with -1 for customer, channel and store and no order date key |
| Facts.PaymentFacts | ETL/transform.py:476-498 | one payment fact per merged row, with the header's customer, billing address, channel and store each defaulted to -1 and the payment's date and time resolved |
| Facts.CreateFactPayment | ETL/transform.py:476 | the merge with the order headers gives at least one fact per payment |
| Facts.PaymentFactsKeepEveryPayment | ETL/transform.py:476-498 | the merge never drops a payment: each payment has a fact agreeing with it and with its own order as header, or with no header when no order has its id |
| Facts.PaymentFactsFollowPayments | ETL/transform.py:470-498 | with distinct order ids, one fact per payment in payment order, each with its order's header keys (-1 where missing) and paid_at date key and time |
| Facts.LeadDays | ETL/transform.py:543 | `(delivered_at - shipped_at).dt.days`: null exactly when either end is missing; otherwise the floor of the elapsed time in days, never negative when delivery is not earlier than shipment |
| Facts.LeadDaysCountsWholeDays | ETL/transform.py:543 | the lead time is the difference of the two days, less one when the delivery's time of day is earlier than the shipment's |
| Facts.ShipmentFacts | ETL/transform.py:525-558 | one shipment fact per merged row, with the header's customer, shipping address and channel each defaulted to -1, both timestamps resolved and the lead time in days |
| Facts.CreateFactShipment | ETL/transform.py:525 | the merge with the order headers gives at least one fact per shipment |
| Facts.ShipmentFactsKeepEveryShipment | ETL/transform.py:525-558 | the merge never drops a shipment: each shipment has a fact agreeing with it and with its own order as header, or with no header when no order has its id |
| Facts.ShipmentFactsFollowShipments | ETL/transform.py:519-558 | with distinct order ids, one fact per shipment in shipment order, each with its order's header keys, both date keys and times, and its lead time |
| Facts.CreateFactWebSession | ETL/transform.py:576-598 | one row per session, in order: session id as `id`, -1 for a missing customer, both times, source and device passed through, both date keys resolved |
| Facts.CreateFactNpsResponse | ETL/transform.py:616-635 | one row per response, in order: response id as `id`, -1 for a missing customer or channel, time and score, date key resolved |
| Transform.Assemble | ETL/transform.py:663-688 | the dictionary has exactly the twelve table names, each holding its table |
| Transform.WarehouseTables | ETL/transform.py:668-688 | the dictionary holds the twelve tables, with the facts resolved against the calendar it holds |
| Transform.TransformAllData | ETL/transform.py:656-691 | None exactly for None input; otherwise the dictionary filled table by table, with exactly the twelve names (dim_product being the corrected merge) |
| Transform.ResolvedKeyInCalendar | ETL/transform.py:680-688 | every date key that resolves against the built calendar is a valid calendar id, 1..number of rows |
| Transform.CollectedValueResolves | ETL/transform.py:76-116 | a value of the nine collected columns resolves exactly when it parses, to the row of its day |
| Transform.CollectedKeyNamesItsDay | ETL/transform.py:28-40 | a key looked up for one of the collected values is set exactly when the value parses, and then is the id of the calendar row of its day |
| Transform.OrderDateAlwaysResolves | ETL/transform.py:387 | every order's order_date_id is set exactly when its order_date parses, and then names the calendar row of that day |
| Transform.StartedAtAlwaysResolves | ETL/transform.py:582 | every session's started_at_date_id is set exactly when started_at parses, and then names the calendar row of that day |
| Transform.PaidAtAlwaysResolves | ETL/transform.py:482 | every payment fact's paid_at_date_id is set exactly when its merged payment's paid_at parses, and then names the calendar row of that day |
| Transform.ShipmentDatesAlwaysResolve | ETL/transform.py:535-536 | every shipment fact's shipped_at_date_id and delivered_at_date_id are set exactly when the matching timestamp parses, and then name the calendar row of that day |
| Transform.RespondedAtAlwaysResolves | ETL/transform.py:622 | every response's responded_at_date_id is set exactly when responded_at parses, and then names the calendar row of that day |
| Transform.EndedAtResolvesWithinSpan | ETL/transform.py:583 | ended_at is not a collected column: its key is set exactly when it parses and its day lies within the calendar's span |

## Left out

- I/O is not modelled: the `print` logging, reading the CSVs (`ETL/extract.py`), writing them (`ETL/load.py`) and the driver script. Missing input is the `None` argument of `TransformAllData`.
- How `pd.to_datetime` parses text is a parameter, `parse`. The model fixes the English locale for day and month names.
- `parse` is one function of the text, shared by every column. pandas 2 infers one format per column from that column's first non-null value, so the same text can parse differently in two columns (for example order_date in the orders and in the merged item rows). The model does not capture that per-column inference.
- Primary keys (order_id, payment_id, and so on) are assumed never null; the raw records give them as plain integers.
- Transform.WarehouseTables: dim_product in the dictionary is the corrected Dimensions.CreateDimProduct, merged on the integer ids, not Dimensions.CreateDimProductAsWritten, which merges on the `astype(str)` texts as the code does. The two differ as soon as one category is a root or one product has no category (see ## Findings).
- Monetary measures, statuses and other carried-through cells are opaque `Cell`s, passed through verbatim.
- Relational.SortBy: pandas' default `sort_values` is not stable, so rows with equal natural keys may come out in another order. The model sorts stably, and its contracts do not depend on the order of ties.
- Natural keys are integers. The fact builders cast these id columns with `astype(int)`, so text keys (such as "C1") are outside the model.
- Column assignment in pandas aligns on the index. The model assumes the default `RangeIndex` of `read_csv`: fact row i takes entry i of the looked-up column. Where the calendar had duplicate dates the merge could grow, but the calendar built here never has them.
- pandas' checks of merge key dtypes, and errors from a missing column, are not modelled.
- Facts.LeadDays: pandas rejects a `Timedelta` beyond the int64 nanosecond range. Two timestamps can only be that far apart at the very ends of the range, and the model does not reproduce that error.
- Dimensions.AsText: ids of magnitude 1e16 or more, which Python's float `str` writes in exponent form, are not modelled.
- Facts.CreateFactShipment: the lead time is the floor of the elapsed time between the two full timestamps, as the code computes it. A plain difference of the two dates would differ when delivery happens earlier in its day than shipment did.
- dim_store's `created_at` is the address's `created_at`, because the store table carries none.
- fact_sales_order keeps customer_id and channel_id nullable, because the code applies the `-1` default only to the store and the two addresses.
- Transform.WarehouseTables: its own ensures names only the calendar and fact_sales_order entries. The other ten are stated by Transform.Assemble.

## Findings

| source | as written | input that shows it | evidently intended | confidence | as-written member | corrected member |
|---|---|---|---|---|---|---|
| ETL/transform.py:254-271 | `parent_id.astype(str)` on a column holding a null (any root category) writes `1.0` and `nan`, while the never-null `category_id` writes `1`; the self-merge then never matches | categories (1, "Electrónica", root) and (2, "Celulares", parent 1); product 10 in category 2 | parent_category_name "Electrónica", merging on the integer ids | high, not executed | Dimensions.AsWrittenLosesParentNames, Dimensions.ParentNameCounterexample | Dimensions.ProductRowsDenormalise, Dimensions.CreateDimProduct |
| ETL/transform.py:254-281 | `category_id.astype(str)` on the product table writes `2.0` as soon as one product has a null category, which never equals the category table's `2` | products (10, category 2) and (11, no category); any categories | product 10 named with its category | high, not executed | Dimensions.AsWrittenLosesCategoryNames | Dimensions.ProductRowsDenormalise, Dimensions.CreateDimProduct |
