# Agency cross-sell analysis: classification and aggregation core

This project models the data-processing part of the agency cross-sell tool (`app.py`). It starts from a parsed spreadsheet: header labels and rows of string cells. It then:

- normalises the headers (stripping, then renaming aliases to five canonical column names);
- stops when a required column is missing;
- keeps only Homeowners, Private Passenger Auto and Mobile Homeowners rows;
- classifies every customer as Monoline or Cross-Sold at agency level (more than one distinct line of business) and at carrier level (some carrier holds more than one distinct line of business), writing both results into every row of that customer;
- summarises the classified rows per division.

It also models the decisions the report layer takes from those results: the row highlight, the carrier-level percentages, and the strategy tier of the summary text.

Modules, in data-flow order:

- `text.dfy` (`Text`): Python's `str.strip()` over the characters `str.isspace` accepts.
- `schema.dfy` (`Schema`): the column map and the header normalisation. `NormalizeColumns` is the nested loop with `break`, proved equal to the specification `NormalizeHeaders`. The lemmas state the rename rule for every header.
- `records.dfy` (`Records`): the row and classified-row datatypes.
- `lob_filter.dfy` (`LobFilter`): the line-of-business filter.
- `classifier.dfy` (`Classifier`): `classify`, `classify_carrier` and their broadcast.
- `aggregate.dfy` (`Aggregate`): the division summary as written, the per-customer summary, the selected-division counts and the guarded percentage.
- `report.dfy` (`Report`): highlight choice, the PDF highlight loop, carrier percentages and the strategy tier.
- `pipeline.dfy` (`Pipeline`): one load of a table, the required-column gate and end-to-end facts.

Percentages are exact reals (`part / total * 100`). Customer names, divisions, lines and carriers are compared as raw strings, exactly as the source compares them.

## Model

| member | source | states |
|---|---|---|
| Text.Strip | app.py:62 | the stripped header neither starts nor ends with whitespace, and the raw header is whitespace, then the result, then whitespace |
| Text.StripIdempotent | app.py:62 | stripping a stripped header changes nothing |
| Schema.FirstPresent | app.py:73-76 | the inner loop finds nothing iff no alias is among the headers; otherwise it finds an alias that is present, with no earlier alias in the list present |
| Schema.NormalizeColumns | app.py:62-76 | the strip followed by the outer loop over the column map and the inner loop with `break` yields exactly `NormalizeHeaders(raw)` |
| Schema.ColumnMapWellFormed | app.py:64-78 | each canonical name is the first alias in its own list; no header is an alias of two canonical columns; canonical names carry no surrounding whitespace |
| Schema.RequiredAreCanonical | app.py:64-78 | the required columns are the canonical names, in map order |
| Schema.HasRequiredIff | app.py:78-79 | the five membership tests hold iff every column of the required list is present |
| Schema.NormalizeHeadersAt | app.py:64-76 | every normalised header is its stripped raw header resolved by the rename rule: it becomes its column's canonical name iff it is the first present alias of that column, else it stays |
| Schema.RenamedToCanonicalIff | app.py:72-76 | a header becomes a column's canonical name iff it is an alias of that column and the first of its aliases present, so at most one alias per column is renamed |
| Schema.CanonicalPresentBlocksAliases | app.py:72-76 | when the canonical name is itself present, no other alias of that column is renamed |
| Schema.UnlistedHeaderKept | app.py:62-76 | a header in no alias list comes out stripped and otherwise unchanged |
| Schema.CanonicalPresentIff | app.py:72-76 | a canonical name is among the normalised headers iff one of its aliases was among the stripped headers |
| Schema.NormalizedTrimmed | app.py:62-76 | every normalised header is free of surrounding whitespace |
| Schema.NormalizeIdempotent | app.py:62-76 | normalising normalised headers changes nothing |
| Schema.CanonicalHeadersFixed | app.py:62-76 | headers that are all canonical names are left exactly as they are |
| Pipeline.RowOf | app.py:78-97 | each field of a row is the cell under the first header with that canonical name |
| Pipeline.IndexOf | app.py:82 | column access finds the first header with the given name |
| Pipeline.LoadTable | app.py:60-105 | normalising in place, gating, filtering, classifying and summarising step by step gives exactly `Load(t)` |
| Pipeline.GateIff | app.py:78-79 | all required columns are present after normalisation iff every canonical column had some alias among the stripped headers |
| Pipeline.LoadRejectsIff | app.py:78-81 | the load stops with no classification and no summary iff some canonical column had none of its aliases among the stripped headers |
| Pipeline.MissingPolicyNumberRejected | app.py:69-81 | a sheet without a "Policy Number" header is rejected before classification |
| Pipeline.LoadedFrame | app.py:82-105 | after a successful load the classified frame is the classification of exactly the allowed rows, every row has an allowed line, and the summary keys are the frame's divisions |
| Pipeline.UnlistedCustomerVanishes | app.py:82-124 | a customer whose rows all have other lines appears in no division's clients |
| LobFilter.FilterLob | app.py:82-84 | a row is kept iff it is an input row whose line is one of the three allowed strings; the output is no longer than the input |
| LobFilter.FilterLobAppend | app.py:82-84 | filtering keeps the rows' original order: the filter of a concatenation is the concatenation of the filters |
| LobFilter.FilterLobCounts | app.py:82-84 | every allowed row keeps its multiplicity and every other row is dropped |
| LobFilter.FilterLobIdempotent | app.py:82-84 | filtering a filtered frame changes nothing |
| Classifier.Classify | app.py:96-97 | rows and their order are kept; each row's two types are its customer's types over the whole filtered frame; rows of one customer share both values; carrier-level cross-sold implies agency-level cross-sold |
| Classifier.AgencyCrossSoldIff | app.py:86-88 | agency-level Cross-Sold iff two rows of the customer carry different lines of business |
| Classifier.CarrierCrossSoldIff | app.py:90-94 | carrier-level Cross-Sold iff two rows of the customer with the same carrier carry different lines of business |
| Classifier.CarrierImpliesAgency | app.py:86-97 | carrier-level Cross-Sold implies agency-level Cross-Sold |
| Classifier.MonolineHasOneLine | app.py:86-88 | a customer with rows is Monoline iff the customer has exactly one distinct line |
| Classifier.SameRowsSameTypes | app.py:86-97 | both types depend only on the set of rows: order and duplicate rows do not matter |
| Classifier.DuplicateRowIgnored | app.py:86-97 | appending a copy of a row appends a copy of its classified row and changes no other row |
| Classifier.ExampleCrossSoldBoth | app.py:86-97 | Homeowners and Private Passenger Auto with one carrier are Cross-Sold at both levels |
| Classifier.ExampleAgencyOnly | app.py:86-97 | Homeowners with one carrier and auto with another are Cross-Sold at agency level and Monoline at carrier level |
| Classifier.ExampleDuplicateMonoline | app.py:86-97 | two Homeowners policies with one carrier are Monoline at both levels |
| Classifier.ExampleNameSharedAcrossDivisions | app.py:96 | one name in two divisions is one customer, so a division's single-policy row can be Cross-Sold |
| Aggregate.DivisionRows | app.py:111 | the division's rows are exactly the frame's rows of that division |
| Aggregate.DivisionRowsCounts | app.py:111 | every row of the division keeps its multiplicity in the frame, and every row of another division is dropped |
| Aggregate.DivisionRowsAppend | app.py:111 | the selection keeps the rows' order: selecting from a concatenation concatenates the selections |
| Aggregate.ClientsAtMostRows | app.py:100 | the number of distinct names is at most the number of rows, and at least one for a non-empty frame |
| Aggregate.CountRowsPartition | app.py:101-102 | every row is counted once, as Monoline or as Cross-Sold |
| Aggregate.AgencySummaryAsWritten | app.py:99-103 | the summary as written has one entry per division of the frame |
| Aggregate.SummaryAsWrittenBalance | app.py:99-105 | as written: Monoline + Cross_Sold is the division's row count, which is at least Total_Clients (itself at least 1); the two percentages add up to 100 |
| Aggregate.SummaryAsWrittenOvercounts | app.py:99-105 | on a sheet where Ann has two Homeowners policies in North and Bob one in South, North gives Total_Clients 1, Monoline 2, 200% monoline and -100% cross-sold as written, but 1 monoline client and 100% / 0% per customer |
| Aggregate.FirstRowOf | app.py:118 | `.first()` picks the customer's first row: a row of that customer with no row of the customer before it |
| Aggregate.CustomerCountsPartition | app.py:117-124 | each customer is counted once: total_monoline + total_cross_sold = total_clients, and likewise at carrier level |
| Aggregate.CountsUseWholeFrameClassification | app.py:117-124 | on classified frames each division customer is counted by the classification of all the customer's rows in the whole frame |
| Aggregate.CarrierCrossAtMostAgencyCross | app.py:117-124 | a division never has more carrier-level cross-sold customers than agency-level ones |
| Aggregate.PercentBounds | app.py:270-271 | a share lies in [0, 100]; two shares that make up a non-zero whole add to 100; with zero clients both are 0.0 |
| Aggregate.ExampleSeventyThirty | app.py:99-105 | a division of 10 clients with 7 monoline ones has 3 cross-sold clients, 70% monoline and 30% cross-sold, and % Cross-Sold = 100 - % Monoline |
| Aggregate.ExampleSeventyThirtyAsWritten | app.py:99-105 | as written, 10 clients and 7 monoline rows give 70% monoline and 30% cross-sold |
| Aggregate.SummaryAsWrittenShares | app.py:99-105 | as written, % Monoline is never negative and % Cross-Sold never exceeds 100; % Monoline exceeds 100, and % Cross-Sold is negative, exactly when the division has more monoline rows than clients |
| Aggregate.CustomersAtMostRows | app.py:99-120 | the number of customers whose first row has a type is at most the number of rows of that type |
| Aggregate.SelectedAgainstAsWritten | app.py:99-124 | for a division of the frame, the selected counts and the as-written summary row have the same Total_Clients, and the row-counting Monoline and Cross_Sold are each at least total_monoline and total_cross_sold |
| Aggregate.MixedClassified | app.py:86-97 | Ann (Homeowners and auto with one carrier) is Cross-Sold at both levels and Bob (two Homeowners policies) is Monoline at both |
| Aggregate.MixedAsWritten | app.py:99-105 | as written that division has Total_Clients 2, Monoline 2, Cross_Sold 2, 100% monoline and 0% cross-sold |
| Aggregate.MixedPerCustomer | app.py:99-120 | counted per customer that division has 2 clients, 1 monoline and 1 cross-sold, 50% each |
| Aggregate.AgencySummary | app.py:99-105 | the per-customer summary has one entry per division of the frame |
| Aggregate.SummaryConsistent | app.py:99-105 | per customer: monoline + cross-sold = clients, both percentages in [0, 100], % Cross-Sold = 100 - % Monoline when there are clients, both 0.0 without clients, and a division of the frame has clients |
| Aggregate.SelectDivision | app.py:109-124 | a selected division's counts have at least one client |
| Aggregate.SelectDivisionIff | app.py:109-124 | a non-empty name yields counts iff it is a division of the frame; its agency counts equal that division's per-customer summary counts (not the as-written row, see `Aggregate.SelectedAgainstAsWritten`) |
| Report.HighlightCross | app.py:163-169 | one style per cell, each the style of the row's highlight |
| Records.LabelCrossSoldIff | app.py:86-94 | the column text is "Cross-Sold" exactly for the cross-sold type and "Monoline" exactly for the monoline type |
| Report.HighlightCases | app.py:163-169 | comparing the column texts with "Cross-Sold" gives green iff both types are Cross-Sold, yellow iff exactly one is, none iff neither is |
| Report.YellowMeansAgencyOnly | app.py:307-338 | on classified rows yellow means Cross-Sold at agency level and Monoline at carrier level, as the legend says |
| Report.HighlightRows | app.py:329-338 | the PDF loop yields one highlight per division row, in row order |
| Report.CarrierPercentagesSum | app.py:267-271 | for a selected division the carrier % Monoline and % Cross-Sold lie in [0, 100] and add to 100 |
| Report.TierMonotone | app.py:206-211 | a higher % Cross-Sold never gives a lower strategy tier |
| Report.TierOfSummaryAsWritten | app.py:203-211 | the tier read from the as-written % Cross-Sold: that value is at most 100; the lowest tier is chosen iff it is below 20, the highest iff it is at least 50; with more monoline rows than clients it is negative and the lowest tier is chosen |
| Report.MixedDivisionTiers | app.py:206-211 | for the Ann-and-Bob division the closing sentence is the lowest tier as written but the highest tier per customer |
| Report.TierOfSummary | app.py:206-211 | corrected half: on the per-customer summary the lowest tier is chosen iff % Cross-Sold < 20, the highest iff it is between 50 and 100 |

## Left out

- Streamlit page setup, styling, the file uploader, the select box, buttons and on-screen display are user interface. The division is a parameter of `SelectDivision`, not a choice among the summary's keys.
- `pd.read_excel` is file parsing through a foreign library. The model starts from a `Table` of string headers and rectangular rows of string cells.
- Matplotlib charts, PNG files, the ReportLab document, table styling, the legend, the logo check, the date stamp and the static strategy copy are rendering and foreign calls. Only the highlight choice, the carrier percentages and the tier thresholds are kept.
- Float rounding and formatting are not modelled: `.round(2)` at app.py:104, `round(..., 1)` at app.py:203 and `:.1f` at app.py:264-271. Percentages are exact reals.
- The second `summary_text` block at app.py:214-222 is computed but never used.
- Pandas details are not modelled: NaN cells and NaN group keys, non-string cells, the sorted order of `groupby` keys (the summaries are maps keyed by division), the mangling of duplicate labels by `read_excel`, and index alignment in `reset_index`.
- Classifier.Classify: the model classifies every filtered frame. In pandas, `groupby(...).apply(classify)` returns a frame rather than a series when all groups share one index, which happens when the filtered frame has no customer or exactly one customer, and the assignment to the new column at app.py:96-97 then fails or aligns by position. Those two sheets are not modelled as errors.
- Pipeline.RowOf: when several headers carry the same canonical name after renaming, the model reads the first such column. Pandas returns a frame for such a label instead.
- Pipeline.LoadTable: the frame carries only the five canonical columns. Other columns travel through the source untouched and are never read.
- Report.TierOfSummary: the source picks the tier from the row-counting % Cross-Sold, which `Report.TierOfSummaryAsWritten` states. This lemma states the tier of the corrected per-customer percentage.
- Pipeline.LoadTable: the summary in the result is the per-customer `Aggregate.AgencySummary`, not the row-counting summary written at app.py:99-105, which `Aggregate.AgencySummaryAsWritten` models (see Findings).
- Aggregate.SummaryAsWritten: division by zero (pandas would give inf or NaN) is not modelled, because a division that is a group key has at least one client.
- The PDF block at app.py:177 sits outside the empty-division branch. For a division without rows it would read counts that were never assigned. The model does not produce a report for such a division.

## Findings

| source | as written | input that shows it | evidently intended | confidence | as-written member | corrected member |
|---|---|---|---|---|---|---|
| app.py:99-105 | `Monoline` and `Cross_Sold` count rows (`(x == ...).sum()`), while `Total_Clients` counts distinct customers, so percentages can leave [0, 100] | a sheet where Ann holds two Homeowners policies with CarrierA in North and Bob one Homeowners policy with CarrierB in South: North has Total_Clients 1, Monoline 2, % Monoline 200, % Cross-Sold -100 | count each customer once by their first row's account type, as app.py:117-124 does for the same division and as the report text "Out of N total clients, M are cross-sold" reads | high (not executed) | Aggregate.SummaryAsWrittenOvercounts | Aggregate.SummaryConsistent |
| app.py:203-211 | the closing sentence is chosen from the row-counting `% Cross-Sold` of app.py:105, which is negative whenever a division has more monoline rows than clients | division North where Ann holds Homeowners and auto and Bob two Homeowners policies, all with CarrierA: % Cross-Sold 0 as written, so the lowest tier, while half the clients are cross-sold | choose the tier from the per-customer share of cross-sold clients, 50% and the highest tier here | high (not executed) | Report.MixedDivisionTiers | Report.TierOfSummary |
