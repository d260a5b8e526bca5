/**
 * One load of a book-of-business table (app.py:60-105): normalise the headers, stop when
 * a required column is missing, otherwise filter, classify and summarise the rows.
 */
module Pipeline {
  import opened Schema
  import opened Records
  import opened LobFilter
  import opened Classifier
  import opened Aggregate

  /** The spreadsheet as parsed: header labels and rows of cells, all strings. */
  datatype Table = Table(headers: seq<string>, cells: seq<seq<string>>)

  /** A parsed sheet is rectangular: every row has one cell per header. */
  predicate Rectangular(t: Table) {
    forall k :: 0 <= k < |t.cells| ==> |t.cells[k]| == |t.headers|
  }

  /** Either the load stops at the required-column check, or it yields the classified frame and summary. */
  datatype Outcome =
    | MissingColumns
    | Loaded(classified: seq<ClassifiedRow>, summary: map<string, DivisionSummary>)

  /** The position of the first header equal to `name`. */
  function IndexOf(cols: seq<string>, name: string): (k: nat)
    requires name in cols
    ensures k < |cols| && cols[k] == name && name !in cols[..k]
  {
    if cols[0] == name then 0
    else
      assert cols[1..][..IndexOf(cols[1..], name)] == cols[1..IndexOf(cols[1..], name) + 1];
      1 + IndexOf(cols[1..], name)
  }

  /** The five canonical cells of one row. */
  function RowOf(cols: seq<string>, cells: seq<string>): (r: Row)
    requires HasRequired(cols) && |cells| == |cols|
    ensures r.division == cells[IndexOf(cols, "Division")]
    ensures r.customer == cells[IndexOf(cols, "Customer Name")]
    ensures r.lob == cells[IndexOf(cols, "Line of Business/Non-Premium")]
    ensures r.carrier == cells[IndexOf(cols, "Carrier")]
    ensures r.policy == cells[IndexOf(cols, "Policy Number")]
  {
    Row(cells[IndexOf(cols, "Division")], cells[IndexOf(cols, "Customer Name")],
        cells[IndexOf(cols, "Line of Business/Non-Premium")], cells[IndexOf(cols, "Carrier")],
        cells[IndexOf(cols, "Policy Number")])
  }

  function RowsOf(cols: seq<string>, cells: seq<seq<string>>): (rows: seq<Row>)
    requires HasRequired(cols) && forall k :: 0 <= k < |cells| ==> |cells[k]| == |cols|
    ensures |rows| == |cells|
  {
    seq(|cells|, k requires 0 <= k < |cells| => RowOf(cols, cells[k]))
  }

  /** The whole load as a function of the parsed table. */
  function Load(t: Table): Outcome
    requires Rectangular(t)
  {
    var cols := NormalizeHeaders(t.headers);
    if !HasRequired(cols) then MissingColumns
    else
      var classified := Classify(FilterLob(RowsOf(cols, t.cells)));
      Loaded(classified, AgencySummary(classified))
  }

  /** The load step by step, as the script reassigns `df`. */
  method LoadTable(t: Table) returns (outcome: Outcome)
    requires Rectangular(t)
    ensures outcome == Load(t)
  {
    var cols := NormalizeColumns(t.headers);
    if !HasRequired(cols) {
      return MissingColumns;
    }
    var rows := RowsOf(cols, t.cells);
    rows := FilterLob(rows);
    var classified := Classify(rows);
    outcome := Loaded(classified, AgencySummary(classified));
  }

  // ----- the required-column gate -----

  /** Some header, once stripped, is an alias of the column `f`. */
  predicate AliasPresent(headers: seq<string>, f: Field) {
    exists k :: 0 <= k < |f.aliases| && f.aliases[k] in StripAll(headers)
  }

  /**
   * The load stops, and nothing is filtered, classified or summarised, exactly when some
   * canonical column has none of its aliases among the stripped headers.
   */
  lemma LoadRejectsIff(t: Table)
    requires Rectangular(t)
    ensures Load(t) == MissingColumns <==> exists f :: f in ColumnMap && !AliasPresent(t.headers, f)
  {
    GateIff(t.headers);
  }

  /** The required-column check passes iff every canonical column had an alias among the stripped headers. */
  lemma GateIff(headers: seq<string>)
    ensures HasRequired(NormalizeHeaders(headers)) <==> forall f :: f in ColumnMap ==> AliasPresent(headers, f)
  {
    var cols := NormalizeHeaders(headers);
    HasRequiredIff(cols);
    RequiredAreCanonical();
    forall k | 0 <= k < |ColumnMap|
      ensures Required[k] in cols <==> AliasPresent(headers, ColumnMap[k])
    {
      CanonicalPresentIff(headers, ColumnMap[k]);
    }
    assert forall f :: f in ColumnMap ==> exists k :: 0 <= k < |ColumnMap| && ColumnMap[k] == f;
  }

  /** A sheet with no policy-number header is rejected before any classification. */
  lemma MissingPolicyNumberRejected(t: Table)
    requires Rectangular(t)
    requires "Policy Number" !in StripAll(t.headers)
    ensures Load(t) == MissingColumns
  {
    LoadRejectsIff(t);
    assert ColumnMap[4] in ColumnMap && !AliasPresent(t.headers, ColumnMap[4]);
  }

  // ----- what a successful load contains -----

  /**
   * The classified frame is the classification of exactly the allowed rows, in order: no
   * other line of business reaches the classifier, and every summary key is a division
   * of those rows.
   */
  lemma LoadedFrame(t: Table)
    requires Rectangular(t) && Load(t).Loaded?
    ensures var cols := NormalizeHeaders(t.headers);
            var kept := FilterLob(RowsOf(cols, t.cells));
            && Load(t).classified == Classify(kept)
            && (forall k :: 0 <= k < |Load(t).classified| ==> Load(t).classified[k].row.lob in AllowedLines)
            && Load(t).summary.Keys == Divisions(Load(t).classified)
  {
    var cols := NormalizeHeaders(t.headers);
    var kept := FilterLob(RowsOf(cols, t.cells));
    forall k | 0 <= k < |kept| ensures kept[k].lob in AllowedLines {
      assert kept[k] in kept;
    }
  }

  /** A customer none of whose rows has an allowed line appears in no division's clients. */
  lemma UnlistedCustomerVanishes(rows: seq<Row>, name: string, d: string)
    requires forall x :: x in rows && x.customer == name ==> x.lob !in AllowedLines
    ensures name !in Clients(DivisionRows(Classify(FilterLob(rows)), d))
  {
  }
}
