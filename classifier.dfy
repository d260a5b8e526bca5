/**
 * Customer classification (app.py:86-97). Both account types are computed per customer
 * name over the whole filtered frame and written into every row of that customer.
 */
module Classifier {
  import opened Records

  /** `set(group["Line of Business/Non-Premium"])` for the group of customer `name`. */
  function LinesOf(rows: seq<Row>, name: string): set<string> {
    set k | 0 <= k < |rows| && rows[k].customer == name :: rows[k].lob
  }

  /** The lines of business `name` holds with one carrier (one entry of `lines_by_carrier`). */
  function CarrierLinesOf(rows: seq<Row>, name: string, carrier: string): set<string> {
    set k | 0 <= k < |rows| && rows[k].customer == name && rows[k].carrier == carrier :: rows[k].lob
  }

  /** `classify`: cross-sold when the customer holds more than one distinct line. */
  function AgencyType(rows: seq<Row>, name: string): AccountType {
    if |LinesOf(rows, name)| > 1 then CrossSold else Monoline
  }

  /** `classify_carrier`: cross-sold when some carrier of the customer holds more than one distinct line. */
  function CarrierType(rows: seq<Row>, name: string): AccountType {
    if exists k :: 0 <= k < |rows| && rows[k].customer == name && |CarrierLinesOf(rows, name, rows[k].carrier)| > 1
    then CrossSold else Monoline
  }

  /**
   * The two new columns, broadcast to every row of each customer: the frame keeps its
   * rows and their order, rows of one customer share both values, and carrier-level
   * cross-selling implies agency-level cross-selling.
   */
  function Classify(rows: seq<Row>): (r: seq<ClassifiedRow>)
    ensures |r| == |rows|
    ensures forall k :: 0 <= k < |r| ==> r[k].row == rows[k]
    ensures forall k :: 0 <= k < |r| ==>
              r[k].accountType == AgencyType(rows, rows[k].customer) && r[k].carrierType == CarrierType(rows, rows[k].customer)
    ensures forall j, k :: 0 <= j < |r| && 0 <= k < |r| && rows[j].customer == rows[k].customer ==>
              r[j].accountType == r[k].accountType && r[j].carrierType == r[k].carrierType
    ensures forall k :: 0 <= k < |r| ==> r[k].carrierType == CrossSold ==> r[k].accountType == CrossSold
  {
    forall k | 0 <= k < |rows| ensures CarrierType(rows, rows[k].customer) == CrossSold ==> AgencyType(rows, rows[k].customer) == CrossSold {
      CarrierImpliesAgency(rows, rows[k].customer);
    }
    seq(|rows|, k requires 0 <= k < |rows| =>
      ClassifiedRow(rows[k], AgencyType(rows, rows[k].customer), CarrierType(rows, rows[k].customer)))
  }

  // ----- what the classification means -----

  /** A finite set has more than one element iff it holds two different ones. */
  lemma SizeAboveOneIff<T>(s: set<T>)
    ensures |s| > 1 <==> exists a, b :: a in s && b in s && a != b
  {
    if |s| > 1 {
      var a :| a in s;
      assert |s - {a}| == |s| - 1;
      var b :| b in s - {a};
    }
    if exists a, b :: a in s && b in s && a != b {
      var a, b :| a in s && b in s && a != b;
      assert {a, b} <= s;
      assert |{a, b}| == 2;
      SubsetSize({a, b}, s);
    }
  }

  lemma SubsetSize<T>(a: set<T>, b: set<T>)
    requires a <= b
    ensures |a| <= |b|
  {
    assert b == a + (b - a);
  }

  /** Agency-level cross-selling iff two of the customer's rows have different lines. */
  lemma AgencyCrossSoldIff(rows: seq<Row>, name: string)
    ensures AgencyType(rows, name) == CrossSold
        <==> exists x, y :: x in rows && y in rows && x.customer == name && y.customer == name && x.lob != y.lob
  {
    var s := LinesOf(rows, name);
    SizeAboveOneIff(s);
    if exists x, y :: x in rows && y in rows && x.customer == name && y.customer == name && x.lob != y.lob {
      var x, y :| x in rows && y in rows && x.customer == name && y.customer == name && x.lob != y.lob;
      var i :| 0 <= i < |rows| && rows[i] == x;
      var j :| 0 <= j < |rows| && rows[j] == y;
      assert x.lob in s && y.lob in s;
    }
    if |s| > 1 {
      var a, b :| a in s && b in s && a != b;
      var i :| 0 <= i < |rows| && rows[i].customer == name && rows[i].lob == a;
      var j :| 0 <= j < |rows| && rows[j].customer == name && rows[j].lob == b;
      assert rows[i] in rows && rows[j] in rows;
    }
  }

  /** Carrier-level cross-selling iff two of the customer's rows with one carrier have different lines. */
  lemma CarrierCrossSoldIff(rows: seq<Row>, name: string)
    ensures CarrierType(rows, name) == CrossSold
        <==> exists x, y :: x in rows && y in rows && x.customer == name && y.customer == name
                           && x.carrier == y.carrier && x.lob != y.lob
  {
    if CarrierType(rows, name) == CrossSold {
      var k :| 0 <= k < |rows| && rows[k].customer == name && |CarrierLinesOf(rows, name, rows[k].carrier)| > 1;
      var s := CarrierLinesOf(rows, name, rows[k].carrier);
      SizeAboveOneIff(s);
      var a, b :| a in s && b in s && a != b;
      var i :| 0 <= i < |rows| && rows[i].customer == name && rows[i].carrier == rows[k].carrier && rows[i].lob == a;
      var j :| 0 <= j < |rows| && rows[j].customer == name && rows[j].carrier == rows[k].carrier && rows[j].lob == b;
      assert rows[i] in rows && rows[j] in rows;
    }
    if exists x, y :: x in rows && y in rows && x.customer == name && y.customer == name
                      && x.carrier == y.carrier && x.lob != y.lob {
      var x, y :| x in rows && y in rows && x.customer == name && y.customer == name
                  && x.carrier == y.carrier && x.lob != y.lob;
      var i :| 0 <= i < |rows| && rows[i] == x;
      var j :| 0 <= j < |rows| && rows[j] == y;
      var s := CarrierLinesOf(rows, name, x.carrier);
      assert x.lob in s && y.lob in s;
      SizeAboveOneIff(s);
    }
  }

  /** A carrier-level cross-sold customer is cross-sold at agency level. */
  lemma CarrierImpliesAgency(rows: seq<Row>, name: string)
    ensures CarrierType(rows, name) == CrossSold ==> AgencyType(rows, name) == CrossSold
  {
    CarrierCrossSoldIff(rows, name);
    AgencyCrossSoldIff(rows, name);
  }

  /** A customer who has rows is monoline exactly when all of them share one line. */
  lemma MonolineHasOneLine(rows: seq<Row>, name: string)
    requires exists x :: x in rows && x.customer == name
    ensures AgencyType(rows, name) == Monoline <==> |LinesOf(rows, name)| == 1
  {
    var x :| x in rows && x.customer == name;
    var i :| 0 <= i < |rows| && rows[i] == x;
    assert x.lob in LinesOf(rows, name);
  }

  /** Only the set of rows matters: order and duplicate rows change neither account type. */
  lemma SameRowsSameTypes(rows: seq<Row>, rows': seq<Row>, name: string)
    requires forall x :: x in rows <==> x in rows'
    ensures AgencyType(rows, name) == AgencyType(rows', name)
    ensures CarrierType(rows, name) == CarrierType(rows', name)
  {
    AgencyCrossSoldIff(rows, name);
    AgencyCrossSoldIff(rows', name);
    CarrierCrossSoldIff(rows, name);
    CarrierCrossSoldIff(rows', name);
  }

  /** Adding a copy of an existing row adds a copy of its classified row and changes nothing else. */
  lemma DuplicateRowIgnored(rows: seq<Row>, k: int)
    requires 0 <= k < |rows|
    ensures Classify(rows + [rows[k]]) == Classify(rows) + [Classify(rows)[k]]
  {
    var rows' := rows + [rows[k]];
    forall n ensures AgencyType(rows', n) == AgencyType(rows, n) && CarrierType(rows', n) == CarrierType(rows, n) {
      SameRowsSameTypes(rows, rows', n);
    }
  }

  // ----- worked cases -----

  /** Homeowners and auto with one carrier: cross-sold at both levels. */
  lemma ExampleCrossSoldBoth()
    ensures var rows := [Row("North", "Ann", "Homeowners", "CarrierA", "P1"),
                         Row("North", "Ann", "Private Passenger Auto", "CarrierA", "P2")];
            Classify(rows)[0].accountType == CrossSold && Classify(rows)[0].carrierType == CrossSold
  {
    var rows := [Row("North", "Ann", "Homeowners", "CarrierA", "P1"),
                 Row("North", "Ann", "Private Passenger Auto", "CarrierA", "P2")];
    AgencyCrossSoldIff(rows, "Ann");
    CarrierCrossSoldIff(rows, "Ann");
    assert rows[0] in rows && rows[1] in rows;
  }

  /** Homeowners with one carrier, auto with another: cross-sold at agency level only. */
  lemma ExampleAgencyOnly()
    ensures var rows := [Row("North", "Ann", "Homeowners", "CarrierA", "P1"),
                         Row("North", "Ann", "Private Passenger Auto", "CarrierB", "P2")];
            Classify(rows)[0].accountType == CrossSold && Classify(rows)[0].carrierType == Monoline
  {
    var rows := [Row("North", "Ann", "Homeowners", "CarrierA", "P1"),
                 Row("North", "Ann", "Private Passenger Auto", "CarrierB", "P2")];
    AgencyCrossSoldIff(rows, "Ann");
    CarrierCrossSoldIff(rows, "Ann");
    assert rows[0] in rows && rows[1] in rows;
  }

  /** Two homeowners policies with one carrier: monoline at both levels. */
  lemma ExampleDuplicateMonoline()
    ensures var rows := [Row("North", "Ann", "Homeowners", "CarrierA", "P1"),
                         Row("North", "Ann", "Homeowners", "CarrierA", "P2")];
            Classify(rows)[0].accountType == Monoline && Classify(rows)[0].carrierType == Monoline
  {
    var rows := [Row("North", "Ann", "Homeowners", "CarrierA", "P1"),
                 Row("North", "Ann", "Homeowners", "CarrierA", "P2")];
    AgencyCrossSoldIff(rows, "Ann");
    CarrierCrossSoldIff(rows, "Ann");
  }

  /**
   * Grouping is by customer name over the whole frame: a name that appears in two
   * divisions is one customer, so the North row is cross-sold although North holds a
   * single policy of that customer.
   */
  lemma ExampleNameSharedAcrossDivisions()
    ensures var rows := [Row("North", "Ann", "Homeowners", "CarrierA", "P1"),
                         Row("South", "Ann", "Private Passenger Auto", "CarrierB", "P2")];
            Classify(rows)[0].accountType == CrossSold
  {
    var rows := [Row("North", "Ann", "Homeowners", "CarrierA", "P1"),
                 Row("South", "Ann", "Private Passenger Auto", "CarrierB", "P2")];
    AgencyCrossSoldIff(rows, "Ann");
    assert rows[0] in rows && rows[1] in rows;
  }
}
