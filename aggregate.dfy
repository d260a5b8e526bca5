/**
 * Aggregation of classified rows: the division summary (app.py:99-105), the
 * per-customer counts of the selected division (app.py:111-124) and the guarded
 * percentage (app.py:270-271).
 */
module Aggregate {
  import opened Records
  import opened Classifier

  /** `df[df["Division"] == d]`: the division's rows, in their original order. */
  function DivisionRows(rows: seq<ClassifiedRow>, d: string): (r: seq<ClassifiedRow>)
    ensures |r| <= |rows|
    ensures forall x :: x in r <==> x in rows && x.row.division == d
  {
    if rows == [] then []
    else (if rows[0].row.division == d then [rows[0]] else []) + DivisionRows(rows[1..], d)
  }

  /** Each row of the division keeps its multiplicity and every other row is dropped. */
  lemma {:induction false} DivisionRowsCounts(rows: seq<ClassifiedRow>, d: string, x: ClassifiedRow)
    ensures multiset(DivisionRows(rows, d))[x] == if x.row.division == d then multiset(rows)[x] else 0
    decreases |rows|
  {
    if rows != [] {
      assert rows == [rows[0]] + rows[1..];
      DivisionRowsCounts(rows[1..], d, x);
    }
  }

  /** Selecting a division from a concatenation selects from each part and keeps their order. */
  lemma {:induction false} DivisionRowsAppend(a: seq<ClassifiedRow>, b: seq<ClassifiedRow>, d: string)
    ensures DivisionRows(a + b, d) == DivisionRows(a, d) + DivisionRows(b, d)
    decreases |a|
  {
    if a != [] {
      assert (a + b)[1..] == a[1..] + b;
      DivisionRowsAppend(a[1..], b, d);
    } else {
      assert a + b == b;
    }
  }

  /** The keys of `df.groupby("Division")`. */
  function Divisions(rows: seq<ClassifiedRow>): set<string> {
    set k | 0 <= k < |rows| :: rows[k].row.division
  }

  /** The distinct customer names among `rows` (`nunique` counts these). */
  function Clients(rows: seq<ClassifiedRow>): set<string> {
    set k | 0 <= k < |rows| :: rows[k].row.customer
  }

  /** `(x == t).sum()` over the "Account Type" column: a count of ROWS. */
  function CountRows(rows: seq<ClassifiedRow>, t: AccountType): nat {
    if rows == [] then 0
    else (if rows[0].accountType == t then 1 else 0) + CountRows(rows[1..], t)
  }

  lemma {:induction false} ClientsAtMostRows(rows: seq<ClassifiedRow>)
    ensures |Clients(rows)| <= |rows|
    ensures rows != [] ==> |Clients(rows)| >= 1
    decreases |rows|
  {
    if rows != [] {
      assert rows[0].row.customer in Clients(rows);
      ClientsAtMostRows(rows[1..]);
      assert Clients(rows) == Clients(rows[1..]) + {rows[0].row.customer} by {
        forall n | n in Clients(rows) ensures n in Clients(rows[1..]) + {rows[0].row.customer} {
          var k :| 0 <= k < |rows| && rows[k].row.customer == n;
          if k > 0 { assert rows[1..][k - 1] == rows[k]; }
        }
        forall n | n in Clients(rows[1..]) ensures n in Clients(rows) {
          var k :| 0 <= k < |rows[1..]| && rows[1..][k].row.customer == n;
          assert rows[k + 1] == rows[1..][k];
        }
      }
    }
  }

  /** Every row is counted once, as monoline or as cross-sold. */
  lemma {:induction false} CountRowsPartition(rows: seq<ClassifiedRow>)
    ensures CountRows(rows, Monoline) + CountRows(rows, CrossSold) == |rows|
    decreases |rows|
  {
    if rows != [] {
      CountRowsPartition(rows[1..]);
    }
  }

  // ----- division summary as the source computes it -----

  datatype DivisionSummary = DivisionSummary(
    totalClients: nat, monoline: nat, crossSold: nat, pctMonoline: real, pctCrossSold: real)

  /**
   * One row of `agency_summary` as written: distinct customers, but monoline and
   * cross-sold counted per row, and `% Monoline` divided without a guard (a division
   * that is a group key has at least one row, hence at least one customer).
   */
  function SummaryAsWritten(rows: seq<ClassifiedRow>, d: string): DivisionSummary
    requires d in Divisions(rows)
  {
    var dr := DivisionRows(rows, d);
    var k :| 0 <= k < |rows| && rows[k].row.division == d;
    assert rows[k] in dr;
    ClientsAtMostRows(dr);
    var total := |Clients(dr)|;
    var mono := CountRows(dr, Monoline);
    var pct := mono as real / total as real * 100.0;
    DivisionSummary(total, mono, CountRows(dr, CrossSold), pct, 100.0 - pct)
  }

  /** `agency_summary` as written, keyed by division. */
  function AgencySummaryAsWritten(rows: seq<ClassifiedRow>): (m: map<string, DivisionSummary>)
    ensures m.Keys == Divisions(rows)
  {
    map d | d in Divisions(rows) :: SummaryAsWritten(rows, d)
  }

  /**
   * What the as-written summary satisfies: monoline plus cross-sold is the number of the
   * division's rows, which is at least the number of its customers, and the two
   * percentages add up to 100.
   */
  lemma SummaryAsWrittenBalance(rows: seq<ClassifiedRow>, d: string)
    requires d in Divisions(rows)
    ensures var s := SummaryAsWritten(rows, d);
            && s.monoline + s.crossSold == |DivisionRows(rows, d)|
            && 1 <= s.totalClients <= |DivisionRows(rows, d)|
            && s.pctMonoline + s.pctCrossSold == 100.0
  {
    var dr := DivisionRows(rows, d);
    CountRowsPartition(dr);
    var k :| 0 <= k < |rows| && rows[k].row.division == d;
    assert rows[k] in dr;
    ClientsAtMostRows(dr);
  }

  /**
   * A sheet of two customers: in North, Ann holds two homeowners policies with one
   * carrier; in South, Bob holds one. Both are monoline at both levels.
   */
  function OvercountRaw(): seq<Row> {
    [Row("North", "Ann", "Homeowners", "CarrierA", "P1"),
     Row("North", "Ann", "Homeowners", "CarrierA", "P2"),
     Row("South", "Bob", "Homeowners", "CarrierB", "P3")]
  }

  function OvercountFrame(): seq<ClassifiedRow> {
    var raw := OvercountRaw();
    [ClassifiedRow(raw[0], Monoline, Monoline), ClassifiedRow(raw[1], Monoline, Monoline),
     ClassifiedRow(raw[2], Monoline, Monoline)]
  }

  /**
   * North's as-written summary reports two monoline accounts out of one client, 200%
   * monoline and -100% cross-sold, while the per-customer summary reports one monoline
   * client, 100% and 0%.
   */
  lemma SummaryAsWrittenOvercounts()
    ensures "North" in Divisions(Classify(OvercountRaw()))
    ensures SummaryAsWritten(Classify(OvercountRaw()), "North") == DivisionSummary(1, 2, 0, 200.0, -100.0)
    ensures Summary(Classify(OvercountRaw()), "North") == DivisionSummary(1, 1, 0, 100.0, 0.0)
  {
    OvercountClassified();
    OvercountsAsWritten();
    OvercountsPerCustomer();
  }

  lemma OvercountClassified()
    ensures Classify(OvercountRaw()) == OvercountFrame()
  {
    var raw := OvercountRaw();
    assert AgencyType(raw, "Ann") == Monoline by {
      AgencyCrossSoldIff(raw, "Ann");
    }
    assert CarrierType(raw, "Ann") == Monoline by {
      CarrierImpliesAgency(raw, "Ann");
    }
    assert AgencyType(raw, "Bob") == Monoline by {
      AgencyCrossSoldIff(raw, "Bob");
    }
    assert CarrierType(raw, "Bob") == Monoline by {
      CarrierImpliesAgency(raw, "Bob");
    }
  }

  lemma OvercountDivisionRows()
    ensures DivisionRows(OvercountFrame(), "North") == OvercountFrame()[..2]
  {
    var rows := OvercountFrame();
    assert DivisionRows(rows[2..], "North") == [] by {
      assert rows[2..][1..] == [];
    }
    assert rows[1..][1..] == rows[2..];
    assert DivisionRows(rows[1..], "North") == [rows[1]];
  }

  /** The counts of North's two rows: one client, two monoline rows, one monoline customer. */
  lemma OvercountNorthCounts(dr: seq<ClassifiedRow>)
    requires dr == OvercountFrame()[..2]
    ensures |Clients(dr)| == 1
    ensures CountRows(dr, Monoline) == 2 && CountRows(dr, CrossSold) == 0
    ensures |CustomersOfType(dr, AgencyLevel, Monoline)| == 1 && |CustomersOfType(dr, AgencyLevel, CrossSold)| == 0
  {
    assert dr[0].row.customer == "Ann" && dr[1].row.customer == "Ann";
    assert Clients(dr) == {"Ann"};
    assert dr[1..][1..] == [];
    assert CountRows(dr[1..][1..], Monoline) == 0 && CountRows(dr[1..][1..], CrossSold) == 0;
    assert dr[1..][0].accountType == Monoline;
    assert CountRows(dr[1..], Monoline) == 1 && CountRows(dr[1..], CrossSold) == 0;
    assert FirstRowOf(dr, "Ann") == dr[0];
    assert CustomersOfType(dr, AgencyLevel, Monoline) == {"Ann"};
    assert CustomersOfType(dr, AgencyLevel, CrossSold) == {};
  }

  lemma OvercountsAsWritten()
    ensures "North" in Divisions(OvercountFrame())
    ensures SummaryAsWritten(OvercountFrame(), "North") == DivisionSummary(1, 2, 0, 200.0, -100.0)
  {
    var rows := OvercountFrame();
    assert rows[0].row.division == "North";
    OvercountDivisionRows();
    OvercountNorthCounts(DivisionRows(rows, "North"));
    AsWrittenOf(rows, "North", 1, 2, 0);
    assert 2 as real / 1 as real * 100.0 == 200.0;
  }

  lemma OvercountsPerCustomer()
    ensures Summary(OvercountFrame(), "North") == DivisionSummary(1, 1, 0, 100.0, 0.0)
  {
    OvercountDivisionRows();
    OvercountNorthCounts(DivisionRows(OvercountFrame(), "North"));
    PerCustomerOf(OvercountFrame(), "North", 1, 1, 0);
    assert Percent(1, 1) == 100.0 && Percent(0, 1) == 0.0;
  }

  /**
   * A North division of two customers: Ann holds homeowners and auto, Bob two homeowners
   * policies, all with one carrier. The classifier makes Ann cross-sold at both levels and
   * Bob monoline at both.
   */
  function MixedRaw(): seq<Row> {
    [Row("North", "Ann", "Homeowners", "CarrierA", "P1"),
     Row("North", "Ann", "Private Passenger Auto", "CarrierA", "P2"),
     Row("North", "Bob", "Homeowners", "CarrierA", "P3"),
     Row("North", "Bob", "Homeowners", "CarrierA", "P4")]
  }

  function MixedFrame(): seq<ClassifiedRow> {
    var raw := MixedRaw();
    [ClassifiedRow(raw[0], CrossSold, CrossSold), ClassifiedRow(raw[1], CrossSold, CrossSold),
     ClassifiedRow(raw[2], Monoline, Monoline), ClassifiedRow(raw[3], Monoline, Monoline)]
  }

  lemma MixedClassified()
    ensures Classify(MixedRaw()) == MixedFrame()
  {
    var raw := MixedRaw();
    assert raw[0] in raw && raw[1] in raw;
    assert AgencyType(raw, "Ann") == CrossSold by {
      AgencyCrossSoldIff(raw, "Ann");
    }
    assert CarrierType(raw, "Ann") == CrossSold by {
      CarrierCrossSoldIff(raw, "Ann");
    }
    assert AgencyType(raw, "Bob") == Monoline by {
      AgencyCrossSoldIff(raw, "Bob");
    }
    assert CarrierType(raw, "Bob") == Monoline by {
      CarrierImpliesAgency(raw, "Bob");
    }
  }

  lemma MixedDivisionRows()
    ensures DivisionRows(MixedFrame(), "North") == MixedFrame()
  {
    var rows := MixedFrame();
    assert DivisionRows(rows[3..], "North") == rows[3..] by {
      assert rows[3..][1..] == [];
    }
    assert rows[2..][1..] == rows[3..];
    assert DivisionRows(rows[2..], "North") == rows[2..];
    assert rows[1..][1..] == rows[2..];
    assert DivisionRows(rows[1..], "North") == rows[1..];
  }

  lemma MixedClients()
    ensures Clients(MixedFrame()) == {"Ann", "Bob"} && |Clients(MixedFrame())| == 2
  {
    var rows := MixedFrame();
    assert rows[0].row.customer == "Ann" && rows[2].row.customer == "Bob";
    forall n | n in Clients(rows) ensures n == "Ann" || n == "Bob" {
      var k :| 0 <= k < 4 && rows[k].row.customer == n;
    }
    assert "Ann" != "Bob";
  }

  lemma MixedRowCounts()
    ensures CountRows(MixedFrame(), Monoline) == 2 && CountRows(MixedFrame(), CrossSold) == 2
  {
    var rows := MixedFrame();
    assert rows[3..][1..] == [] && rows[2..][1..] == rows[3..] && rows[1..][1..] == rows[2..];
    assert CountRows(rows[3..], Monoline) == 1 && CountRows(rows[3..], CrossSold) == 0;
    assert CountRows(rows[2..], Monoline) == 2 && CountRows(rows[2..], CrossSold) == 0;
    assert CountRows(rows[1..], Monoline) == 2 && CountRows(rows[1..], CrossSold) == 1;
  }

  /** As written, the mixed division has two clients, two monoline rows and two cross-sold rows: 100% monoline. */
  lemma MixedAsWritten()
    ensures "North" in Divisions(MixedFrame())
    ensures SummaryAsWritten(MixedFrame(), "North") == DivisionSummary(2, 2, 2, 100.0, 0.0)
  {
    assert 2 as real / 2 as real * 100.0 == 100.0;
    var rows := MixedFrame();
    assert rows[0].row.division == "North";
    MixedDivisionRows();
    MixedClients();
    MixedRowCounts();
    AsWrittenOf(rows, "North", 2, 2, 2);
  }

  lemma MixedFirstRows()
    ensures "Ann" in Clients(MixedFrame()) && "Bob" in Clients(MixedFrame())
    ensures FirstRowOf(MixedFrame(), "Ann").accountType == CrossSold
    ensures FirstRowOf(MixedFrame(), "Bob").accountType == Monoline
  {
    var rows := MixedFrame();
    MixedClients();
    assert FirstRowOf(rows, "Ann") == rows[0];
    assert rows[1..][1..] == rows[2..];
    assert FirstRowOf(rows[2..], "Bob") == rows[2] by {
      assert rows[2..][0] == rows[2];
    }
  }

  /** Per customer, the mixed division has one monoline and one cross-sold client: 50% each. */
  lemma MixedPerCustomer()
    ensures Summary(MixedFrame(), "North") == DivisionSummary(2, 1, 1, 50.0, 50.0)
  {
    assert Percent(1, 2) == 50.0;
    MixedDivisionRows();
    MixedClients();
    MixedCustomerTypes();
    PerCustomerOf(MixedFrame(), "North", 2, 1, 1);
  }

  lemma MixedCustomerTypes()
    ensures |CustomersOfType(MixedFrame(), AgencyLevel, Monoline)| == 1
    ensures |CustomersOfType(MixedFrame(), AgencyLevel, CrossSold)| == 1
  {
    var rows := MixedFrame();
    MixedClients();
    MixedFirstRows();
    assert CustomersOfType(rows, AgencyLevel, Monoline) == {"Bob"};
    assert CustomersOfType(rows, AgencyLevel, CrossSold) == {"Ann"};
  }

  /** The as-written summary row from its three counts. */
  lemma AsWrittenOf(rows: seq<ClassifiedRow>, d: string, total: nat, mono: nat, cross: nat)
    requires d in Divisions(rows) && total > 0
    requires |Clients(DivisionRows(rows, d))| == total
    requires CountRows(DivisionRows(rows, d), Monoline) == mono && CountRows(DivisionRows(rows, d), CrossSold) == cross
    ensures SummaryAsWritten(rows, d)
         == DivisionSummary(total, mono, cross, mono as real / total as real * 100.0, 100.0 - mono as real / total as real * 100.0)
  {
  }

  /** The per-customer summary row from its three counts. */
  lemma PerCustomerOf(rows: seq<ClassifiedRow>, d: string, total: nat, mono: nat, cross: nat)
    requires |Clients(DivisionRows(rows, d))| == total
    requires |CustomersOfType(DivisionRows(rows, d), AgencyLevel, Monoline)| == mono
    requires |CustomersOfType(DivisionRows(rows, d), AgencyLevel, CrossSold)| == cross
    ensures Summary(rows, d) == DivisionSummary(total, mono, cross, Percent(mono, total), Percent(cross, total))
  {
  }

  // ----- per-customer counting -----

  /** The first row of customer `n`: what `groupby("Customer Name")[...].first()` picks up. */
  function FirstRowOf(rows: seq<ClassifiedRow>, n: string): (r: ClassifiedRow)
    requires n in Clients(rows)
    ensures r in rows && r.row.customer == n
    ensures exists k :: 0 <= k < |rows| && rows[k] == r && forall j :: 0 <= j < k ==> rows[j].row.customer != n
    decreases |rows|
  {
    if rows[0].row.customer == n then rows[0]
    else
      assert n in Clients(rows[1..]) by {
        var k :| 0 <= k < |rows| && rows[k].row.customer == n;
        assert rows[1..][k - 1] == rows[k];
      }
      var r := FirstRowOf(rows[1..], n);
      assert exists k :: 0 <= k < |rows| && rows[k] == r && forall j :: 0 <= j < k ==> rows[j].row.customer != n by {
        var k :| 0 <= k < |rows[1..]| && rows[1..][k] == r && forall j :: 0 <= j < k ==> rows[1..][j].row.customer != n;
        assert rows[k + 1] == r;
        forall j | 0 <= j < k + 1 ensures rows[j].row.customer != n {
          if j > 0 { assert rows[j] == rows[1..][j - 1]; }
        }
      }
      r
  }

  /**
   * No type has more customers than rows: each customer counted under `t` by the first of
   * its rows contributes that row to the row count of `t`.
   */
  lemma {:induction false} CustomersAtMostRows(rows: seq<ClassifiedRow>, t: AccountType)
    ensures |CustomersOfType(rows, AgencyLevel, t)| <= CountRows(rows, t)
    decreases |rows|
  {
    if rows != [] {
      var rest := rows[1..];
      var head: set<string> := if rows[0].accountType == t then {rows[0].row.customer} else {};
      CustomersAtMostRows(rest, t);
      var s, s' := CustomersOfType(rows, AgencyLevel, t), CustomersOfType(rest, AgencyLevel, t);
      forall n | n in s ensures n in s' + head {
        if n != rows[0].row.customer {
          assert n in Clients(rest) by {
            var k :| 0 <= k < |rows| && rows[k].row.customer == n;
            assert rest[k - 1] == rows[k];
          }
        }
      }
      SubsetSize(s, s' + head);
    } else {
      assert CustomersOfType(rows, AgencyLevel, t) == {};
    }
  }

  /** The customers whose first row carries type `t` at `level`: `.first().value_counts()`. */
  function CustomersOfType(rows: seq<ClassifiedRow>, level: Level, t: AccountType): set<string> {
    set n | n in Clients(rows) && TypeAt(FirstRowOf(rows, n), level) == t
  }

  /** The five numbers app.py:117-124 computes for the selected division. */
  datatype Counts = Counts(
    totalClients: nat, totalMonoline: nat, totalCrossSold: nat, totalCarrierMono: nat, totalCarrierCross: nat)

  function CustomerCounts(rows: seq<ClassifiedRow>): Counts {
    Counts(|Clients(rows)|,
           |CustomersOfType(rows, AgencyLevel, Monoline)|, |CustomersOfType(rows, AgencyLevel, CrossSold)|,
           |CustomersOfType(rows, CarrierLevel, Monoline)|, |CustomersOfType(rows, CarrierLevel, CrossSold)|)
  }

  /** Each customer is counted exactly once at each level. */
  lemma CustomerCountsPartition(rows: seq<ClassifiedRow>)
    ensures var c := CustomerCounts(rows);
            && c.totalMonoline + c.totalCrossSold == c.totalClients
            && c.totalCarrierMono + c.totalCarrierCross == c.totalClients
  {
    LevelPartition(rows, AgencyLevel);
    LevelPartition(rows, CarrierLevel);
  }

  lemma LevelPartition(rows: seq<ClassifiedRow>, level: Level)
    ensures |CustomersOfType(rows, level, Monoline)| + |CustomersOfType(rows, level, CrossSold)| == |Clients(rows)|
  {
    var m, x := CustomersOfType(rows, level, Monoline), CustomersOfType(rows, level, CrossSold);
    assert m !! x;
    assert m + x == Clients(rows);
  }

  /**
   * On frames the classifier produced, the per-customer counts of any division count each
   * customer by the classification of all the customer's rows in the whole frame.
   */
  lemma CountsUseWholeFrameClassification(filtered: seq<Row>, d: string, t: AccountType)
    ensures var dr := DivisionRows(Classify(filtered), d);
            && CustomersOfType(dr, AgencyLevel, t) == (set n | n in Clients(dr) && AgencyType(filtered, n) == t)
            && CustomersOfType(dr, CarrierLevel, t) == (set n | n in Clients(dr) && CarrierType(filtered, n) == t)
  {
    var c := Classify(filtered);
    var dr := DivisionRows(c, d);
    forall n | n in Clients(dr)
      ensures FirstRowOf(dr, n).accountType == AgencyType(filtered, n)
      ensures FirstRowOf(dr, n).carrierType == CarrierType(filtered, n)
    {
      var r := FirstRowOf(dr, n);
      assert r in c;
      var k :| 0 <= k < |c| && c[k] == r;
    }
  }

  /** In any division there are no more carrier-level cross-sold customers than agency-level ones. */
  lemma CarrierCrossAtMostAgencyCross(filtered: seq<Row>, d: string)
    ensures var c := CustomerCounts(DivisionRows(Classify(filtered), d));
            c.totalCarrierCross <= c.totalCrossSold && c.totalMonoline <= c.totalCarrierMono
  {
    var dr := DivisionRows(Classify(filtered), d);
    var cc, ac := CustomersOfType(dr, CarrierLevel, CrossSold), CustomersOfType(dr, AgencyLevel, CrossSold);
    var am, cm := CustomersOfType(dr, AgencyLevel, Monoline), CustomersOfType(dr, CarrierLevel, Monoline);
    forall n | n in cc ensures n in ac {
      assert FirstRowOf(dr, n) in Classify(filtered);
    }
    forall n | n in am ensures n in cm {
      assert FirstRowOf(dr, n) in Classify(filtered);
    }
    SubsetSize(cc, ac);
    SubsetSize(am, cm);
  }

  // ----- percentages and the per-customer summary -----

  /** `part / total * 100`, and 0.0 when `total` is 0. */
  function Percent(part: nat, total: nat): real {
    if total == 0 then 0.0 else part as real / total as real * 100.0
  }

  /** An unguarded share `part / total * 100` is never negative, and exceeds 100 exactly when the part exceeds the whole. */
  lemma ShareBounds(part: nat, total: nat)
    requires total > 0
    ensures 0.0 <= part as real / total as real * 100.0
    ensures part > total <==> part as real / total as real * 100.0 > 100.0
  {
    if part > total {
      assert part as real / total as real > 1.0;
    } else {
      assert part as real / total as real <= 1.0;
    }
  }

  /**
   * The percentages of the as-written summary leave [0, 100] exactly when the division
   * has more monoline rows than clients: `% Monoline` is never negative and exceeds 100
   * then, and `% Cross-Sold` is at most 100 and is negative then.
   */
  lemma SummaryAsWrittenShares(rows: seq<ClassifiedRow>, d: string)
    requires d in Divisions(rows)
    ensures var s := SummaryAsWritten(rows, d);
            && 0.0 <= s.pctMonoline && s.pctCrossSold <= 100.0
            && (s.pctMonoline > 100.0 <==> s.monoline > s.totalClients)
            && (s.pctCrossSold < 0.0 <==> s.monoline > s.totalClients)
  {
    var dr := DivisionRows(rows, d);
    SummaryAsWrittenBalance(rows, d);
    AsWrittenOf(rows, d, |Clients(dr)|, CountRows(dr, Monoline), CountRows(dr, CrossSold));
    ShareBounds(CountRows(dr, Monoline), |Clients(dr)|);
  }

  /** A share of a whole is between 0 and 100 percent; two shares that make up the whole add to 100. */
  lemma PercentBounds(part: nat, other: nat, total: nat)
    requires part + other == total
    ensures 0.0 <= Percent(part, total) <= 100.0
    ensures total > 0 ==> Percent(part, total) + Percent(other, total) == 100.0
    ensures total == 0 ==> Percent(part, total) == 0.0 && Percent(other, total) == 0.0
  {
    if total > 0 {
      var t := total as real;
      assert part as real / t + other as real / t == (part + other) as real / t;
      assert part as real / t <= 1.0;
    }
  }

  /**
   * A division of ten clients, seven of them monoline: three are cross-sold, and the
   * per-customer summary reports 70% and 30%.
   */
  lemma ExampleSeventyThirty(rows: seq<ClassifiedRow>, d: string)
    requires Summary(rows, d).totalClients == 10 && Summary(rows, d).monoline == 7
    ensures var s := Summary(rows, d);
            s.crossSold == 3 && s.pctMonoline == 70.0 && s.pctCrossSold == 30.0
            && s.pctCrossSold == 100.0 - s.pctMonoline
  {
    CustomerCountsPartition(DivisionRows(rows, d));
  }

  /**
   * The as-written summary of a division of ten clients whose rows include seven
   * monoline ones: 70% monoline and 30% cross-sold, whatever the cross-sold row count.
   */
  lemma ExampleSeventyThirtyAsWritten(rows: seq<ClassifiedRow>, d: string)
    requires d in Divisions(rows)
    requires SummaryAsWritten(rows, d).totalClients == 10 && SummaryAsWritten(rows, d).monoline == 7
    ensures var s := SummaryAsWritten(rows, d);
            s.pctMonoline == 70.0 && s.pctCrossSold == 30.0
  {
  }

  /**
   * One row of the division summary counted per customer, each customer by the account
   * type of its first row, with the zero-client guard on both percentages.
   */
  function Summary(rows: seq<ClassifiedRow>, d: string): DivisionSummary {
    var c := CustomerCounts(DivisionRows(rows, d));
    DivisionSummary(c.totalClients, c.totalMonoline, c.totalCrossSold,
                    Percent(c.totalMonoline, c.totalClients), Percent(c.totalCrossSold, c.totalClients))
  }

  /** The division summary, keyed by division. */
  function AgencySummary(rows: seq<ClassifiedRow>): (m: map<string, DivisionSummary>)
    ensures m.Keys == Divisions(rows)
  {
    map d | d in Divisions(rows) :: Summary(rows, d)
  }

  /**
   * The per-customer summary keeps the arithmetic the report relies on: monoline and
   * cross-sold partition the clients, both percentages lie in [0, 100], they add to 100
   * for a division with clients, and a division that is a group key has clients.
   */
  lemma SummaryConsistent(rows: seq<ClassifiedRow>, d: string)
    ensures var s := Summary(rows, d);
            && s.monoline + s.crossSold == s.totalClients
            && 0.0 <= s.pctMonoline <= 100.0 && 0.0 <= s.pctCrossSold <= 100.0
            && (s.totalClients > 0 ==> s.pctCrossSold == 100.0 - s.pctMonoline)
            && (s.totalClients == 0 ==> s.pctMonoline == 0.0 && s.pctCrossSold == 0.0)
            && (d in Divisions(rows) ==> s.totalClients >= 1)
  {
    var dr := DivisionRows(rows, d);
    var c := CustomerCounts(dr);
    CustomerCountsPartition(dr);
    PercentBounds(c.totalMonoline, c.totalCrossSold, c.totalClients);
    PercentBounds(c.totalCrossSold, c.totalMonoline, c.totalClients);
    if d in Divisions(rows) {
      var k :| 0 <= k < |rows| && rows[k].row.division == d;
      assert rows[k] in dr;
      ClientsAtMostRows(dr);
    }
  }

  // ----- the selected division -----

  datatype Selection =
    | NotSelected        // `if selected_agency:` is false for an empty name
    | NoData             // the division has no rows: "No cross-sell or monoline data available"
    | Selected(counts: Counts)

  /** app.py:109-124 for the division `d` chosen in the select box. */
  function SelectDivision(rows: seq<ClassifiedRow>, d: string): (s: Selection)
    ensures s.Selected? ==> s.counts.totalClients >= 1
  {
    if d == "" then NotSelected
    else
      var dr := DivisionRows(rows, d);
      if dr == [] then NoData
      else
        ClientsAtMostRows(dr);
        Selected(CustomerCounts(dr))
  }

  /**
   * The selected division's agency counts against its as-written summary row, which the
   * report shows beside them: both count the same clients, but each as-written count of
   * monoline or cross-sold rows is at least the number of such customers.
   */
  lemma SelectedAgainstAsWritten(rows: seq<ClassifiedRow>, d: string)
    requires d != "" && d in Divisions(rows)
    ensures SelectDivision(rows, d).Selected?
    ensures var c := SelectDivision(rows, d).counts;
            var s := SummaryAsWritten(rows, d);
            && c.totalClients == s.totalClients
            && s.monoline >= c.totalMonoline
            && s.crossSold >= c.totalCrossSold
  {
    var dr := DivisionRows(rows, d);
    var k :| 0 <= k < |rows| && rows[k].row.division == d;
    assert rows[k] in dr;
    CustomersAtMostRows(dr, Monoline);
    CustomersAtMostRows(dr, CrossSold);
  }

  /** A non-empty division name is reported exactly when it is a division of the frame. */
  lemma SelectDivisionIff(rows: seq<ClassifiedRow>, d: string)
    requires d != ""
    ensures SelectDivision(rows, d).Selected? <==> d in Divisions(rows)
    ensures SelectDivision(rows, d).Selected? ==>
              SelectDivision(rows, d).counts.totalMonoline == Summary(rows, d).monoline
              && SelectDivision(rows, d).counts.totalCrossSold == Summary(rows, d).crossSold
  {
    var dr := DivisionRows(rows, d);
    if d in Divisions(rows) {
      var k :| 0 <= k < |rows| && rows[k].row.division == d;
      assert rows[k] in dr;
    }
    if dr != [] {
      assert dr[0] in rows;
      var k :| 0 <= k < |rows| && rows[k] == dr[0];
    }
  }
}
