/** The line-of-business filter (app.py:82-84). */
module LobFilter {
  import opened Records

  /** The three lines the analysis keeps, matched by exact string equality. */
  const AllowedLines: set<string> := {"Homeowners", "Private Passenger Auto", "Mobile Homeowners"}

  /** `df[df["Line of Business/Non-Premium"].isin([...])]`: the allowed rows, in their original order. */
  function FilterLob(rows: seq<Row>): (r: seq<Row>)
    ensures |r| <= |rows|
    ensures forall x :: x in r <==> x in rows && x.lob in AllowedLines
  {
    if rows == [] then []
    else (if rows[0].lob in AllowedLines then [rows[0]] else []) + FilterLob(rows[1..])
  }

  /** Filtering a concatenation filters each part and keeps their order. */
  lemma {:induction false} FilterLobAppend(a: seq<Row>, b: seq<Row>)
    ensures FilterLob(a + b) == FilterLob(a) + FilterLob(b)
    decreases |a|
  {
    if a != [] {
      assert (a + b)[1..] == a[1..] + b;
      FilterLobAppend(a[1..], b);
    } else {
      assert a + b == b;
    }
  }

  /** Each allowed row keeps its multiplicity and every other row is dropped. */
  lemma {:induction false} FilterLobCounts(rows: seq<Row>, x: Row)
    ensures multiset(FilterLob(rows))[x] == if x.lob in AllowedLines then multiset(rows)[x] else 0
    decreases |rows|
  {
    if rows != [] {
      assert rows == [rows[0]] + rows[1..];
      FilterLobCounts(rows[1..], x);
    }
  }

  /** Filtering filtered rows changes nothing. */
  lemma {:induction false} FilterLobIdempotent(rows: seq<Row>)
    ensures FilterLob(FilterLob(rows)) == FilterLob(rows)
    decreases |rows|
  {
    if rows != [] {
      var head := if rows[0].lob in AllowedLines then [rows[0]] else [];
      FilterLobAppend(head, FilterLob(rows[1..]));
      FilterLobIdempotent(rows[1..]);
    }
  }
}
