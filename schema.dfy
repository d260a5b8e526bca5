/**
 * Header normalisation (app.py:62-76): headers are stripped, then, for each canonical
 * column in order, the first of its aliases present among the headers is renamed to the
 * canonical name; and the required-column gate (app.py:78-79).
 */
module Schema {
  import opened Text

  datatype Option<T> = None | Some(value: T)

  /** One entry of the column map: the canonical name and its aliases, in priority order. */
  datatype Field = Field(canonical: string, aliases: seq<string>)

  /** The column map, in the order the source iterates it (a Python dict keeps insertion order). */
  const ColumnMap: seq<Field> := [
    Field("Division", ["Division", "Agency", "Agency Name", "Policy Division"]),
    Field("Customer Name", ["Customer Name", "Client Name"]),
    Field("Line of Business/Non-Premium", ["Line of Business/Non-Premium", "Line of Business"]),
    Field("Carrier", ["Carrier", "Parent Company"]),
    Field("Policy Number", ["Policy Number"])
  ]

  /** The columns every later stage needs. */
  const Required: seq<string> :=
    ["Division", "Customer Name", "Line of Business/Non-Premium", "Carrier", "Policy Number"]

  /** `df.columns.str.strip()` */
  function StripAll(raw: seq<string>): seq<string> {
    seq(|raw|, k requires 0 <= k < |raw| => Strip(raw[k]))
  }

  /** The first alias, in list order, that is among the headers (the inner loop with `break`). */
  function FirstPresent(aliases: seq<string>, cols: seq<string>): (r: Option<string>)
    ensures r.None? <==> forall k :: 0 <= k < |aliases| ==> aliases[k] !in cols
    ensures r.Some? ==> exists k :: 0 <= k < |aliases| && aliases[k] == r.value && r.value in cols
                           && forall j :: 0 <= j < k ==> aliases[j] !in cols
  {
    if aliases == [] then None
    else if aliases[0] in cols then Some(aliases[0])
    else
      var r := FirstPresent(aliases[1..], cols);
      assert r.Some? ==> exists k :: 0 <= k < |aliases| && aliases[k] == r.value && r.value in cols
                           && forall j :: 0 <= j < k ==> aliases[j] !in cols by {
        if r.Some? {
          var k :| 0 <= k < |aliases[1..]| && aliases[1..][k] == r.value && r.value in cols
                   && forall j :: 0 <= j < k ==> aliases[1..][j] !in cols;
          assert forall j :: 0 <= j < k + 1 ==> aliases[j] !in cols by {
            forall j | 0 <= j < k + 1 ensures aliases[j] !in cols {
              if j > 0 { assert aliases[j] == aliases[1..][j - 1]; }
            }
          }
        }
      }
      r
  }

  /** `df.rename(columns={from: to})`: every header equal to `from` becomes `to`. */
  function RenameAll(cols: seq<string>, from: string, to: string): seq<string> {
    seq(|cols|, k requires 0 <= k < |cols| => if cols[k] == from then to else cols[k])
  }

  /** One iteration of the outer loop: rename the first present alias of `f`, if any. */
  function ApplyField(cols: seq<string>, f: Field): seq<string> {
    match FirstPresent(f.aliases, cols)
    case None => cols
    case Some(a) => RenameAll(cols, a, f.canonical)
  }

  /** The outer loop over the column map, first entry first. */
  function ApplyFields(cols: seq<string>, fs: seq<Field>): (r: seq<string>)
    ensures |r| == |cols|
    decreases |fs|
  {
    if fs == [] then cols else ApplyFields(ApplyField(cols, fs[0]), fs[1..])
  }

  /** The headers after app.py:62-76. */
  function NormalizeHeaders(raw: seq<string>): (r: seq<string>)
    ensures |r| == |raw|
  {
    ApplyFields(StripAll(raw), ColumnMap)
  }

  /** `all(col in df.columns for col in required_cols)`, one membership test per required column. */
  predicate HasRequired(cols: seq<string>) {
    && "Division" in cols && "Customer Name" in cols && "Line of Business/Non-Premium" in cols
    && "Carrier" in cols && "Policy Number" in cols
  }

  /** The five tests are the `all` over the required list. */
  lemma HasRequiredIff(cols: seq<string>)
    ensures HasRequired(cols) <==> forall k :: 0 <= k < |Required| ==> Required[k] in cols
  {
    if HasRequired(cols) {
      forall k | 0 <= k < |Required| ensures Required[k] in cols {
        assert k == 0 || k == 1 || k == 2 || k == 3 || k == 4;
      }
    }
    if forall k :: 0 <= k < |Required| ==> Required[k] in cols {
      assert Required[0] in cols && Required[1] in cols && Required[2] in cols;
      assert Required[3] in cols && Required[4] in cols;
    }
  }

  /**
   * The header normalisation as the source performs it: strip, then for each canonical
   * name scan its aliases and rename the first one present, leaving the inner loop.
   */
  method NormalizeColumns(raw: seq<string>) returns (cols: seq<string>)
    ensures cols == NormalizeHeaders(raw)
  {
    cols := StripAll(raw);
    var f := 0;
    while f < |ColumnMap|
      invariant 0 <= f <= |ColumnMap|
      invariant ApplyFields(cols, ColumnMap[f..]) == NormalizeHeaders(raw)
    {
      var std, variants := ColumnMap[f].canonical, ColumnMap[f].aliases;
      ghost var before := cols;
      var v := 0;
      while v < |variants|
        invariant 0 <= v <= |variants|
        invariant cols == before
        invariant FirstPresent(variants, before) == FirstPresent(variants[v..], before)
      {
        if variants[v] in cols {
          cols := RenameAll(cols, variants[v], std);
          assert cols == ApplyField(before, ColumnMap[f]);
          break;
        }
        assert variants[v..][1..] == variants[v + 1..];
        v := v + 1;
      }
      assert cols == ApplyField(before, ColumnMap[f]);
      assert ColumnMap[f..][1..] == ColumnMap[f + 1..];
      f := f + 1;
    }
  }

  // ----- what the renaming means -----

  function AliasSet(f: Field): set<string> {
    set x | x in f.aliases
  }

  /**
   * The shape of the column map the rename rule relies on: each canonical name is its own
   * first alias, and no header is an alias of two canonical columns.
   */
  ghost predicate WellFormed(fs: seq<Field>) {
    && (forall j :: 0 <= j < |fs| ==> fs[j].aliases != [] && fs[j].aliases[0] == fs[j].canonical)
    && (forall j, k :: 0 <= j < k < |fs| ==> AliasSet(fs[j]) !! AliasSet(fs[k]))
  }

  lemma ColumnMapWellFormed()
    ensures WellFormed(ColumnMap)
    ensures forall f :: f in ColumnMap ==> Trimmed(f.canonical)
  {
    ColumnMapDisjoint();
    ColumnMapCanonicalsTrimmed();
  }

  /** The required columns are the canonical names, in map order. */
  lemma RequiredAreCanonical()
    ensures |ColumnMap| == |Required| && forall k :: 0 <= k < |Required| ==> Required[k] == ColumnMap[k].canonical
  {
  }

  lemma ColumnMapDisjoint()
    ensures forall j, k :: 0 <= j < k < |ColumnMap| ==> AliasSet(ColumnMap[j]) !! AliasSet(ColumnMap[k])
  {
    var s0, s1, s2, s3, s4 := AliasSet(ColumnMap[0]), AliasSet(ColumnMap[1]), AliasSet(ColumnMap[2]),
                              AliasSet(ColumnMap[3]), AliasSet(ColumnMap[4]);
    assert s0 == {"Division", "Agency", "Agency Name", "Policy Division"};
    assert s1 == {"Customer Name", "Client Name"};
    assert s2 == {"Line of Business/Non-Premium", "Line of Business"};
    assert s3 == {"Carrier", "Parent Company"};
    assert s4 == {"Policy Number"};
    assert s0 !! s1 && s0 !! s2 && s0 !! s3 && s0 !! s4;
    assert s1 !! s2 && s1 !! s3 && s1 !! s4;
    assert s2 !! s3 && s2 !! s4 && s3 !! s4;
  }

  lemma ColumnMapCanonicalsTrimmed()
    ensures forall f :: f in ColumnMap ==> Trimmed(f.canonical)
  {
    forall f | f in ColumnMap ensures Trimmed(f.canonical) {
      var s := f.canonical;
      assert s[0] in "DCLP" && s[|s| - 1] in "nemr";
    }
  }

  /** The canonical column whose alias list contains `h`, if any. */
  function FieldFor(fs: seq<Field>, h: string): (r: Option<Field>)
    ensures r.None? <==> forall k :: 0 <= k < |fs| ==> h !in fs[k].aliases
    ensures r.Some? ==> r.value in fs && h in r.value.aliases
  {
    if fs == [] then None
    else if h in fs[0].aliases then Some(fs[0])
    else
      var r := FieldFor(fs[1..], h);
      assert r.None? ==> forall k :: 0 <= k < |fs| ==> h !in fs[k].aliases by {
        if r.None? {
          forall k | 0 <= k < |fs| ensures h !in fs[k].aliases {
            if k > 0 { assert fs[k] == fs[1..][k - 1]; }
          }
        }
      }
      r
  }

  /**
   * Reference definition of the rename rule for one header `h` of `cols`: a header that is
   * an alias of some canonical column becomes that canonical name exactly when it is the
   * first alias of the column present in `cols`; every other header is left alone.
   */
  function Resolved(cols: seq<string>, fs: seq<Field>, h: string): string {
    match FieldFor(fs, h)
    case None => h
    case Some(f) => if FirstPresent(f.aliases, cols) == Some(h) then f.canonical else h
  }

  lemma FieldForUnique(fs: seq<Field>, f: Field, h: string)
    requires WellFormed(fs) && f in fs && h in f.aliases
    ensures FieldFor(fs, h) == Some(f)
  {
    var g := FieldFor(fs, h).value;
    var j :| 0 <= j < |fs| && fs[j] == f;
    var k :| 0 <= k < |fs| && fs[k] == g;
    assert h in AliasSet(fs[j]) && h in AliasSet(fs[k]);
  }

  lemma WellFormedTail(fs: seq<Field>)
    requires WellFormed(fs) && fs != []
    ensures WellFormed(fs[1..])
  {
    forall j, k | 0 <= j < k < |fs| - 1 ensures AliasSet(fs[1..][j]) !! AliasSet(fs[1..][k]) {
      assert fs[1..][j] == fs[j + 1] && fs[1..][k] == fs[k + 1];
    }
  }

  /** An alias of the first column is an alias of no later column. */
  lemma NotInLater(fs: seq<Field>, x: string)
    requires WellFormed(fs) && fs != [] && x in fs[0].aliases
    ensures FieldFor(fs[1..], x).None?
  {
    forall k | 0 <= k < |fs| - 1 ensures x !in fs[1..][k].aliases {
      assert AliasSet(fs[0]) !! AliasSet(fs[k + 1]);
      assert x in AliasSet(fs[0]);
    }
  }

  lemma {:induction false} FirstPresentSame(aliases: seq<string>, c1: seq<string>, c2: seq<string>)
    requires forall k :: 0 <= k < |aliases| ==> (aliases[k] in c1 <==> aliases[k] in c2)
    ensures FirstPresent(aliases, c1) == FirstPresent(aliases, c2)
    decreases |aliases|
  {
    if aliases != [] {
      assert aliases[0] in c1 <==> aliases[0] in c2;
      forall k | 0 <= k < |aliases[1..]| ensures aliases[1..][k] in c1 <==> aliases[1..][k] in c2 {
        assert aliases[1..][k] == aliases[k + 1];
      }
      FirstPresentSame(aliases[1..], c1, c2);
    }
  }

  /** Renaming an alias of `f0` changes neither the presence of a header outside `f0`'s aliases. */
  lemma PresenceKept(cols: seq<string>, f0: Field, x: string)
    requires f0.aliases != [] && f0.aliases[0] == f0.canonical && x !in f0.aliases
    ensures x in ApplyField(cols, f0) <==> x in cols
  {
    var c := ApplyField(cols, f0);
    match FirstPresent(f0.aliases, cols)
    case None =>
    case Some(a) =>
      assert x != a && x != f0.canonical;
      if x in cols {
        var k :| 0 <= k < |cols| && cols[k] == x;
        assert c[k] == x;
      }
      if x in c {
        var k :| 0 <= k < |c| && c[k] == x;
        assert cols[k] == x;
      }
  }

  /** The rename rule, position by position, for any well-formed column map. */
  lemma {:induction false} ApplyFieldsAt(cols: seq<string>, fs: seq<Field>, i: int)
    requires WellFormed(fs) && 0 <= i < |cols|
    ensures ApplyFields(cols, fs)[i] == Resolved(cols, fs, cols[i])
    decreases |fs|
  {
    if fs != [] {
      var c := ApplyField(cols, fs[0]);
      WellFormedTail(fs);
      ApplyFieldsAt(c, fs[1..], i);
      FirstStep(cols, fs, i);
    }
  }

  /** Resolving after the first column's rename agrees with resolving before it. */
  lemma FirstStep(cols: seq<string>, fs: seq<Field>, i: int)
    requires WellFormed(fs) && fs != [] && 0 <= i < |cols|
    ensures Resolved(ApplyField(cols, fs[0]), fs[1..], ApplyField(cols, fs[0])[i]) == Resolved(cols, fs, cols[i])
  {
    var f0 := fs[0];
    var c := ApplyField(cols, f0);
    var h := cols[i];
    if h in f0.aliases {
      assert c[i] in f0.aliases;
      NotInLater(fs, c[i]);
    } else {
      assert c[i] == h;
      assert FieldFor(fs, h) == FieldFor(fs[1..], h);
      match FieldFor(fs[1..], h)
      case None =>
      case Some(f) =>
        LaterPresenceKept(cols, fs, f);
    }
  }

  /** Renaming the first column's alias does not change which alias of a later column is first present. */
  lemma LaterPresenceKept(cols: seq<string>, fs: seq<Field>, f: Field)
    requires WellFormed(fs) && fs != [] && f in fs[1..]
    ensures FirstPresent(f.aliases, ApplyField(cols, fs[0])) == FirstPresent(f.aliases, cols)
  {
    var f0 := fs[0];
    var c := ApplyField(cols, f0);
    var k :| 0 <= k < |fs[1..]| && fs[1..][k] == f;
    assert AliasSet(fs[0]) !! AliasSet(fs[k + 1]);
    forall j | 0 <= j < |f.aliases| ensures f.aliases[j] in c <==> f.aliases[j] in cols {
      assert f.aliases[j] in AliasSet(f);
      PresenceKept(cols, f0, f.aliases[j]);
    }
    FirstPresentSame(f.aliases, c, cols);
  }

  /** The rename rule for the headers of the source's column map. */
  lemma NormalizeHeadersAt(raw: seq<string>, i: int)
    requires 0 <= i < |raw|
    ensures NormalizeHeaders(raw)[i] == Resolved(StripAll(raw), ColumnMap, Strip(raw[i]))
  {
    ColumnMapWellFormed();
    ApplyFieldsAt(StripAll(raw), ColumnMap, i);
  }

  /** A header that is in no alias list comes out stripped and otherwise unchanged. */
  lemma UnlistedHeaderKept(raw: seq<string>, i: int)
    requires 0 <= i < |raw|
    requires forall f :: f in ColumnMap ==> Strip(raw[i]) !in f.aliases
    ensures NormalizeHeaders(raw)[i] == Strip(raw[i])
  {
    NormalizeHeadersAt(raw, i);
  }

  lemma CanonicalIsAlias(fs: seq<Field>, f: Field)
    requires WellFormed(fs) && f in fs
    ensures f.aliases != [] && f.aliases[0] == f.canonical && f.canonical in f.aliases
  {
    var j :| 0 <= j < |fs| && fs[j] == f;
  }

  /** The canonical name of one column is not an alias of another. */
  lemma CanonicalsDistinct(fs: seq<Field>, f: Field, g: Field)
    requires WellFormed(fs) && f in fs && g in fs && f != g
    ensures f.canonical !in g.aliases
  {
    CanonicalIsAlias(fs, f);
    var j :| 0 <= j < |fs| && fs[j] == f;
    var k :| 0 <= k < |fs| && fs[k] == g;
    assert f.canonical in AliasSet(f);
    if j < k {
      assert AliasSet(fs[j]) !! AliasSet(fs[k]);
    } else {
      assert AliasSet(fs[k]) !! AliasSet(fs[j]);
    }
  }

  lemma CanonicalIffAt(cols: seq<string>, fs: seq<Field>, f: Field, i: int)
    requires WellFormed(fs) && f in fs && 0 <= i < |cols|
    ensures ApplyFields(cols, fs)[i] == f.canonical
        <==> cols[i] in f.aliases && FirstPresent(f.aliases, cols) == Some(cols[i])
  {
    ApplyFieldsAt(cols, fs, i);
    CanonicalIsAlias(fs, f);
    var h := cols[i];
    if h in f.aliases {
      FieldForUnique(fs, f, h);
    } else {
      match FieldFor(fs, h)
      case None =>
      case Some(g) =>
        CanonicalsDistinct(fs, g, f);
    }
  }

  lemma CanonicalPresentIffAt(cols: seq<string>, fs: seq<Field>, f: Field)
    requires WellFormed(fs) && f in fs
    ensures f.canonical in ApplyFields(cols, fs)
        <==> exists k :: 0 <= k < |f.aliases| && f.aliases[k] in cols
  {
    var n := ApplyFields(cols, fs);
    if f.canonical in n {
      var i :| 0 <= i < |n| && n[i] == f.canonical;
      CanonicalIffAt(cols, fs, f, i);
      var k :| 0 <= k < |f.aliases| && f.aliases[k] == cols[i];
    }
    if exists k :: 0 <= k < |f.aliases| && f.aliases[k] in cols {
      var a := FirstPresent(f.aliases, cols).value;
      var i :| 0 <= i < |cols| && cols[i] == a;
      CanonicalIffAt(cols, fs, f, i);
    }
  }

  lemma IdempotentAt(cols: seq<string>, fs: seq<Field>)
    requires WellFormed(fs)
    ensures ApplyFields(ApplyFields(cols, fs), fs) == ApplyFields(cols, fs)
  {
    var n := ApplyFields(cols, fs);
    forall i | 0 <= i < |n| ensures ApplyFields(n, fs)[i] == n[i] {
      ApplyFieldsAt(n, fs, i);
      ApplyFieldsAt(cols, fs, i);
      var h := cols[i];
      match FieldFor(fs, h)
      case None =>
      case Some(g) =>
        CanonicalIsAlias(fs, g);
        if FirstPresent(g.aliases, cols) == Some(h) {
          FieldForUnique(fs, g, g.canonical);
          assert g.aliases[0] in n;
        } else {
          var k :| 0 <= k < |g.aliases| && g.aliases[k] == h;
          CanonicalPresentIffAt(cols, fs, g);
          assert g.aliases[0] in n;
        }
    }
  }

  lemma FixedAt(cols: seq<string>, fs: seq<Field>)
    requires WellFormed(fs)
    requires forall i :: 0 <= i < |cols| ==> exists f :: f in fs && f.canonical == cols[i]
    ensures ApplyFields(cols, fs) == cols
  {
    forall i | 0 <= i < |cols| ensures ApplyFields(cols, fs)[i] == cols[i] {
      ApplyFieldsAt(cols, fs, i);
      var g :| g in fs && g.canonical == cols[i];
      CanonicalIsAlias(fs, g);
      FieldForUnique(fs, g, cols[i]);
    }
  }

  /**
   * A header becomes the canonical name of `f` exactly when it is an alias of `f` and the
   * first of `f`'s aliases present: no other alias of `f` is ever renamed.
   */
  lemma RenamedToCanonicalIff(raw: seq<string>, f: Field, i: int)
    requires f in ColumnMap && 0 <= i < |raw|
    ensures NormalizeHeaders(raw)[i] == f.canonical
        <==> Strip(raw[i]) in f.aliases && FirstPresent(f.aliases, StripAll(raw)) == Some(Strip(raw[i]))
  {
    ColumnMapWellFormed();
    CanonicalIffAt(StripAll(raw), ColumnMap, f, i);
  }

  /** The canonical name of `f` is among the normalised headers iff some alias of `f` was among the stripped ones. */
  lemma CanonicalPresentIff(raw: seq<string>, f: Field)
    requires f in ColumnMap
    ensures f.canonical in NormalizeHeaders(raw)
        <==> exists k :: 0 <= k < |f.aliases| && f.aliases[k] in StripAll(raw)
  {
    ColumnMapWellFormed();
    CanonicalPresentIffAt(StripAll(raw), ColumnMap, f);
  }

  /** When the canonical name is itself present, none of its other aliases is renamed. */
  lemma CanonicalPresentBlocksAliases(raw: seq<string>, f: Field, i: int)
    requires f in ColumnMap && f.canonical in StripAll(raw)
    requires 0 <= i < |raw| && Strip(raw[i]) in f.aliases
    ensures NormalizeHeaders(raw)[i] == Strip(raw[i])
  {
    ColumnMapWellFormed();
    CanonicalIsAlias(ColumnMap, f);
    NormalizeHeadersAt(raw, i);
    FieldForUnique(ColumnMap, f, Strip(raw[i]));
  }

  /** Each normalised header is a stripped raw header or a canonical name, and so is stripped. */
  lemma NormalizedTrimmed(raw: seq<string>, i: int)
    requires 0 <= i < |raw|
    ensures Trimmed(NormalizeHeaders(raw)[i])
  {
    ColumnMapCanonicalsTrimmed();
    NormalizeHeadersAt(raw, i);
    match FieldFor(ColumnMap, Strip(raw[i]))
    case None =>
    case Some(f) => assert f in ColumnMap;
  }

  /** Normalising headers that are already normalised changes nothing. */
  lemma NormalizeIdempotent(raw: seq<string>)
    ensures NormalizeHeaders(NormalizeHeaders(raw)) == NormalizeHeaders(raw)
  {
    ColumnMapWellFormed();
    var n := NormalizeHeaders(raw);
    assert StripAll(n) == n by {
      forall i | 0 <= i < |n| ensures StripAll(n)[i] == n[i] {
        NormalizedTrimmed(raw, i);
        StripTrimmed(n[i]);
      }
    }
    IdempotentAt(StripAll(raw), ColumnMap);
  }

  /** A table whose headers are all canonical names keeps its headers. */
  lemma CanonicalHeadersFixed(raw: seq<string>)
    requires forall i :: 0 <= i < |raw| ==> raw[i] in Required
    ensures NormalizeHeaders(raw) == raw
  {
    ColumnMapWellFormed();
    RequiredAreCanonical();
    forall i | 0 <= i < |raw| ensures Strip(raw[i]) == raw[i] && exists f :: f in ColumnMap && f.canonical == raw[i] {
      var k :| 0 <= k < |Required| && Required[k] == raw[i];
      assert ColumnMap[k] in ColumnMap;
      StripTrimmed(raw[i]);
    }
    assert StripAll(raw) == raw;
    FixedAt(raw, ColumnMap);
  }
}
