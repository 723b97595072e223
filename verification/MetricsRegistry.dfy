/** Declaring labels and metrics: interning and the bound on a metric's series
    (monitoring/metrics/label.go, monitoring/metrics/instrument.go). */
module MetricsRegistry {

  import opened Options
  import opened Metrics

  // --- The key a label is interned by ---

  /** Byte order. */
  predicate Before(a: string, b: string) {
    b != "" && (a == "" || a[0] < b[0] || (a[0] == b[0] && Before(a[1..], b[1..])))
  }

  lemma {:induction false} BeforeIsStrict(a: string, b: string)
    ensures Before(a, b) ==> a != b && !Before(b, a)
    ensures Before(a, b) || Before(b, a) || a == b
  {
    if a != "" && b != "" {
      BeforeIsStrict(a[1..], b[1..]);
      assert a == [a[0]] + a[1..] && b == [b[0]] + b[1..];
    }
  }

  lemma {:induction false} BeforeIsTransitive(a: string, b: string, c: string)
    requires Before(a, b) && Before(b, c)
    ensures Before(a, c)
  {
    if a != "" && a[0] == b[0] == c[0] {
      BeforeIsTransitive(a[1..], b[1..], c[1..]);
    }
  }

  function Inserted(x: string, s: seq<string>): (r: seq<string>)
    ensures forall y :: y in r <==> y == x || y in s
  {
    if s == [] || Before(x, s[0]) then [x] + s else [s[0]] + Inserted(x, s[1..])
  }

  function Sorted(s: seq<string>): (r: seq<string>)
    ensures forall y :: y in r <==> y in s
  {
    if s == [] then [] else Inserted(s[0], Sorted(s[1..]))
  }

  predicate Ascending(s: seq<string>) { forall j, k :: 0 <= j < k < |s| ==> Before(s[j], s[k]) }

  lemma {:induction false} InsertedAscends(x: string, s: seq<string>)
    requires Ascending(s) && x !in s
    ensures Ascending(Inserted(x, s))
  {
    if s != [] {
      BeforeIsStrict(x, s[0]);
      if Before(x, s[0]) {
        forall k | 1 <= k < |s|
          ensures Before(x, s[k])
        {
          BeforeIsTransitive(x, s[0], s[k]);
        }
      } else {
        InsertedAscends(x, s[1..]);
        var rest := Inserted(x, s[1..]);
        forall k | 0 <= k < |rest|
          ensures Before(s[0], rest[k])
        {
          assert rest[k] in rest;
          if rest[k] != x {
            var j :| 0 <= j < |s[1..]| && s[1..][j] == rest[k];
            assert s[j + 1] == rest[k];
          }
        }
      }
    }
  }

  lemma {:induction false} SortedAscends(s: seq<string>)
    requires Distinct(s)
    ensures Ascending(Sorted(s))
  {
    if s != [] {
      SortedAscends(s[1..]);
      assert s[0] !in s[1..];
      InsertedAscends(s[0], Sorted(s[1..]));
    }
  }

  lemma BothEmpty(s: seq<string>, t: seq<string>)
    requires forall x :: x in s <==> x in t
    ensures s == [] <==> t == []
  {
    if s != [] { assert s[0] in t; }
    if t != [] { assert t[0] in s; }
  }

  /** One ascending sequence holds given strings. */
  lemma {:induction false} AscendingIsUnique(s: seq<string>, t: seq<string>)
    requires Ascending(s) && Ascending(t) && forall x :: x in s <==> x in t
    ensures s == t
  {
    BothEmpty(s, t);
    if s != [] {
      assert s[0] in t && t[0] in s;
      var j :| 0 <= j < |t| && t[j] == s[0];
      var k :| 0 <= k < |s| && s[k] == t[0];
      BeforeIsStrict(s[0], t[0]);
      assert s[0] == t[0];
      forall x
        ensures x in s[1..] <==> x in t[1..]
      {
        TailHas(s, x);
        TailHas(t, x);
      }
      AscendingIsUnique(s[1..], t[1..]);
    }
  }

  lemma TailHas(s: seq<string>, x: string)
    requires Ascending(s) && s != []
    ensures x in s[1..] <==> x in s && x != s[0]
  {
    assert s == [s[0]] + s[1..];
    if x in s[1..] {
      var k :| 0 <= k < |s[1..]| && s[1..][k] == x;
      BeforeIsStrict(s[0], s[k + 1]);
    }
  }

  const NUL: char := '\0'

  function Joined(parts: seq<string>): string
    requires parts != []
  {
    if |parts| == 1 then parts[0] else parts[0] + [NUL] + Joined(parts[1..])
  }

  function LabelKey(name: string, values: seq<string>): string { Joined([name] + Sorted(values)) }

  predicate Plain(parts: seq<string>) { forall k :: 0 <= k < |parts| ==> NUL !in parts[k] }

  lemma NulAfterPlain(a: string, x: string, b: string, y: string)
    requires NUL !in b && a + [NUL] + x == b + [NUL] + y
    ensures |b| <= |a|
  {
    var s, t := a + [NUL] + x, b + [NUL] + y;
    assert s[|a|] == NUL && s == t;
    assert forall k :: 0 <= k < |b| ==> t[k] == b[k];
  }

  lemma FirstPart(a: string, x: string, b: string, y: string)
    requires NUL !in a && NUL !in b && a + [NUL] + x == b + [NUL] + y
    ensures a == b && x == y
  {
    NulAfterPlain(a, x, b, y);
    NulAfterPlain(b, y, a, x);
    var s, t := a + [NUL] + x, b + [NUL] + y;
    assert s[..|a|] == a && t[..|b|] == b && s[|a| + 1..] == x && t[|b| + 1..] == y;
  }

  lemma NulBetweenParts(parts: seq<string>)
    requires parts != []
    ensures Plain(parts) ==> (NUL in Joined(parts) <==> |parts| > 1)
  {
    if |parts| > 1 {
      assert Joined(parts)[|parts[0]|] == NUL;
    }
  }

  lemma {:induction false} JoinedTellsParts(a: seq<string>, b: seq<string>)
    requires a != [] && b != [] && Plain(a) && Plain(b) && Joined(a) == Joined(b)
    ensures a == b
  {
    NulBetweenParts(a);
    NulBetweenParts(b);
    if |a| > 1 {
      FirstPart(a[0], Joined(a[1..]), b[0], Joined(b[1..]));
      JoinedTellsParts(a[1..], b[1..]);
      assert a == [a[0]] + a[1..] && b == [b[0]] + b[1..];
    }
  }

  predicate SameLabel(name: string, values: seq<string>, other: string, others: seq<string>) {
    name == other && Range(values) == Range(others)
  }

  /** Declaring the same name and values, in any order, gives the same key; with no NUL in
      any value, only that does. */
  lemma KeyTellsLabels(name: string, values: seq<string>, other: string, others: seq<string>)
    requires ValidLabel(name, values) && ValidLabel(other, others)
    ensures SameLabel(name, values, other, others) ==> LabelKey(name, values) == LabelKey(other, others)
    ensures Plain(values) && Plain(others) ==>
              (LabelKey(name, values) == LabelKey(other, others) <==> SameLabel(name, values, other, others))
  {
    SortedAscends(values);
    SortedAscends(others);
    if SameLabel(name, values, other, others) {
      forall x ensures x in Sorted(values) <==> x in Sorted(others) {
        assert x in Range(values) <==> x in Range(others);
      }
      AscendingIsUnique(Sorted(values), Sorted(others));
    } else if Plain(values) && Plain(others) && LabelKey(name, values) == LabelKey(other, others) {
      KeyPartsArePlain(name, values);
      KeyPartsArePlain(other, others);
      JoinedTellsParts([name] + Sorted(values), [other] + Sorted(others));
      assert ([name] + Sorted(values))[1..] == Sorted(values) && ([other] + Sorted(others))[1..] == Sorted(others);
      assert ([name] + Sorted(values))[0] == name && ([other] + Sorted(others))[0] == other;
      assert forall x :: x in Range(values) <==> x in Sorted(values);
      assert forall x :: x in Range(others) <==> x in Sorted(others);
    }
  }

  lemma KeyPartsArePlain(name: string, values: seq<string>)
    requires ValidName(name) && Plain(values)
    ensures Plain([name] + Sorted(values))
  {
    forall k | 0 <= k < |Sorted(values)|
      ensures NUL !in Sorted(values)[k]
    {
      assert Sorted(values)[k] in values;
    }
  }

  // --- Exactly which labels share a key ---

  /** s cut at every NUL. */
  function Cut(s: string): (pieces: seq<string>)
    ensures pieces != [] && Plain(pieces)
  {
    if s == "" then [""]
    else
      var rest := Cut(s[1..]);
      if s[0] == NUL then [""] + rest else [[s[0]] + rest[0]] + rest[1..]
  }

  function Pieces(parts: seq<string>): seq<string> {
    if parts == [] then [] else Cut(parts[0]) + Pieces(parts[1..])
  }

  lemma {:induction false} CutJoins(a: string, b: string)
    ensures Cut(a + [NUL] + b) == Cut(a) + Cut(b)
  {
    var s := a + [NUL] + b;
    if a == "" {
      assert s[1..] == b;
    } else {
      assert s[1..] == a[1..] + [NUL] + b;
      CutJoins(a[1..], b);
    }
  }

  lemma {:induction false} PiecesOfJoined(parts: seq<string>)
    requires parts != []
    ensures Pieces(parts) == Cut(Joined(parts))
  {
    if |parts| == 1 {
      assert Pieces(parts[1..]) == [];
      assert Cut(parts[0]) + [] == Cut(parts[0]);
    } else {
      PiecesOfJoined(parts[1..]);
      CutJoins(parts[0], Joined(parts[1..]));
    }
  }

  lemma {:induction false} CutIsUndone(s: string)
    ensures Joined(Cut(s)) == s
  {
    if s != "" {
      var rest := Cut(s[1..]);
      CutIsUndone(s[1..]);
      assert s == [s[0]] + s[1..];
      if s[0] == NUL {
        assert ([""] + rest)[1..] == rest;
      } else {
        assert ([[s[0]] + rest[0]] + rest[1..])[1..] == rest[1..];
      }
    }
  }

  lemma {:induction false} PlainIsNotCut(s: string)
    requires NUL !in s
    ensures Cut(s) == [s]
  {
    if s != "" {
      PlainIsNotCut(s[1..]);
      assert s == [s[0]] + s[1..];
    }
  }

  /** Two declarations share a key if and only if their names are equal and their values,
      in byte order and cut at every NUL, give the same pieces. */
  lemma SharedKeyIffSamePieces(name: string, values: seq<string>, other: string, others: seq<string>)
    requires ValidName(name) && ValidName(other)
    ensures LabelKey(name, values) == LabelKey(other, others)
       <==> name == other && Pieces(Sorted(values)) == Pieces(Sorted(others))
  {
    var a, b := [name] + Sorted(values), [other] + Sorted(others);
    PiecesOfJoined(a);
    PiecesOfJoined(b);
    CutIsUndone(Joined(a));
    CutIsUndone(Joined(b));
    PlainIsNotCut(name);
    PlainIsNotCut(other);
    assert a[1..] == Sorted(values) && b[1..] == Sorted(others);
    var p, q := Pieces(Sorted(values)), Pieces(Sorted(others));
    assert ([name] + p)[0] == name && ([other] + q)[0] == other && ([name] + p)[1..] == p && ([other] + q)[1..] == q;
  }

  predicate Uses(values: seq<string>, chars: set<char>) {
    forall k, c :: 0 <= k < |values| && c in values[k] ==> c in chars
  }

  /** Any two labels with such characters only have the same key exactly when they are the same. */
  ghost predicate TellsApart(chars: set<char>) {
    forall name, values, other, others ::
      ValidLabel(name, values) && ValidLabel(other, others) && Uses(values, chars) && Uses(others, chars) ==>
        (LabelKey(name, values) == LabelKey(other, others) <==> SameLabel(name, values, other, others))
  }

  /** Interning tells apart all labels whose values use some characters if and only if NUL
      is not one of them. */
  lemma TellsApartIffNoNul(chars: set<char>)
    ensures TellsApart(chars) <==> NUL !in chars
  {
    if NUL !in chars {
      forall name, values, other, others |
        ValidLabel(name, values) && ValidLabel(other, others) && Uses(values, chars) && Uses(others, chars)
        ensures LabelKey(name, values) == LabelKey(other, others) <==> SameLabel(name, values, other, others)
      {
        KeyTellsLabels(name, values, other, others);
      }
    } else {
      NulInAValueCollides();
    }
  }

  const ONE_NUL: string := [NUL]
  const TWO_NULS: string := [NUL, NUL]
  const FOUR_NULS: string := [NUL, NUL, NUL, NUL]

  lemma NulsAreSorted()
    ensures Sorted([FOUR_NULS]) == [FOUR_NULS] && Sorted([ONE_NUL, TWO_NULS]) == [ONE_NUL, TWO_NULS]
  {
    var one, two := [FOUR_NULS], [ONE_NUL, TWO_NULS];
    assert ONE_NUL[1..] == "" && TWO_NULS[1..] == ONE_NUL;
    assert Before(ONE_NUL, TWO_NULS);
    assert two[1..] == [TWO_NULS] && two[1..][1..] == [] && one[1..] == [];
    assert Sorted([TWO_NULS]) == [TWO_NULS];
  }

  lemma NulsJoinAlike()
    ensures Joined([FOUR_NULS]) == Joined([ONE_NUL, TWO_NULS])
  {
    var two := [ONE_NUL, TWO_NULS];
    assert two[1..] == [TWO_NULS];
    assert Joined(two) == ONE_NUL + [NUL] + TWO_NULS == FOUR_NULS;
  }

  /** A NUL inside a value makes two different labels share a key. */
  lemma NulInAValueCollides()
    ensures ValidLabel("mode", [FOUR_NULS]) && ValidLabel("mode", [ONE_NUL, TWO_NULS])
    ensures LabelKey("mode", [FOUR_NULS]) == LabelKey("mode", [ONE_NUL, TWO_NULS])
    ensures !SameLabel("mode", [FOUR_NULS], "mode", [ONE_NUL, TWO_NULS])
    ensures Uses([FOUR_NULS], {NUL}) && Uses([ONE_NUL, TWO_NULS], {NUL})
  {
    var one, two := [FOUR_NULS], [ONE_NUL, TWO_NULS];
    NulsAreSorted();
    NulsJoinAlike();
    var a, b := ["mode"] + one, ["mode"] + two;
    assert a[1..] == one && b[1..] == two;
    assert LabelKey("mode", one) == "mode" + [NUL] + Joined(one);
    assert LabelKey("mode", two) == "mode" + [NUL] + Joined(two);
    assert ONE_NUL in Range(two) && |ONE_NUL| != |FOUR_NULS|;
  }

  // --- The registries ---

  datatype Kind = Counter | Gauge | Histogram

  datatype Instrument = Instrument(name: string, help: string, kind: Kind, labels: seq<nat>, buckets: seq<real>)

  /** What a metric's labels must be: declared, used once, and few combinations. */
  predicate LabelsOk(defs: seq<Def>, labels: seq<nat>) {
    Known(defs, labels) && Distinct(labels) && Product(Sizes(defs, labels)) <= MAX_SERIES_PER_METRIC
  }

  lemma {:induction false} ProductRises(sizes: seq<nat>, k: nat)
    requires k <= |sizes| && forall j :: 0 <= j < |sizes| ==> sizes[j] >= 1
    ensures 1 <= Product(sizes[..k]) <= Product(sizes)
  {
    if k == |sizes| {
      assert sizes[..k] == sizes;
      if k > 0 { ProductRises(sizes[..k - 1], k - 1); LastFactor(sizes); }
    } else {
      var front := sizes[..|sizes| - 1];
      ProductRises(front, k);
      assert front[..k] == sizes[..k];
      LastFactor(sizes);
    }
  }

  lemma LastFactor(sizes: seq<nat>)
    requires sizes != [] && sizes[|sizes| - 1] >= 1
    ensures Product(sizes) >= Product(sizes[..|sizes| - 1])
  {
    var p, last := Product(sizes[..|sizes| - 1]), sizes[|sizes| - 1];
    assert p * last >= p by { OneMore(p, last - 1); }
  }

  class Registry {
    var defs: seq<Def>
    var labels: map<string, nat>
    var instruments: map<string, Instrument>

    /** Each label is interned under its own key; each metric's series are bounded. */
    ghost predicate Valid()
      reads this
    {
      && DefsOk(defs)
      && (forall d: nat :: d < |defs| ==> KeyOf(defs[d]) in labels && labels[KeyOf(defs[d])] == d)
      && (forall key :: key in labels ==> labels[key] < |defs| && KeyOf(defs[labels[key]]) == key)
      && (forall name :: name in instruments ==> instruments[name].name == name && LabelsOk(defs, instruments[name].labels))
    }

    constructor ()
      ensures Valid() && defs == [] && instruments == map[]
    {
      defs, labels, instruments := [], map[], map[];
    }

    /** The label interned under what is declared; a new one when there is none. */
    method NewLabel(name: string, values: seq<string>) returns (r: Option<nat>)
      requires Valid()
      modifies `defs, `labels
      ensures Valid() && instruments == old(instruments)
      ensures r.Some? <==> ValidLabel(name, values)
      ensures r.Some? ==> r.value < |defs| && KeyOf(defs[r.value]) == LabelKey(name, values)
      ensures defs == old(defs) || (r == Some(|old(defs)|) && defs == old(defs) + [Def(name, values)])
      ensures r.None? ==> defs == old(defs)
    {
      if !ValidName(name) || name == "le" || name == "quantile" || |values| == 0 {
        return None;
      }
      var index: set<string> := {};
      for i := 0 to |values|
        invariant "" !in values[..i] && Distinct(values[..i])
        invariant forall v :: v in index <==> v in values[..i]
      {
        assert values[..i + 1] == values[..i] + [values[i]];
        assert values[i] in values;
        if values[i] == "" {
          return None;
        }
        if values[i] in index {
          assert !Distinct(values) by {
            var j :| 0 <= j < i && values[..i][j] == values[i];
            assert values[j] == values[i];
          }
          return None;
        }
        index := index + {values[i]};
      }
      assert values[..|values|] == values;
      var key := LabelKey(name, values);
      if key in labels {
        return Some(labels[key]);
      }
      r := Some(|defs|);
      labels := labels[key := |defs|];
      defs := defs + [Def(name, values)];
      KnownStay(old(defs), defs);
    }

    /** Declaring a metric, or the same one again. */
    method NewInstrument(kind: Kind, name: string, help: string, used: seq<nat>, buckets: seq<real>) returns (r: Option<Instrument>)
      requires Valid()
      modifies `instruments
      ensures Valid()
      ensures r.Some? <==>
                && ValidName(name) && help != "" && LabelsOk(defs, used)
                && (name in old(instruments) ==> old(instruments)[name] == Instrument(name, help, kind, used, buckets))
      ensures r.Some? ==> r.value == Instrument(name, help, kind, used, buckets) && instruments == old(instruments)[name := r.value]
      ensures r.None? ==> instruments == old(instruments)
    {
      if !ValidName(name) || help == "" {
        return None;
      }
      var ok := CheckLabels(used);
      if !ok {
        return None;
      }
      var declared := Instrument(name, help, kind, used, buckets);
      if name in instruments {
        if instruments[name] != declared {
          return None;
        }
        assert instruments[name := declared] == instruments;
        return Some(declared);
      }
      instruments := instruments[name := declared];
      r := Some(declared);
    }

    /** Multiplies the labels' sizes, stopping at the first excess. */
    method CheckLabels(used: seq<nat>) returns (ok: bool)
      requires Valid()
      ensures ok <==> LabelsOk(defs, used)
    {
      var series: nat, seen: set<nat> := 1, {};
      for i := 0 to |used|
        invariant Multiplied(defs, used[..i], series, seen)
      {
        MultipliesOn(defs, used, i, series, seen);
        if used[i] >= |defs| || used[i] in seen {
          return false;
        }
        seen := seen + {used[i]};
        series := series * |defs[used[i]].values|;
        if series > MAX_SERIES_PER_METRIC {
          return false;
        }
      }
      assert used[..|used|] == used;
      return true;
    }

    /** One of the label's declared values, or a panic. */
    method Value(l: nat, value: string) returns (r: Option<LabelValue>)
      requires Valid() && l < |defs|
      ensures r.Some? <==> value in defs[l].values
      ensures r.Some? ==> r.value == LabelValue(l, value) && Declared(defs, r.value)
    {
      if value !in Range(defs[l].values) {
        return None;
      }
      return Some(LabelValue(l, value));
    }
  }

  /** Some labels are acceptable, counted and seen. */
  ghost predicate Multiplied(defs: seq<Def>, labels: seq<nat>, series: nat, seen: set<nat>) {
    LabelsOk(defs, labels) && series == Product(Sizes(defs, labels)) && forall d :: d in seen <==> d in labels
  }

  /** One more label either rules the whole declaration out or is counted and seen. */
  lemma MultipliesOn(defs: seq<Def>, used: seq<nat>, i: nat, series: nat, seen: set<nat>)
    requires DefsOk(defs) && i < |used| && Multiplied(defs, used[..i], series, seen)
    ensures if used[i] >= |defs| || used[i] in seen || series * |defs[used[i]].values| > MAX_SERIES_PER_METRIC
            then !LabelsOk(defs, used)
            else Multiplied(defs, used[..i + 1], series * |defs[used[i]].values|, seen + {used[i]})
  {
    DistinctSoFar(used, i);
    if used[i] < |defs| {
      SizesGrow(defs, used, i);
      if used[i] !in seen && series * |defs[used[i]].values| > MAX_SERIES_PER_METRIC {
        TooMany(defs, used, i + 1);
      }
    }
  }

  function KeyOf(d: Def): string { LabelKey(d.name, d.values) }

  lemma KnownStay(a: seq<Def>, b: seq<Def>)
    requires a <= b
    ensures forall used :: LabelsOk(a, used) ==> LabelsOk(b, used)
  {
    forall used | LabelsOk(a, used)
      ensures LabelsOk(b, used)
    {
      assert Sizes(b, used) == Sizes(a, used);
    }
  }

  lemma SizesGrow(defs: seq<Def>, used: seq<nat>, i: nat)
    requires i < |used| && Known(defs, used[..i]) && used[i] < |defs|
    ensures Known(defs, used[..i + 1])
    ensures Product(Sizes(defs, used[..i + 1])) == Product(Sizes(defs, used[..i])) * |defs[used[i]].values|
  {
    assert used[..i + 1] == used[..i] + [used[i]];
    assert Sizes(defs, used[..i + 1])[..i] == Sizes(defs, used[..i]);
  }

  lemma TooMany(defs: seq<Def>, used: seq<nat>, n: nat)
    requires DefsOk(defs) && n <= |used|
    requires Known(defs, used[..n]) && Product(Sizes(defs, used[..n])) > MAX_SERIES_PER_METRIC
    ensures !LabelsOk(defs, used)
  {
    if Known(defs, used) {
      var sizes := Sizes(defs, used);
      assert sizes[..n] == Sizes(defs, used[..n]);
      ProductRises(sizes, n);
    }
  }

  lemma DistinctSoFar(used: seq<nat>, i: nat)
    requires i < |used| && Distinct(used[..i])
    ensures used[i] in used[..i] ==> !Distinct(used)
    ensures used[i] !in used[..i] ==> Distinct(used[..i + 1])
    ensures forall d :: d in used[..i + 1] <==> d in used[..i] || d == used[i]
  {
    assert used[..i + 1] == used[..i] + [used[i]];
    if used[i] in used[..i] {
      var j :| 0 <= j < i && used[..i][j] == used[i];
      assert used[j] == used[i];
    }
  }

  /** Whatever a registered metric is recorded with, it has at most MAX_SERIES_PER_METRIC
      series: exactly one for each choice of its labels' declared values. */
  lemma SeriesAreBounded(r: Registry, name: string)
    requires r.Valid() && name in r.instruments
    ensures var used := r.instruments[name].labels;
            && Known(r.defs, used)
            && (forall t :: CanResolve(r.defs, used, t) <==> t in Tuples(r.defs, used))
            && |Tuples(r.defs, used)| == Product(Sizes(r.defs, used)) <= MAX_SERIES_PER_METRIC
  {
    var used := r.instruments[name].labels;
    forall t
      ensures CanResolve(r.defs, used, t) <==> t in Tuples(r.defs, used)
    {
      ResolvesExactlyTuples(r.defs, used, t);
    }
    TuplesAreTheProduct(r.defs, used);
  }
}
