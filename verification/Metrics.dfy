/** Closed-set labels and the metrics that use them (monitoring/metrics/label.go,
    monitoring/metrics/instrument.go). A panic is the result None. Labels are numbered in
    the order they are interned; a label with no definition is a number not yet given. */
module Metrics {
  import opened Options

  import Counting


  const MAX_SERIES_PER_METRIC := 1000

  datatype Def = Def(name: string, values: seq<string>)

  datatype LabelValue = LabelValue(def: nat, value: string)

  predicate Lower(c: char) { 'a' <= c <= 'z' }

  predicate ValidName(name: string) {
    name != "" && Lower(name[0]) && forall k :: 0 <= k < |name| ==> Lower(name[k]) || '0' <= name[k] <= '9' || name[k] == '_'
  }

  predicate Distinct<T(==)>(s: seq<T>) { forall j, k :: 0 <= j < k < |s| ==> s[j] != s[k] }

  predicate ValidLabel(name: string, values: seq<string>) {
    ValidName(name) && name != "le" && name != "quantile" && values != [] && "" !in values && Distinct(values)
  }

  // --- Resolving label values ---

  /** Among values, tuple is each label's, in the metric's order. */
  predicate Fits(labels: seq<nat>, values: seq<LabelValue>, tuple: seq<string>) {
    |values| == |labels| == |tuple| && forall p :: 0 <= p < |labels| ==> LabelValue(labels[p], tuple[p]) in values
  }

  /** Where each label's value stands among values. */
  lemma {:induction false} Places(labels: seq<nat>, values: seq<LabelValue>, tuple: seq<string>, n: nat) returns (at: seq<nat>)
    requires n <= |labels| && Fits(labels, values, tuple)
    ensures |at| == n && forall p :: 0 <= p < n ==> at[p] < |values| && values[at[p]] == LabelValue(labels[p], tuple[p])
  {
    at := [];
    if n > 0 {
      at := Places(labels, values, tuple, n - 1);
      var j :| 0 <= j < |values| && values[j] == LabelValue(labels[n - 1], tuple[n - 1]);
      at := at + [j];
    }
  }

  /** The label each value is for: as many values as labels that give every label its own
      give nothing else. */
  lemma UsesOf(labels: seq<nat>, values: seq<LabelValue>, tuple: seq<string>) returns (at: seq<nat>)
    requires Distinct(labels) && Fits(labels, values, tuple)
    ensures |at| == |labels| && forall p :: 0 <= p < |at| ==> at[p] < |values| && values[at[p]] == LabelValue(labels[p], tuple[p])
    ensures forall j: nat :: j < |values| ==> j in at
  {
    at := Places(labels, values, tuple, |labels|);
    forall p, q | 0 <= p < q < |at|
      ensures at[p] != at[q]
    {
      assert labels[p] != labels[q];
    }
    Counting.DistinctFit(at, |values|);
  }

  predicate For(labels: seq<nat>, tuple: seq<string>, p: nat, v: LabelValue) {
    p < |labels| == |tuple| && v == LabelValue(labels[p], tuple[p])
  }

  lemma FittingValueIsUsed(labels: seq<nat>, values: seq<LabelValue>, tuple: seq<string>, j: nat)
    requires Distinct(labels) && Fits(labels, values, tuple) && j < |values|
    ensures exists p: nat :: For(labels, tuple, p, values[j])
  {
    var at := UsesOf(labels, values, tuple);
    assert j in at;
    var p: nat :| p < |at| && at[p] == j;
    assert For(labels, tuple, p, values[j]);
  }

  lemma FittingValuesDiffer(labels: seq<nat>, values: seq<LabelValue>, tuple: seq<string>, i: nat, j: nat)
    requires Distinct(labels) && Fits(labels, values, tuple) && i < j < |values|
    ensures values[i].def != values[j].def
  {
    var at := UsesOf(labels, values, tuple);
    assert i in at && j in at;
    var p: nat :| p < |at| && at[p] == i;
    var q: nat :| q < |at| && at[q] == j;
    assert labels[p] != labels[q];
  }

  /** At most one tuple fits. */
  lemma FitIsUnique(labels: seq<nat>, values: seq<LabelValue>, t: seq<string>, u: seq<string>)
    requires Distinct(labels) && Fits(labels, values, t) && Fits(labels, values, u)
    ensures t == u
  {
    forall p | 0 <= p < |t|
      ensures t[p] == u[p]
    {
      var j :| 0 <= j < |values| && values[j] == LabelValue(labels[p], u[p]);
      FittingValueIsUsed(labels, values, t, j);
      var q: nat :| For(labels, t, q, values[j]);
    }
  }

  method PositionOf(labels: seq<nat>, def: nat) returns (position: int)
    ensures -1 <= position < |labels|
    ensures position >= 0 ==> labels[position] == def
    ensures position == -1 ==> def !in labels
  {
    for index := 0 to |labels|
      invariant def !in labels[..index]
    {
      if labels[index] == def {
        return index;
      }
    }
    return -1;
  }

  /** Total, and answers exactly the tuple that fits: None if and only if none does. */
  method Resolve(labels: seq<nat>, values: seq<LabelValue>) returns (r: Option<seq<string>>)
    requires Distinct(labels)
    ensures r.Some? ==> Fits(labels, values, r.value)
    ensures r.None? ==> forall tuple :: !Fits(labels, values, tuple)
  {
    if |values| != |labels| {
      return None;
    }
    var resolved, filled := new string[|labels|](_ => ""), new bool[|labels|](_ => false);
    ghost var at: seq<nat> := [];
    for i := 0 to |values|
      invariant |at| == i && Counting.DistinctBelow(at, |labels|)
      invariant forall p :: 0 <= p < |labels| ==> (filled[p] <==> p in at)
      invariant forall j :: 0 <= j < i ==> values[j] == LabelValue(labels[at[j]], resolved[at[j]])
    {
      var position := PositionOf(labels, values[i].def);
      if position == -1 {
        forall tuple
          ensures !Fits(labels, values, tuple)
        {
          UnknownLabelFitsNothing(labels, values, tuple, i);
        }
        return None;
      }
      if filled[position] {
        ghost var j :| 0 <= j < i && at[j] == position;
        forall tuple
          ensures !Fits(labels, values, tuple)
        {
          TwiceFitsNothing(labels, values, tuple, j, i);
        }
        return None;
      }
      filled[position] := true;
      resolved[position] := values[i].value;
      at := at + [position];
    }
    Counting.DistinctFit(at, |labels|);
    forall p | 0 <= p < |labels|
      ensures LabelValue(labels[p], resolved[..][p]) in values
    {
      assert p in at;
      ghost var j :| 0 <= j < |at| && at[j] == p;
      assert values[j] == LabelValue(labels[p], resolved[p]);
    }
    r := Some(resolved[..]);
  }

  lemma UnknownLabelFitsNothing(labels: seq<nat>, values: seq<LabelValue>, tuple: seq<string>, i: nat)
    requires Distinct(labels) && i < |values| && values[i].def !in labels
    ensures !Fits(labels, values, tuple)
  {
    if Fits(labels, values, tuple) {
      FittingValueIsUsed(labels, values, tuple, i);
    }
  }

  lemma TwiceFitsNothing(labels: seq<nat>, values: seq<LabelValue>, tuple: seq<string>, i: nat, j: nat)
    requires Distinct(labels) && i < j < |values| && values[i].def == values[j].def
    ensures !Fits(labels, values, tuple)
  {
    if Fits(labels, values, tuple) {
      FittingValuesDiffer(labels, values, tuple, i, j);
    }
  }

  /** The order the caller passes its values in changes nothing. */
  lemma OrderDoesNotMatter(labels: seq<nat>, a: seq<LabelValue>, b: seq<LabelValue>, tuple: seq<string>)
    requires multiset(a) == multiset(b)
    ensures Fits(labels, a, tuple) <==> Fits(labels, b, tuple)
  {
    assert |a| == |multiset(a)| == |multiset(b)| == |b|;
    forall v
      ensures v in a <==> v in b
    {
      assert v in multiset(a) <==> v in multiset(b);
    }
  }

  // --- How many series a metric can have ---

  function Product(sizes: seq<nat>): nat { if sizes == [] then 1 else Product(sizes[..|sizes| - 1]) * sizes[|sizes| - 1] }

  function Sizes(defs: seq<Def>, labels: seq<nat>): seq<nat>
    requires forall k :: 0 <= k < |labels| ==> labels[k] < |defs|
  {
    seq(|labels|, k requires 0 <= k < |labels| => |defs[labels[k]].values|)
  }

  function Range(s: seq<string>): (r: set<string>)
    ensures forall x :: x in r <==> x in s
  {
    if s == [] then {} else Range(s[..|s| - 1]) + {s[|s| - 1]}
  }

  lemma {:induction false} DistinctRange(s: seq<string>)
    requires Distinct(s)
    ensures |Range(s)| == |s|
  {
    if s != [] {
      DistinctRange(s[..|s| - 1]);
      assert s[|s| - 1] !in s[..|s| - 1];
    }
  }

  /** front extended by each of values. */
  function Extended(front: set<seq<string>>, values: set<string>): set<seq<string>> {
    set t, v | t in front && v in values :: t + [v]
  }

  function WithOne(front: set<seq<string>>, v: string): set<seq<string>> { set t | t in front :: t + [v] }

  lemma Unappend(t: seq<string>, u: seq<string>, v: string, w: string)
    requires t + [v] == u + [w]
    ensures t == u && v == w
  {
    assert (t + [v])[..|t|] == t && (u + [w])[..|u|] == u;
    assert (t + [v])[|t|] == v && (u + [w])[|u|] == w;
  }

  lemma {:induction false} WithOneSize(front: set<seq<string>>, v: string)
    ensures |WithOne(front, v)| == |front|
  {
    if front != {} {
      var t :| t in front;
      WithOneSize(front - {t}, v);
      assert WithOne(front, v) == WithOne(front - {t}, v) + {t + [v]};
      forall u | u in front - {t}
        ensures u + [v] != t + [v]
      {
        if u + [v] == t + [v] { Unappend(u, t, v, v); }
      }
    } else {
      assert WithOne(front, v) == {};
    }
  }

  lemma ExtendedSplits(front: set<seq<string>>, values: set<string>, v: string)
    requires v in values
    ensures Extended(front, values) == Extended(front, values - {v}) + WithOne(front, v)
    ensures Extended(front, values - {v}) !! WithOne(front, v)
  {
    forall x | x in Extended(front, values - {v})
      ensures x !in WithOne(front, v)
    {
      var t, w :| t in front && w in values - {v} && x == t + [w];
      if u :| u in front && x == u + [v] { Unappend(t, u, w, v); }
    }
    forall x | x in Extended(front, values)
      ensures x in Extended(front, values - {v}) + WithOne(front, v)
    {
      var t, w :| t in front && w in values && x == t + [w];
    }
  }

  lemma ExtendedGrows(front: set<seq<string>>, values: set<string>, v: string)
    requires v in values
    ensures |Extended(front, values)| == |Extended(front, values - {v})| + |front|
  {
    ExtendedSplits(front, values, v);
    WithOneSize(front, v);
  }

  lemma OneMore(a: nat, b: nat)
    ensures a * (b + 1) == a * b + a
  {
  }

  lemma {:induction false} ExtendedSize(front: set<seq<string>>, values: set<string>)
    ensures |Extended(front, values)| == |front| * |values|
  {
    if values == {} {
      assert Extended(front, values) == {};
    } else {
      var v :| v in values;
      ExtendedSize(front, values - {v});
      ExtendedGrows(front, values, v);
      OneMore(|front|, |values - {v}|);
    }
  }

  /** Every tuple of declared values, one for each label. */
  function Tuples(defs: seq<Def>, labels: seq<nat>): set<seq<string>>
    requires forall k :: 0 <= k < |labels| ==> labels[k] < |defs|
  {
    if labels == [] then {[]}
    else Extended(Tuples(defs, labels[..|labels| - 1]), Range(defs[labels[|labels| - 1]].values))
  }

  ghost predicate DefsOk(defs: seq<Def>) { forall d :: 0 <= d < |defs| ==> ValidLabel(defs[d].name, defs[d].values) }

  predicate Known(defs: seq<Def>, labels: seq<nat>) { forall k :: 0 <= k < |labels| ==> labels[k] < |defs| }

  lemma {:induction false} TuplesAreTheProduct(defs: seq<Def>, labels: seq<nat>)
    requires DefsOk(defs) && Known(defs, labels)
    ensures |Tuples(defs, labels)| == Product(Sizes(defs, labels))
  {
    if labels != [] {
      var front, last := labels[..|labels| - 1], labels[|labels| - 1];
      TuplesAreTheProduct(defs, front);
      assert Sizes(defs, labels)[..|labels| - 1] == Sizes(defs, front);
      DistinctRange(defs[last].values);
      ExtendedSize(Tuples(defs, front), Range(defs[last].values));
    }
  }

  lemma {:induction false} InTuples(defs: seq<Def>, labels: seq<nat>, t: seq<string>)
    requires Known(defs, labels)
    ensures t in Tuples(defs, labels) <==>
              |t| == |labels| && forall k :: 0 <= k < |t| ==> t[k] in defs[labels[k]].values
  {
    if labels != [] {
      var front, last := labels[..|labels| - 1], labels[|labels| - 1];
      if t != [] {
        InTuples(defs, front, t[..|t| - 1]);
        assert t == t[..|t| - 1] + [t[|t| - 1]];
      }
      if t in Tuples(defs, labels) {
        var u, v :| u in Tuples(defs, front) && v in Range(defs[last].values) && t == u + [v];
        assert t[..|t| - 1] == u;
      }
    }
  }

  /** A label value a caller can hold: one its label declares. */
  predicate Declared(defs: seq<Def>, v: LabelValue) { v.def < |defs| && v.value in defs[v.def].values }

  function ValuesFor(labels: seq<nat>, t: seq<string>): seq<LabelValue>
    requires |t| == |labels|
  {
    seq(|labels|, k requires 0 <= k < |labels| => LabelValue(labels[k], t[k]))
  }

  ghost predicate CanResolve(defs: seq<Def>, labels: seq<nat>, t: seq<string>) {
    exists values :: Fits(labels, values, t) && forall j :: 0 <= j < |values| ==> Declared(defs, values[j])
  }

  /** The tuples a metric can ever be recorded with are those of its labels' declared values. */
  lemma ResolvesExactlyTuples(defs: seq<Def>, labels: seq<nat>, t: seq<string>)
    requires Known(defs, labels)
    ensures CanResolve(defs, labels, t) <==> t in Tuples(defs, labels)
  {
    InTuples(defs, labels, t);
    if t in Tuples(defs, labels) {
      var values := ValuesFor(labels, t);
      forall p | 0 <= p < |labels|
        ensures LabelValue(labels[p], t[p]) in values
      {
        assert values[p] == LabelValue(labels[p], t[p]);
      }
      assert Fits(labels, values, t);
    }
  }
}
