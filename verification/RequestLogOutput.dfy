/** What is written for one scope of the request log, from what it kept (logging/request_log.go). */
module RequestLogOutput {

  import opened RequestLog

  type Item = seq<Pair>

  /** A key with how often its name was already used, which the log writes as a suffix from the second on. */
  datatype Key = Key(name: string, times: nat)

  datatype Attr =
    | StepAttr(key: Key, scope: nat)
    | FieldAttr(key: Key, value: string)
    | LoopAttr(key: Key, items: seq<Item>)
    | ErrorsAttr(key: Key, messages: seq<string>)
    | LatestErrorAttr(key: Key, value: string)

  function Named(attrs: seq<Attr>, name: string): (n: nat)
    ensures n <= |attrs|
  {
    if attrs == [] then 0 else Named(attrs[..|attrs| - 1], name) + if attrs[|attrs| - 1].key.name == name then 1 else 0
  }

  function NextKey(attrs: seq<Attr>, name: string): Key { Key(name, Named(attrs, name) + 1) }

  function ItemsOf(actions: seq<Out>, key: string): seq<Item> {
    if actions == [] then []
    else
      var last := actions[|actions| - 1];
      ItemsOf(actions[..|actions| - 1], key) + if last.LoopOut? && last.key == key then [last.item] else []
  }

  function Messages(actions: seq<Out>): seq<string> {
    if actions == [] then []
    else Messages(actions[..|actions| - 1]) + if actions[|actions| - 1].ErrorOut? then [actions[|actions| - 1].message] else []
  }

  /** Whether an action is written where it stands: not an error, and of a loop the first item. */
  predicate WrittenAt(actions: seq<Out>, k: nat)
    requires k < |actions|
  {
    && !actions[k].ErrorOut?
    && (actions[k].LoopOut? ==> ItemsOf(actions[..k], actions[k].key) == [])
  }

  function AttrOf(actions: seq<Out>, k: nat, before: seq<Attr>): Attr
    requires k < |actions| && !actions[k].ErrorOut?
  {
    var key := NextKey(before, actions[k].key);
    match actions[k]
    case Child(_, scope) => StepAttr(key, scope)
    case FieldOut(_, value) => FieldAttr(key, value)
    case LoopOut(name, _) => LoopAttr(key, ItemsOf(actions, name))
  }

  /** What the first n actions write. */
  function Attrs(actions: seq<Out>, n: nat): seq<Attr>
    requires n <= |actions|
  {
    if n == 0 then []
    else
      var before := Attrs(actions, n - 1);
      if WrittenAt(actions, n - 1) then before + [AttrOf(actions, n - 1, before)] else before
  }

  function WithErrors(attrs: seq<Attr>, messages: seq<string>): seq<Attr> {
    if messages == [] then attrs else attrs + [ErrorsAttr(NextKey(attrs, "errors"), messages)]
  }

  function WithLatest(attrs: seq<Attr>, root: bool, latestError: string): seq<Attr> {
    if root && latestError != "" then attrs + [LatestErrorAttr(NextKey(attrs, "error"), latestError)] else attrs
  }

  // --- Writing a scope ---

  ghost predicate Counted(seen: map<string, nat>, attrs: seq<Attr>) {
    forall name :: (if name in seen then seen[name] else 0) == Named(attrs, name)
  }

  lemma NamedGrows(attrs: seq<Attr>, a: Attr)
    ensures forall name :: Named(attrs + [a], name) == Named(attrs, name) + if a.key.name == name then 1 else 0
  {
    assert (attrs + [a])[..|attrs|] == attrs;
  }

  method NextLogKey(seen: map<string, nat>, name: string) returns (key: Key, counted: map<string, nat>)
    ensures key == Key(name, (if name in seen then seen[name] else 0) + 1)
    ensures counted == seen[name := key.times]
  {
    counted := seen[name := (if name in seen then seen[name] else 0) + 1];
    key := Key(name, counted[name]);
  }

  lemma FilterGrows(actions: seq<Out>, k: nat, name: string)
    requires k < |actions|
    ensures ItemsOf(actions[..k + 1], name) == ItemsOf(actions[..k], name)
              + (if actions[k].LoopOut? && actions[k].key == name then [actions[k].item] else [])
    ensures Messages(actions[..k + 1]) == Messages(actions[..k]) + (if actions[k].ErrorOut? then [actions[k].message] else [])
  {
    assert actions[..k + 1][..k] == actions[..k];
  }

  /** A loop's items from its first one on. */
  method CollectItems(actions: seq<Out>, first: nat) returns (items: seq<Item>)
    requires first < |actions| && actions[first].LoopOut? && ItemsOf(actions[..first], actions[first].key) == []
    ensures items == ItemsOf(actions, actions[first].key)
  {
    var name := actions[first].key;
    items := [actions[first].item];
    FilterGrows(actions, first, name);
    for j := first + 1 to |actions|
      invariant items == ItemsOf(actions[..j], name)
    {
      FilterGrows(actions, j, name);
      if actions[j].LoopOut? && actions[j].key == name {
        items := items + [actions[j].item];
      }
    }
    assert actions[..|actions|] == actions;
  }

  /** One action's attribute, after those written before it. */
  method WriteAction(actions: seq<Out>, i: nat, seen: map<string, nat>) returns (attr: Attr, counted: map<string, nat>)
    requires i < |actions| && WrittenAt(actions, i) && Counted(seen, Attrs(actions, i))
    ensures attr == AttrOf(actions, i, Attrs(actions, i)) && Counted(counted, Attrs(actions, i) + [attr])
  {
    var key: Key;
    key, counted := NextLogKey(seen, actions[i].key);
    match actions[i] {
      case Child(_, scope) => attr := StepAttr(key, scope);
      case LoopOut(_, _) =>
        var items := CollectItems(actions, i);
        attr := LoopAttr(key, items);
      case FieldOut(_, value) => attr := FieldAttr(key, value);
    }
    NamedGrows(Attrs(actions, i), attr);
  }

  /** The loops begun among the first n actions. */
  ghost predicate Begun(actions: seq<Out>, n: nat, loops: set<string>)
    requires n <= |actions|
  {
    forall name :: name in loops <==> ItemsOf(actions[..n], name) != []
  }

  lemma BegunGrows(actions: seq<Out>, n: nat, loops: set<string>)
    requires n < |actions| && Begun(actions, n, loops)
    ensures Begun(actions, n + 1, if actions[n].LoopOut? then loops + {actions[n].key} else loops)
  {
    forall name
      ensures ItemsOf(actions[..n + 1], name) != [] <==>
                ItemsOf(actions[..n], name) != [] || (actions[n].LoopOut? && actions[n].key == name)
    {
      FilterGrows(actions, n, name);
    }
  }

  /** What one more action adds to each thing the loop over them keeps. */
  lemma OneMoreAction(actions: seq<Out>, n: nat, loops: set<string>)
    requires n < |actions| && Begun(actions, n, loops)
    ensures WrittenAt(actions, n) <==> !actions[n].ErrorOut? && !(actions[n].LoopOut? && actions[n].key in loops)
    ensures Attrs(actions, n + 1) == if WrittenAt(actions, n) then Attrs(actions, n) + [AttrOf(actions, n, Attrs(actions, n))] else Attrs(actions, n)
    ensures Messages(actions[..n + 1]) == Messages(actions[..n]) + if actions[n].ErrorOut? then [actions[n].message] else []
    ensures Begun(actions, n + 1, if actions[n].LoopOut? then loops + {actions[n].key} else loops)
    ensures actions[n].LoopOut? && actions[n].key in loops ==> loops + {actions[n].key} == loops
  {
    BegunGrows(actions, n, loops);
    FilterGrows(actions, n, "");
  }

  method OutputAttrs(actions: seq<Out>, root: bool, latestError: string) returns (attrs: seq<Attr>)
    ensures attrs == Output(actions, root, latestError)
  {
    attrs := [];
    var seen: map<string, nat> := map[];
    var emittedLoops: set<string> := {};
    var errors: seq<string> := [];
    for i := 0 to |actions|
      invariant attrs == Attrs(actions, i) && Counted(seen, attrs) && errors == Messages(actions[..i])
      invariant Begun(actions, i, emittedLoops)
    {
      OneMoreAction(actions, i, emittedLoops);
      if actions[i].ErrorOut? {
        errors := errors + [actions[i].message];
      } else if !(actions[i].LoopOut? && actions[i].key in emittedLoops) {
        var attr: Attr;
        attr, seen := WriteAction(actions, i, seen);
        attrs := attrs + [attr];
        if actions[i].LoopOut? {
          emittedLoops := emittedLoops + {actions[i].key};
        }
      }
    }
    assert actions[..|actions|] == actions;
    attrs := OutputErrors(attrs, seen, errors, root, latestError);
  }

  /** The errors, gathered under one key, and on the root the latest of them. */
  method OutputErrors(written: seq<Attr>, counted: map<string, nat>, errors: seq<string>, root: bool, latestError: string)
    returns (attrs: seq<Attr>)
    requires Counted(counted, written)
    ensures attrs == WithLatest(WithErrors(written, errors), root, latestError)
  {
    var key, seen;
    attrs, seen := written, counted;
    if |errors| > 0 {
      attrs, seen := OutputMessages(written, counted, errors);
    }
    if root && latestError != "" {
      key, seen := NextLogKey(seen, "error");
      attrs := attrs + [LatestErrorAttr(key, latestError)];
    }
  }

  method OutputMessages(written: seq<Attr>, counted: map<string, nat>, errors: seq<string>)
    returns (attrs: seq<Attr>, seen: map<string, nat>)
    requires Counted(counted, written) && errors != []
    ensures attrs == WithErrors(written, errors) && Counted(seen, attrs)
  {
    var key;
    key, seen := NextLogKey(counted, "errors");
    NamedGrows(written, ErrorsAttr(key, errors));
    attrs := written + [ErrorsAttr(key, errors)];
  }

  // --- Nothing is lost or written twice ---

  function LoopItems(key: string, items: seq<Item>): seq<Out> {
    if items == [] then [] else LoopItems(key, items[..|items| - 1]) + [LoopOut(key, items[|items| - 1])]
  }

  function ErrorOuts(messages: seq<string>): seq<Out> {
    if messages == [] then [] else ErrorOuts(messages[..|messages| - 1]) + [ErrorOut(messages[|messages| - 1])]
  }

  /** The actions an attribute writes. */
  function Written(a: Attr): seq<Out> {
    match a
    case StepAttr(key, scope) => [Child(key.name, scope)]
    case FieldAttr(key, value) => [FieldOut(key.name, value)]
    case LoopAttr(key, items) => LoopItems(key.name, items)
    case ErrorsAttr(_, messages) => ErrorOuts(messages)
    case LatestErrorAttr(_, _) => []
  }

  function AllWritten(attrs: seq<Attr>): seq<Out> {
    if attrs == [] then [] else AllWritten(attrs[..|attrs| - 1]) + Written(attrs[|attrs| - 1])
  }

  function Times(s: seq<Out>, o: Out): nat {
    if s == [] then 0 else Times(s[..|s| - 1], o) + if s[|s| - 1] == o then 1 else 0
  }

  lemma TimesOneMore(s: seq<Out>, x: Out, o: Out)
    ensures Times(s + [x], o) == Times(s, o) + if x == o then 1 else 0
  {
    assert (s + [x])[..|s|] == s;
  }

  lemma {:induction false} TimesJoin(a: seq<Out>, b: seq<Out>, o: Out)
    ensures Times(a + b, o) == Times(a, o) + Times(b, o)
  {
    if b == [] {
      assert a + b == a;
    } else {
      assert (a + b)[..|a + b| - 1] == a + b[..|b| - 1];
      TimesJoin(a, b[..|b| - 1], o);
    }
  }

  lemma {:induction false} TimesIsMultiplicity(s: seq<Out>, o: Out)
    ensures Times(s, o) == multiset(s)[o]
  {
    if s != [] {
      TimesIsMultiplicity(s[..|s| - 1], o);
      assert s == s[..|s| - 1] + [s[|s| - 1]];
    }
  }

  lemma {:induction false} ItemsCount(actions: seq<Out>, o: Out)
    requires o.LoopOut?
    ensures Times(LoopItems(o.key, ItemsOf(actions, o.key)), o) == Times(actions, o)
  {
    if actions != [] {
      var front, last := actions[..|actions| - 1], actions[|actions| - 1];
      var items := ItemsOf(front, o.key);
      ItemsCount(front, o);
      if last.LoopOut? && last.key == o.key {
        assert (items + [last.item])[..|items|] == items;
        TimesOneMore(LoopItems(o.key, items), last, o);
      } else {
        assert ItemsOf(actions, o.key) == items;
      }
    }
  }

  lemma {:induction false} ErrorsCount(actions: seq<Out>, o: Out)
    ensures Times(ErrorOuts(Messages(actions)), o) == if o.ErrorOut? then Times(actions, o) else 0
  {
    if actions != [] {
      var front, last := actions[..|actions| - 1], actions[|actions| - 1];
      var messages := Messages(front);
      ErrorsCount(front, o);
      if last.ErrorOut? {
        assert (messages + [last.message])[..|messages|] == messages;
        TimesOneMore(ErrorOuts(messages), last, o);
      } else {
        assert Messages(actions) == messages;
      }
    }
  }

  lemma {:induction false} ItemsOfOther(key: string, items: seq<Item>, o: Out)
    requires !o.LoopOut? || o.key != key
    ensures Times(LoopItems(key, items), o) == 0
  {
    if items != [] {
      var front := items[..|items| - 1];
      ItemsOfOther(key, front, o);
      TimesOneMore(LoopItems(key, front), LoopOut(key, items[|items| - 1]), o);
    }
  }

  /** How often action n's attribute, if it has one, holds an action. */
  function Added(actions: seq<Out>, n: nat, o: Out): nat
    requires n < |actions|
  {
    if !WrittenAt(actions, n) then 0
    else if !actions[n].LoopOut? then (if o == actions[n] then 1 else 0)
    else if o.LoopOut? && o.key == actions[n].key then Times(actions, o) else 0
  }

  lemma AttrWrites(actions: seq<Out>, k: nat, before: seq<Attr>)
    requires k < |actions| && !actions[k].ErrorOut?
    ensures var o := actions[k];
            Written(AttrOf(actions, k, before)) == if o.LoopOut? then LoopItems(o.key, ItemsOf(actions, o.key)) else [o]
  {
  }

  /** An attribute holds its step or field once, or every item of its loop as often as it is kept. */
  lemma AttrCount(actions: seq<Out>, k: nat, before: seq<Attr>, o: Out)
    requires k < |actions| && WrittenAt(actions, k)
    ensures Times(Written(AttrOf(actions, k, before)), o) == Added(actions, k, o)
  {
    var a := actions[k];
    AttrWrites(actions, k, before);
    if !a.LoopOut? {
      OneTime(a, o);
    } else if o.LoopOut? && o.key == a.key {
      ItemsCount(actions, o);
    } else {
      ItemsOfOther(a.key, ItemsOf(actions, a.key), o);
    }
  }

  lemma OneTime(x: Out, o: Out)
    ensures Times([x], o) == if x == o then 1 else 0
  {
    assert [] + [x] == [x];
    TimesOneMore([], x, o);
  }

  lemma WrittenAppends(attrs: seq<Attr>, a: Attr, o: Out)
    ensures Times(AllWritten(attrs + [a]), o) == Times(AllWritten(attrs), o) + Times(Written(a), o)
  {
    assert (attrs + [a])[..|attrs|] == attrs;
    TimesJoin(AllWritten(attrs), Written(a), o);
  }

  /** How often the first n actions' attributes hold an action: a step or field as often as
      it is among them; an item as often as it is kept at all, if its loop began among them. */
  function Expected(actions: seq<Out>, n: nat, o: Out): nat
    requires n <= |actions|
  {
    if o.ErrorOut? then 0
    else if o.LoopOut? then (if ItemsOf(actions[..n], o.key) == [] then 0 else Times(actions, o))
    else Times(actions[..n], o)
  }

  lemma ExpectedGrows(actions: seq<Out>, n: nat, o: Out)
    requires 0 < n <= |actions|
    ensures Expected(actions, n, o) == Expected(actions, n - 1, o) + Added(actions, n - 1, o)
  {
    if o.LoopOut? { FilterGrows(actions, n - 1, o.key); }
    assert actions[..n] == actions[..n - 1] + [actions[n - 1]];
    TimesOneMore(actions[..n - 1], actions[n - 1], o);
  }

  /** How often the first n actions' attributes hold an action. */
  function WrittenTimes(actions: seq<Out>, n: nat, o: Out): nat
    requires n <= |actions|
  {
    Times(AllWritten(Attrs(actions, n)), o)
  }

  lemma WrittenGrows(actions: seq<Out>, n: nat, o: Out)
    requires 0 < n <= |actions|
    ensures WrittenTimes(actions, n, o) == WrittenTimes(actions, n - 1, o) + Added(actions, n - 1, o)
  {
    var before := Attrs(actions, n - 1);
    if WrittenAt(actions, n - 1) {
      var attr := AttrOf(actions, n - 1, before);
      AttrCount(actions, n - 1, before, o);
      WrittenAppends(before, attr, o);
      assert Attrs(actions, n) == before + [attr];
    } else {
      assert Attrs(actions, n) == before;
    }
  }

  lemma NothingWritten(actions: seq<Out>, o: Out)
    ensures WrittenTimes(actions, 0, o) == 0 == Expected(actions, 0, o)
  {
    assert actions[..0] == [];
  }

  /** Two counts that start and grow alike are the same. */
  lemma {:induction false} GrowAlike(a: seq<int>, b: seq<int>, n: nat)
    requires n < |a| == |b| && a[0] == b[0] && forall k :: 0 < k < |a| ==> a[k] - a[k - 1] == b[k] - b[k - 1]
    ensures a[n] == b[n]
  {
    if n > 0 {
      GrowAlike(a, b, n - 1);
    }
  }

  lemma WrittenAsExpected(actions: seq<Out>, o: Out)
    ensures WrittenTimes(actions, |actions|, o) == Expected(actions, |actions|, o)
  {
    var n := |actions|;
    var a := seq(n + 1, k requires 0 <= k < n + 1 => WrittenTimes(actions, k, o));
    var b := seq(n + 1, k requires 0 <= k < n + 1 => Expected(actions, k, o));
    NothingWritten(actions, o);
    forall k | 0 < k < n + 1
      ensures a[k] - a[k - 1] == b[k] - b[k - 1]
    {
      WrittenGrows(actions, k, o);
      ExpectedGrows(actions, k, o);
    }
    GrowAlike(a, b, n);
  }

  lemma ErrorsAreWritten(attrs: seq<Attr>, messages: seq<string>, root: bool, latestError: string, o: Out)
    ensures Times(AllWritten(WithLatest(WithErrors(attrs, messages), root, latestError)), o)
         == Times(AllWritten(attrs), o) + Times(ErrorOuts(messages), o)
  {
    var with := WithErrors(attrs, messages);
    WrittenAppends(attrs, ErrorsAttr(NextKey(attrs, "errors"), messages), o);
    WrittenAppends(with, LatestErrorAttr(NextKey(with, "error"), latestError), o);
  }

  function Output(actions: seq<Out>, root: bool, latestError: string): seq<Attr> {
    WithLatest(WithErrors(Attrs(actions, |actions|), Messages(actions)), root, latestError)
  }

  lemma ExpectedOfAll(actions: seq<Out>, o: Out)
    ensures Expected(actions, |actions|, o) == if o.ErrorOut? then 0 else Times(actions, o)
  {
    assert actions[..|actions|] == actions;
    if o.LoopOut? { ItemsCount(actions, o); }
  }

  lemma ActionIsWrittenOnce(actions: seq<Out>, root: bool, latestError: string, o: Out)
    ensures Times(AllWritten(Output(actions, root, latestError)), o) == Times(actions, o)
  {
    WrittenAsExpected(actions, o);
    ExpectedOfAll(actions, o);
    ErrorsCount(actions, o);
    ErrorsAreWritten(Attrs(actions, |actions|), Messages(actions), root, latestError, o);
  }

  /** Every action a scope kept is written exactly once. */
  lemma EveryActionIsWrittenOnce(actions: seq<Out>, root: bool, latestError: string)
    ensures multiset(AllWritten(Output(actions, root, latestError))) == multiset(actions)
  {
    forall o: Out
      ensures multiset(AllWritten(Output(actions, root, latestError)))[o] == multiset(actions)[o]
    {
      ActionIsWrittenOnce(actions, root, latestError, o);
      TimesIsMultiplicity(AllWritten(Output(actions, root, latestError)), o);
      TimesIsMultiplicity(actions, o);
    }
  }

  /** a is what the action at k writes: the step, the field, or the loop it is the first
      item of, with all that loop's items in order. */
  predicate Writes(actions: seq<Out>, k: nat, a: Attr)
    requires k < |actions|
  {
    && a.key.name == WrittenKey(actions[k])
    && match actions[k]
       case Child(_, scope) => a.StepAttr? && a.scope == scope
       case FieldOut(_, value) => a.FieldAttr? && a.value == value
       case LoopOut(name, _) => a.LoopAttr? && FirstItem(actions, k) && a.items == ItemsOf(actions, name)
       case ErrorOut(_) => false
  }

  function WrittenKey(o: Out): string { if o.ErrorOut? then "errors" else o.key }

  predicate SameLoop(o: Out, p: Out) { o.LoopOut? && p.LoopOut? && o.key == p.key }

  /** No earlier action is an item of the same loop. */
  predicate FirstItem(actions: seq<Out>, k: nat)
    requires k < |actions|
  {
    forall j :: 0 <= j < k ==> !SameLoop(actions[j], actions[k])
  }

  lemma {:induction false} NoItems(actions: seq<Out>, n: nat, o: Out)
    requires n <= |actions| && o.LoopOut?
    ensures ItemsOf(actions[..n], o.key) == [] <==> forall j :: 0 <= j < n ==> !SameLoop(actions[j], o)
  {
    if n > 0 {
      NoItems(actions, n - 1, o);
      FilterGrows(actions, n - 1, o.key);
    }
  }

  predicate Increasing(at: seq<nat>, n: nat) {
    && (forall k :: 0 <= k < |at| ==> at[k] < n)
    && (forall j, k :: 0 <= j < k < |at| ==> at[j] < at[k])
  }

  /** Which action each attribute is, in the order they are written. */
  function PlacesOf(actions: seq<Out>, n: nat): seq<nat>
    requires n <= |actions|
  {
    if n == 0 then [] else if WrittenAt(actions, n - 1) then PlacesOf(actions, n - 1) + [n - 1] else PlacesOf(actions, n - 1)
  }

  lemma WrittenIsFirst(actions: seq<Out>, k: nat)
    requires k < |actions|
    ensures WrittenAt(actions, k) <==> !actions[k].ErrorOut? && (actions[k].LoopOut? ==> FirstItem(actions, k))
    ensures WrittenAt(actions, k) ==> forall before :: Writes(actions, k, AttrOf(actions, k, before))
  {
    if actions[k].LoopOut? {
      NoItems(actions, k, actions[k]);
    }
  }

  /** at are the places of attrs among the first n actions, and every other is an error or
      a later item of its loop. */
  predicate InPlace(actions: seq<Out>, n: nat, at: seq<nat>, attrs: seq<Attr>)
    requires n <= |actions|
  {
    && |at| == |attrs| && Increasing(at, n)
    && (forall k :: 0 <= k < |at| ==> Writes(actions, at[k], attrs[k]))
    && (forall i: nat :: i < n && i !in at ==> Unwritten(actions, i))
  }

  predicate Unwritten(actions: seq<Out>, i: nat)
    requires i < |actions|
  {
    actions[i].ErrorOut? || (actions[i].LoopOut? && !FirstItem(actions, i))
  }

  lemma InPlaceGrows(actions: seq<Out>, n: nat, at: seq<nat>, attrs: seq<Attr>, a: Attr)
    requires n < |actions| && InPlace(actions, n, at, attrs) && Writes(actions, n, a)
    ensures InPlace(actions, n + 1, at + [n], attrs + [a])
  {
    forall i: nat | i < n + 1 && i !in at + [n]
      ensures Unwritten(actions, i)
    {
      assert (at + [n])[|at|] == n;
      assert forall k :: 0 <= k < |at| ==> (at + [n])[k] == at[k];
    }
  }

  /** The attributes are written in the order of their actions: each step and field where
      it was kept, and each loop once, where its first item was, with all its items in
      order. An action with no attribute is an error or a later item of its loop. */
  lemma {:induction false} LoopsAreGrouped(actions: seq<Out>, n: nat)
    requires n <= |actions|
    ensures InPlace(actions, n, PlacesOf(actions, n), Attrs(actions, n))
  {
    if n > 0 {
      LoopsAreGrouped(actions, n - 1);
      WrittenIsFirst(actions, n - 1);
      var before := Attrs(actions, n - 1);
      if WrittenAt(actions, n - 1) {
        InPlaceGrows(actions, n - 1, PlacesOf(actions, n - 1), before, AttrOf(actions, n - 1, before));
      }
    }
  }

  /** So each loop has one attribute. */
  lemma OneAttrPerLoop(actions: seq<Out>, n: nat, j: nat, k: nat)
    requires n <= |actions| && j < k < |Attrs(actions, n)| && Attrs(actions, n)[j].LoopAttr? && Attrs(actions, n)[k].LoopAttr?
    ensures Attrs(actions, n)[j].key.name != Attrs(actions, n)[k].key.name
  {
    LoopsAreGrouped(actions, n);
    var at := PlacesOf(actions, n);
    assert Writes(actions, at[j], Attrs(actions, n)[j]) && Writes(actions, at[k], Attrs(actions, n)[k]);
    assert at[j] < at[k] && !SameLoop(actions[at[j]], actions[at[k]]);
  }

  // --- The errors, the latest one, and the keys ---

  predicate HasLatest(attrs: seq<Attr>) { exists k :: 0 <= k < |attrs| && attrs[k].LatestErrorAttr? }

  lemma {:induction false} ActionsWriteNoError(actions: seq<Out>, n: nat)
    requires n <= |actions|
    ensures forall k :: 0 <= k < |Attrs(actions, n)| ==> !Attrs(actions, n)[k].LatestErrorAttr? && !Attrs(actions, n)[k].ErrorsAttr?
  {
    if n > 0 {
      ActionsWriteNoError(actions, n - 1);
    }
  }

  /** The errors are written once, after the actions, all of them and in order, if there are
      any; and after them the latest one, exactly on the root and when there is one. */
  lemma ErrorsComeLast(actions: seq<Out>, root: bool, latestError: string)
    ensures var attrs, n, some := Output(actions, root, latestError), |Attrs(actions, |actions|)|, |Messages(actions)| > 0;
            && (forall k :: 0 <= k < |attrs| ==> (attrs[k].ErrorsAttr? <==> some && k == n))
            && (some ==> n < |attrs| && attrs[n].messages == Messages(actions) && attrs[n].key.name == "errors")
            && (forall k :: 0 <= k < |attrs| ==> (attrs[k].LatestErrorAttr? <==> root && latestError != "" && k == |attrs| - 1))
            && (root && latestError != "" ==> |attrs| > n && attrs[|attrs| - 1] == LatestErrorAttr(attrs[|attrs| - 1].key, latestError))
            && (HasLatest(attrs) <==> root && latestError != "")
  {
    ActionsWriteNoError(actions, |actions|);
    var attrs := Output(actions, root, latestError);
    if root && latestError != "" {
      assert attrs[|attrs| - 1].LatestErrorAttr?;
    }
  }

  /** Each key's count is one more than how often its name was used before it. */
  predicate Numbered(attrs: seq<Attr>) { forall k :: 0 <= k < |attrs| ==> attrs[k].key == NextKey(attrs[..k], attrs[k].key.name) }

  lemma NumberedGrows(attrs: seq<Attr>, a: Attr)
    requires Numbered(attrs) && a.key == NextKey(attrs, a.key.name)
    ensures Numbered(attrs + [a])
  {
    var more := attrs + [a];
    forall k | 0 <= k < |more|
      ensures more[k].key == NextKey(more[..k], more[k].key.name)
    {
      assert more[..k] == attrs[..k];
      assert attrs[..|attrs|] == attrs;
    }
  }

  lemma {:induction false} AttrsAreNumbered(actions: seq<Out>, n: nat)
    requires n <= |actions|
    ensures Numbered(Attrs(actions, n))
  {
    if n > 0 {
      AttrsAreNumbered(actions, n - 1);
      if WrittenAt(actions, n - 1) {
        NumberedGrows(Attrs(actions, n - 1), AttrOf(actions, n - 1, Attrs(actions, n - 1)));
      }
    }
  }

  lemma {:induction false} NamedRises(attrs: seq<Attr>, j: nat, k: nat, name: string)
    requires j <= k <= |attrs|
    ensures Named(attrs[..j], name) <= Named(attrs[..k], name)
  {
    if j < k {
      NamedRises(attrs, j, k - 1, name);
      assert attrs[..k][..k - 1] == attrs[..k - 1];
    }
  }

  lemma OutputIsNumbered(actions: seq<Out>, root: bool, latestError: string)
    ensures Numbered(Output(actions, root, latestError))
  {
    var written := Attrs(actions, |actions|);
    var messages := WithErrors(written, Messages(actions));
    AttrsAreNumbered(actions, |actions|);
    if messages != written {
      NumberedGrows(written, ErrorsAttr(NextKey(written, "errors"), Messages(actions)));
    }
    if root && latestError != "" {
      NumberedGrows(messages, LatestErrorAttr(NextKey(messages, "error"), latestError));
    }
  }

  /** No two attributes of a scope have the same key. */
  lemma KeysDiffer(actions: seq<Out>, root: bool, latestError: string)
    ensures var attrs := Output(actions, root, latestError);
            Numbered(attrs) && forall j, k :: 0 <= j < k < |attrs| ==> attrs[j].key != attrs[k].key
  {
    var attrs := Output(actions, root, latestError);
    OutputIsNumbered(actions, root, latestError);
    forall j, k | 0 <= j < k < |attrs|
      ensures attrs[j].key != attrs[k].key
    {
      NumberedDiffer(attrs, j, k);
    }
  }

  lemma NumberedDiffer(attrs: seq<Attr>, j: nat, k: nat)
    requires Numbered(attrs) && j < k < |attrs|
    ensures attrs[j].key != attrs[k].key
  {
    NamedRises(attrs, j + 1, k, attrs[j].key.name);
    assert attrs[..j + 1][..j] == attrs[..j];
  }
}
