/** The request log: recorded actions turned into a tree of scopes (logging/request_log.go).
    Scopes are numbered in the order they are made, the root first. */
module RequestLog {
  import opened Options


  datatype Pair = Pair(key: string, value: string)

  /** What a request records, in order. */
  datatype Action =
    | Open(name: string, at: int)
    | Close(at: int)
    | Field(key: string, value: string)
    | Error(message: string)
    | Loop(key: string, item: seq<Pair>)

  /** What a scope keeps of them; a step is kept as its scope. */
  datatype Out = Child(key: string, scope: nat) | FieldOut(key: string, value: string) | ErrorOut(message: string) | LoopOut(key: string, item: seq<Pair>)

  datatype Scope = Scope(name: string, started: int, ended: Option<int>, actions: seq<Out>, openChildren: seq<nat>, parent: nat)

  datatype LoggingError = CloseWithoutStep | NotClosed(step: string)

  // --- Reading a tree back ---

  /** Every step is kept in a scope made before its own, under its own name. */
  predicate Ordered(scopes: seq<Scope>) {
    forall i, k :: 0 <= i < |scopes| && 0 <= k < |scopes[i].actions| && scopes[i].actions[k].Child? ==>
                     i < scopes[i].actions[k].scope < |scopes|
                     && scopes[i].actions[k].key == scopes[scopes[i].actions[k].scope].name
  }

  /** The actions the first n kept in scope i stand for, in order. */
  function Flatten(scopes: seq<Scope>, i: nat, n: nat): seq<Action>
    requires Ordered(scopes) && i < |scopes| && n <= |scopes[i].actions|
    decreases |scopes| - i, n, 0
  {
    if n == 0 then [] else Flatten(scopes, i, n - 1) + Read(scopes, i, n - 1)
  }

  function Read(scopes: seq<Scope>, i: nat, k: nat): seq<Action>
    requires Ordered(scopes) && i < |scopes| && k < |scopes[i].actions|
    decreases |scopes| - i, k, 1
  {
    match scopes[i].actions[k]
    case Child(_, c) => [Open(scopes[c].name, scopes[c].started)] + Flatten(scopes, c, |scopes[c].actions|) + Ending(scopes[c])
    case FieldOut(key, value) => [Field(key, value)]
    case ErrorOut(message) => [Error(message)]
    case LoopOut(key, item) => [Loop(key, item)]
  }

  function Ending(s: Scope): seq<Action> { if s.ended.Some? then [Close(s.ended.value)] else [] }

  function All(scopes: seq<Scope>, i: nat): seq<Action>
    requires Ordered(scopes) && i < |scopes|
  {
    Flatten(scopes, i, |scopes[i].actions|)
  }

  /** Every scope the first n actions of scope i lead to is numbered below hi. */
  predicate Below(scopes: seq<Scope>, i: nat, n: nat, hi: nat)
    requires Ordered(scopes) && i < |scopes| && n <= |scopes[i].actions|
    decreases |scopes| - i, n
  {
    forall k :: 0 <= k < n && scopes[i].actions[k].Child? ==>
                  var c := scopes[i].actions[k].scope;
                  c < hi && Below(scopes, c, |scopes[c].actions|, hi)
  }

  lemma {:induction false} AllBelow(scopes: seq<Scope>, i: nat, n: nat)
    requires Ordered(scopes) && i < |scopes| && n <= |scopes[i].actions|
    ensures Below(scopes, i, n, |scopes|)
    decreases |scopes| - i, n
  {
    forall k | 0 <= k < n && scopes[i].actions[k].Child?
      ensures Below(scopes, scopes[i].actions[k].scope, |scopes[scopes[i].actions[k].scope].actions|, |scopes|)
    {
      AllBelow(scopes, scopes[i].actions[k].scope, |scopes[scopes[i].actions[k].scope].actions|);
    }
  }

  predicate SameBetween(a: seq<Scope>, b: seq<Scope>, i: nat, hi: nat) {
    |a| <= |b| && hi <= |a| && forall j :: i < j < hi ==> SameTree(a[j], b[j])
  }

  predicate SameTree(s: Scope, t: Scope) { s.(openChildren := t.openChildren) == t }

  /** What scope i reads depends only on the scopes it leads to. */
  lemma {:induction false} ReadsAlike(a: seq<Scope>, b: seq<Scope>, i: nat, n: nat, hi: nat)
    requires Ordered(a) && Ordered(b) && i < |a| <= |b| && n <= |a[i].actions| && n <= |b[i].actions|
    requires SameBetween(a, b, i, hi) && a[i].actions[..n] == b[i].actions[..n] && Below(a, i, n, hi)
    ensures Flatten(a, i, n) == Flatten(b, i, n) && Below(b, i, n, hi)
    decreases |a| - i, n
  {
    forall k | 0 <= k < n
      ensures a[i].actions[k] == b[i].actions[k] && Read(a, i, k) == Read(b, i, k)
      ensures b[i].actions[k].Child? ==> Below(b, b[i].actions[k].scope, |b[b[i].actions[k].scope].actions|, hi)
    {
      assert a[i].actions[..n][k] == b[i].actions[..n][k];
      if a[i].actions[k].Child? {
        var c := a[i].actions[k].scope;
        ReadsAlike(a, b, c, |a[c].actions|, hi);
      }
    }
    FlattensAlike(a, b, i, n);
  }

  lemma {:induction false} FlattensAlike(a: seq<Scope>, b: seq<Scope>, i: nat, n: nat)
    requires Ordered(a) && Ordered(b) && i < |a| <= |b| && n <= |a[i].actions| && n <= |b[i].actions|
    requires forall k :: 0 <= k < n ==> Read(a, i, k) == Read(b, i, k)
    ensures Flatten(a, i, n) == Flatten(b, i, n)
  {
    if n > 0 {
      FlattensAlike(a, b, i, n - 1);
    }
  }

  // --- The scopes still open ---

  predicate LastKept(s: Scope, child: nat) {
    s.actions != [] && s.actions[|s.actions| - 1].Child? && s.actions[|s.actions| - 1].scope == child
  }

  /** child is open in parent, and the last thing parent keeps. */
  predicate OpenIn(scopes: seq<Scope>, parent: nat, child: nat)
    requires Ordered(scopes)
  {
    && parent < child < |scopes| && scopes[child].ended.None? && LastKept(scopes[parent], child)
    && Below(scopes, parent, |scopes[parent].actions| - 1, child)
  }

  /** What was kept below a changed scope reads as before, so what scope path[m] gained at
      its end is what every scope it is open in gained. */
  lemma {:induction false} TailGrows(a: seq<Scope>, b: seq<Scope>, path: seq<nat>, k: nat, m: nat, tail: seq<Action>)
    requires Ordered(a) && Ordered(b) && |a| <= |b| && k <= m < |path| && path[m] < |a|
    requires forall j :: k <= j < m ==> OpenIn(a, path[j], path[j + 1])
    requires forall j :: 0 <= j < path[m] ==> SameTree(a[j], b[j])
    requires m > k ==> b[path[m]].name == a[path[m]].name && b[path[m]].started == a[path[m]].started && b[path[m]].ended.None?
    requires All(b, path[m]) == All(a, path[m]) + tail
    ensures path[k] <= path[m] && All(b, path[k]) == All(a, path[k]) + tail
    decreases m - k
  {
    if k < m {
      TailGrows(a, b, path, k + 1, m, tail);
      var i, c := path[k], path[k + 1];
      var n := |a[i].actions| - 1;
      assert SameTree(a[i], b[i]);
      ReadsAlike(a, b, i, n, c);
      assert Read(b, i, n) == Read(a, i, n) + tail by {
        if c < path[m] { assert SameTree(a[c], b[c]); }
      }
    }
  }

  /** path leads from the root through each scope's one open child to the current scope;
      every other scope is ended and has no open child. */
  predicate PathOk(scopes: seq<Scope>, path: seq<nat>) {
    && Ordered(scopes) && path != [] && path[0] == 0
    && (forall k :: 0 <= k < |path| ==> path[k] < |scopes|)
    && (forall k :: 0 <= k < |path| - 1 ==> LinkOk(scopes, path[k], path[k + 1]))
    && scopes[path[|path| - 1]].openChildren == []
    && (forall i :: 0 <= i < |scopes| && i !in path ==> scopes[i].openChildren == [] && scopes[i].ended.Some?)
  }

  predicate LinkOk(scopes: seq<Scope>, parent: nat, child: nat)
    requires Ordered(scopes)
  {
    OpenIn(scopes, parent, child) && scopes[parent].openChildren == [child] && scopes[child].parent == parent
  }

  lemma {:induction false} PathRises(scopes: seq<Scope>, path: seq<nat>, j: nat, k: nat)
    requires PathOk(scopes, path) && j < k < |path|
    ensures path[j] < path[k]
  {
    assert LinkOk(scopes, path[k - 1], path[k]);
    if j < k - 1 {
      PathRises(scopes, path, j, k - 1);
    }
  }

  /** At most one open child per scope. */
  lemma OneOpenChild(scopes: seq<Scope>, path: seq<nat>, i: nat)
    requires PathOk(scopes, path) && i < |scopes|
    ensures |scopes[i].openChildren| <= 1
  {
    if i in path {
      var k :| 0 <= k < |path| && path[k] == i;
      assert k < |path| - 1 ==> LinkOk(scopes, path[k], path[k + 1]);
    }
  }

  function Keeping(s: Scope, out: Out): Scope { s.(actions := s.actions + [out]) }

  function Appended(scopes: seq<Scope>, current: nat, out: Out): seq<Scope>
    requires current < |scopes|
  {
    scopes[current := Keeping(scopes[current], out)]
  }

  function Opened(scopes: seq<Scope>, current: nat, name: string, at: int): seq<Scope>
    requires current < |scopes|
  {
    var child := |scopes|;
    var parent := Keeping(scopes[current], Child(name, child));
    scopes[current := parent.(openChildren := parent.openChildren + [child])] + [Scope(name, at, None, [], [], current)]
  }

  /** Sets the current scope's end and takes it off its parent's open children. */
  function Closed(scopes: seq<Scope>, current: nat, at: int): seq<Scope>
    requires current < |scopes| && scopes[current].parent < |scopes|
  {
    var ended := scopes[current := scopes[current].(ended := Some(at))];
    var parent := ended[scopes[current].parent];
    ended[scopes[current].parent :=
      parent.(openChildren := if parent.openChildren == [] then [] else parent.openChildren[..|parent.openChildren| - 1])]
  }

  function OutOf(a: Action): Out
    requires a.Field? || a.Error? || a.Loop?
  {
    match a
    case Field(key, value) => FieldOut(key, value)
    case Error(message) => ErrorOut(message)
    case Loop(key, item) => LoopOut(key, item)
  }

  lemma LinkHolds(a: seq<Scope>, b: seq<Scope>, path: seq<nat>, k: nat)
    requires PathOk(a, path) && Ordered(b) && |a| <= |b| && k + 1 < |path|
    requires forall j :: 0 <= j < path[k + 1] ==> a[j] == b[j]
    requires b[path[k + 1]].ended.None? && b[path[k + 1]].parent == a[path[k + 1]].parent
    ensures OpenIn(a, path[k], path[k + 1]) && LinkOk(b, path[k], path[k + 1])
  {
    assert LinkOk(a, path[k], path[k + 1]);
    ReadsAlike(a, b, path[k], |a[path[k]].actions| - 1, path[k + 1]);
  }

  /** Nothing before scope path[m] changed, and that scope gained tail at its end. */
  predicate GainsAt(a: seq<Scope>, b: seq<Scope>, path: seq<nat>, m: nat, tail: seq<Action>) {
    && Ordered(a) && Ordered(b) && |a| <= |b| && m < |path| && path[m] < |a|
    && (forall j :: 0 <= j < path[m] ==> a[j] == b[j])
    && b[path[m]].(actions := [], openChildren := []) == a[path[m]].(actions := [], openChildren := [])
    && All(b, path[m]) == All(a, path[m]) + tail
  }

  lemma RootGains(a: seq<Scope>, b: seq<Scope>, path: seq<nat>, m: nat, tail: seq<Action>)
    requires PathOk(a, path) && GainsAt(a, b, path, m, tail)
    ensures forall k :: 0 <= k < m ==> LinkOk(b, path[k], path[k + 1])
    ensures All(b, 0) == All(a, 0) + tail
  {
    forall k | 0 <= k < m
      ensures OpenIn(a, path[k], path[k + 1]) && LinkOk(b, path[k], path[k + 1])
    {
      assert LinkOk(a, path[k], path[k + 1]) && LinkOk(a, path[m - 1], path[m]);
      if k + 1 < m { PathRises(a, path, k + 1, m); }
      LinkHolds(a, b, path, k);
    }
    if m > 0 { assert OpenIn(a, path[m - 1], path[m]); }
    TailGrows(a, b, path, 0, m, tail);
  }

  lemma AppendGains(scopes: seq<Scope>, path: seq<nat>, a: Action)
    requires PathOk(scopes, path) && (a.Field? || a.Error? || a.Loop?)
    ensures GainsAt(scopes, Appended(scopes, path[|path| - 1], OutOf(a)), path, |path| - 1, [a])
  {
    var current := path[|path| - 1];
    var b := Appended(scopes, current, OutOf(a));
    forall i, k | 0 <= i < |b| && 0 <= k < |b[i].actions| && b[i].actions[k].Child?
      ensures i < b[i].actions[k].scope < |b| && b[i].actions[k].key == b[b[i].actions[k].scope].name
    {
      assert scopes[i].actions[k].Child?;
    }
    AllBelow(scopes, current, |scopes[current].actions|);
    ReadsAlike(scopes, b, current, |scopes[current].actions|, |scopes|);
    assert Read(b, current, |scopes[current].actions|) == [a];
  }

  lemma AppendKeeps(scopes: seq<Scope>, path: seq<nat>, a: Action)
    requires PathOk(scopes, path) && (a.Field? || a.Error? || a.Loop?)
    ensures var b := Appended(scopes, path[|path| - 1], OutOf(a));
            PathOk(b, path) && All(b, 0) == All(scopes, 0) + [a] && NamesOf(b, path) == NamesOf(scopes, path)
  {
    var b := Appended(scopes, path[|path| - 1], OutOf(a));
    AppendGains(scopes, path, a);
    RootGains(scopes, b, path, |path| - 1, [a]);
  }

  lemma OpenGains(scopes: seq<Scope>, path: seq<nat>, name: string, at: int)
    requires PathOk(scopes, path)
    ensures var b := Opened(scopes, path[|path| - 1], name, at);
            && GainsAt(scopes, b, path, |path| - 1, [Open(name, at)])
            && LinkOk(b, path[|path| - 1], |scopes|)
  {
    var current := path[|path| - 1];
    var b := Opened(scopes, current, name, at);
    forall i, k | 0 <= i < |b| && 0 <= k < |b[i].actions| && b[i].actions[k].Child?
      ensures i < b[i].actions[k].scope < |b| && b[i].actions[k].key == b[b[i].actions[k].scope].name
    {
      assert (i == current && k == |scopes[current].actions|) || scopes[i].actions[k].Child?;
    }
    AllBelow(scopes, current, |scopes[current].actions|);
    ReadsAlike(scopes, b, current, |scopes[current].actions|, |scopes|);
    assert Read(b, current, |scopes[current].actions|) == [Open(name, at)];
  }

  lemma OpenKeeps(scopes: seq<Scope>, path: seq<nat>, name: string, at: int)
    requires PathOk(scopes, path)
    ensures var b := Opened(scopes, path[|path| - 1], name, at);
            PathOk(b, path + [|scopes|]) && All(b, 0) == All(scopes, 0) + [Open(name, at)]
  {
    var b := Opened(scopes, path[|path| - 1], name, at);
    OpenGains(scopes, path, name, at);
    RootGains(scopes, b, path, |path| - 1, [Open(name, at)]);
    var more := path + [|scopes|];
    forall k | 0 <= k < |more| - 1
      ensures LinkOk(b, more[k], more[k + 1])
    {
      assert k < |path| - 1 ==> LinkOk(b, path[k], path[k + 1]);
    }
    forall i | 0 <= i < |b| && i !in more
      ensures b[i].openChildren == [] && b[i].ended.Some?
    {
      assert more[|path|] == |scopes| && i !in path && b[i] == scopes[i];
    }
  }

  lemma CloseGains(scopes: seq<Scope>, path: seq<nat>, at: int)
    requires PathOk(scopes, path) && |path| > 1
    ensures scopes[path[|path| - 1]].parent == path[|path| - 2]
    ensures var b := Closed(scopes, path[|path| - 1], at);
            GainsAt(scopes, b, path, |path| - 2, [Close(at)]) && b[path[|path| - 2]].openChildren == []
  {
    var parent, current := path[|path| - 2], path[|path| - 1];
    assert LinkOk(scopes, parent, current);
    var b := Closed(scopes, current, at);
    forall i, k | 0 <= i < |b| && 0 <= k < |b[i].actions| && b[i].actions[k].Child?
      ensures i < b[i].actions[k].scope < |b| && b[i].actions[k].key == b[b[i].actions[k].scope].name
    {
      assert scopes[i].actions[k].Child?;
    }
    var n := |scopes[parent].actions| - 1;
    ReadsAlike(scopes, b, parent, n, current);
    AllBelow(scopes, current, |scopes[current].actions|);
    ReadsAlike(scopes, b, current, |scopes[current].actions|, |scopes|);
    assert Read(b, parent, n) == Read(scopes, parent, n) + [Close(at)];
  }

  lemma CloseKeeps(scopes: seq<Scope>, path: seq<nat>, at: int)
    requires PathOk(scopes, path) && |path| > 1
    ensures scopes[path[|path| - 1]].parent == path[|path| - 2]
    ensures var b := Closed(scopes, path[|path| - 1], at);
            && PathOk(b, path[..|path| - 1]) && All(b, 0) == All(scopes, 0) + [Close(at)]
            && NamesOf(b, path[..|path| - 1]) == NamesOf(scopes, path)[..|path| - 2]
  {
    CloseGains(scopes, path, at);
    var b := Closed(scopes, path[|path| - 1], at);
    RootGains(scopes, b, path, |path| - 2, [Close(at)]);
    PathRises(scopes, path, |path| - 2, |path| - 1);
    forall i | 0 <= i < |b| && i !in path[..|path| - 1]
      ensures b[i].openChildren == [] && b[i].ended.Some?
    {
      assert i != path[|path| - 1] ==> i !in path;
    }
  }

  // --- Recorded actions, matched up without any tree ---

  /** The steps open after some actions, outermost first. */
  function OpenSteps(actions: seq<Action>): seq<string> {
    if actions == [] then []
    else
      var before, a := OpenSteps(actions[..|actions| - 1]), actions[|actions| - 1];
      if a.Open? then before + [a.name]
      else if a.Close? && before != [] then before[..|before| - 1]
      else before
  }

  /** All but the closes that close nothing. */
  function Kept(actions: seq<Action>): seq<Action> {
    if actions == [] then []
    else
      var front, a := actions[..|actions| - 1], actions[|actions| - 1];
      Kept(front) + if a.Close? && OpenSteps(front) == [] then [] else [a]
  }

  function Unmatched(actions: seq<Action>): nat {
    if actions == [] then 0
    else
      var front, a := actions[..|actions| - 1], actions[|actions| - 1];
      Unmatched(front) + if a.Close? && OpenSteps(front) == [] then 1 else 0
  }

  function LatestError(actions: seq<Action>): string {
    if actions == [] then ""
    else if actions[|actions| - 1].Error? then actions[|actions| - 1].message
    else LatestError(actions[..|actions| - 1])
  }

  function Closes(n: nat, at: int): seq<Action> { seq(n, _ => Close(at)) }

  function NotClosedOf(steps: seq<string>): seq<LoggingError> {
    if steps == [] then [] else [NotClosed(steps[|steps| - 1])] + NotClosedOf(steps[..|steps| - 1])
  }

  function CloseErrors(n: nat): seq<LoggingError> { seq(n, _ => CloseWithoutStep) }

  lemma {:induction false} OneErrorPerStep(steps: seq<string>)
    ensures |NotClosedOf(steps)| == |steps|
  {
    if steps != [] {
      OneErrorPerStep(steps[..|steps| - 1]);
    }
  }

  lemma Then(front: seq<Action>, a: Action)
    ensures var before, all := OpenSteps(front), front + [a];
            && OpenSteps(all) == (if a.Open? then before + [a.name]
                                  else if a.Close? && before != [] then before[..|before| - 1] else before)
            && Kept(all) == Kept(front) + (if a.Close? && before == [] then [] else [a])
            && Unmatched(all) == Unmatched(front) + (if a.Close? && before == [] then 1 else 0)
            && LatestError(all) == if a.Error? then a.message else LatestError(front)
  {
    assert (front + [a])[..|front|] == front;
  }

  /** What is kept leaves the same steps open and closes nothing that is not. */
  lemma {:induction false} KeptMatches(actions: seq<Action>)
    ensures OpenSteps(Kept(actions)) == OpenSteps(actions) && Unmatched(Kept(actions)) == 0
    ensures |Kept(actions)| + Unmatched(actions) == |actions|
    ensures Kept(actions) == actions <==> Unmatched(actions) == 0
  {
    if actions != [] {
      var front, a := actions[..|actions| - 1], actions[|actions| - 1];
      KeptMatches(front);
      assert actions == front + [a];
      Then(front, a);
      Then(Kept(front), a);
      assert Kept(front) + [] == Kept(front);
    }
  }

  /** Closing what is open balances the log. */
  lemma {:induction false} ClosesBalance(actions: seq<Action>, n: nat, at: int)
    requires n <= |OpenSteps(actions)|
    ensures OpenSteps(actions + Closes(n, at)) == OpenSteps(actions)[..|OpenSteps(actions)| - n]
    ensures Unmatched(actions + Closes(n, at)) == Unmatched(actions)
  {
    if n == 0 {
      assert actions + Closes(0, at) == actions;
    } else {
      ClosesBalance(actions, n - 1, at);
      assert actions + Closes(n, at) == actions + Closes(n - 1, at) + [Close(at)];
      Then(actions + Closes(n - 1, at), Close(at));
    }
  }

  lemma ErrorsMove(errors: seq<LoggingError>, steps: seq<string>)
    requires steps != []
    ensures errors + [NotClosed(steps[|steps| - 1])] + NotClosedOf(steps[..|steps| - 1]) == errors + NotClosedOf(steps)
  {
    var last, rest := [NotClosed(steps[|steps| - 1])], NotClosedOf(steps[..|steps| - 1]);
    assert NotClosedOf(steps) == last + rest;
    assert errors + last + rest == errors + (last + rest);
  }

  lemma ClosesMore(actions: seq<Action>, n: nat, at: int)
    ensures actions + Closes(n, at) + [Close(at)] == actions + Closes(n + 1, at)
  {
  }

  // --- Building the tree ---

  function NamesOf(scopes: seq<Scope>, path: seq<nat>): seq<string>
    requires PathOk(scopes, path)
  {
    seq(|path| - 1, k requires 0 <= k < |path| - 1 => scopes[path[k + 1]].name)
  }

  /** What a tree shows: what it reads back, its open steps, its logging errors and latest error. */
  datatype View = View(read: seq<Action>, open: seq<string>, errors: seq<LoggingError>, latest: string)

  function ViewOf(actions: seq<Action>): View {
    View(Kept(actions), OpenSteps(actions), CloseErrors(Unmatched(actions)), LatestError(actions))
  }

  function ViewAfter(v: View, a: Action): View {
    match a
    case Open(name, _) => v.(read := v.read + [a], open := v.open + [name])
    case Close(_) =>
      if v.open == [] then v.(errors := v.errors + [CloseWithoutStep])
      else v.(read := v.read + [a], open := v.open[..|v.open| - 1])
    case Error(message) => v.(read := v.read + [a], latest := message)
    case _ => v.(read := v.read + [a])
  }

  lemma ViewGrows(actions: seq<Action>, a: Action)
    ensures ViewOf(actions + [a]) == ViewAfter(ViewOf(actions), a)
  {
    Then(actions, a);
    assert Kept(actions) + [] == Kept(actions);
  }

  class ScopeTree {
    var scopes: seq<Scope>
    var latestError: string
    var loggingErrors: seq<LoggingError>

    /** The actions applied, and the scopes open after them. */
    ghost var applied: seq<Action>
    ghost var path: seq<nat>

    ghost predicate Valid()
      reads this
    {
      PathOk(scopes, path) && Shown() == ViewOf(applied)
    }

    ghost function Shown(): View
      requires PathOk(scopes, path)
      reads this
    {
      View(All(scopes, 0), NamesOf(scopes, path), loggingErrors, latestError)
    }

    constructor (started: int)
      ensures Valid() && applied == []
    {
      scopes, latestError, loggingErrors := [Scope("", started, None, [], [], 0)], "", [];
      applied, path := [], [0];
    }

    method CurrentOpenScope() returns (current: nat)
      requires PathOk(scopes, path)
      ensures current == path[|path| - 1]
    {
      current := 0;
      ghost var k := 0;
      while |scopes[current].openChildren| > 0
        invariant k < |path| && current == path[k]
        decreases |path| - k
      {
        assert k < |path| - 1 && LinkOk(scopes, path[k], path[k + 1]);
        current := scopes[current].openChildren[|scopes[current].openChildren| - 1];
        k := k + 1;
      }
      assert k < |path| - 1 ==> LinkOk(scopes, path[k], path[k + 1]);
    }

    /** Keeps an action where it was recorded: the tree reads back as the actions so far
        without the closes that closed nothing, each of which is a logging error. */
    method Apply(action: Action)
      requires Valid()
      modifies this
      ensures Valid() && applied == old(applied) + [action]
    {
      ViewGrows(applied, action);
      Place(action);
      applied := applied + [action];
    }

    method Place(action: Action)
      requires PathOk(scopes, path)
      modifies `scopes, `path, `latestError, `loggingErrors
      ensures PathOk(scopes, path) && Shown() == ViewAfter(old(Shown()), action)
    {
      match action
      case Open(name, at) => OpenStep(name, at);
      case Close(at) => CloseStep(at);
      case _ => Keep(action);
    }

    method CloseStep(at: int)
      requires PathOk(scopes, path)
      modifies `scopes, `path, `loggingErrors
      ensures PathOk(scopes, path) && Shown() == ViewAfter(old(Shown()), Close(at))
    {
      var current := CurrentOpenScope();
      if current == 0 {
        AtRoot(scopes, path);
        loggingErrors := loggingErrors + [CloseWithoutStep];
      } else {
        AtRootOrNamed(scopes, path);
        CloseCurrent(at);
      }
    }

    method OpenStep(name: string, at: int)
      requires PathOk(scopes, path)
      modifies `scopes, `path
      ensures PathOk(scopes, path) && Shown() == ViewAfter(old(Shown()), Open(name, at))
    {
      var current := CurrentOpenScope();
      var child := |scopes|;
      OpenKeeps(scopes, path, name, at);
      var parent := scopes[current].(actions := scopes[current].actions + [Child(name, child)]);
      parent := parent.(openChildren := parent.openChildren + [child]);
      scopes := scopes[current := parent] + [Scope(name, at, None, [], [], current)];
      path := path + [child];
    }

    method Keep(action: Action)
      requires PathOk(scopes, path) && (action.Field? || action.Error? || action.Loop?)
      modifies `scopes, `latestError
      ensures PathOk(scopes, path) && Shown() == ViewAfter(old(Shown()), action)
    {
      var current := CurrentOpenScope();
      AppendKeeps(scopes, path, action);
      scopes := Appended(scopes, current, OutOf(action));
      if action.Error? {
        latestError := action.message;
      }
    }

    /** Ends the current scope and takes it off its parent's open children. */
    method CloseCurrent(at: int)
      requires PathOk(scopes, path) && path[|path| - 1] != 0
      modifies `scopes, `path
      ensures PathOk(scopes, path) && path == old(path[..|path| - 1]) && |path| > 0
      ensures All(scopes, 0) == old(All(scopes, 0)) + [Close(at)]
      ensures NamesOf(scopes, path) == old(NamesOf(scopes, path)[..|path| - 2])
    {
      var current := CurrentOpenScope();
      CloseKeeps(scopes, path, at);
      ghost var before := scopes;
      scopes := scopes[current := scopes[current].(ended := Some(at))];
      var parent := scopes[current].parent;
      var siblings := scopes[parent].openChildren;
      assert siblings == [current] by { assert LinkOk(before, parent, current); }
      scopes := scopes[parent := scopes[parent].(openChildren := siblings[..|siblings| - 1])];
      assert scopes == Closed(before, current, at);
      path := path[..|path| - 1];
    }

    /** Closes what is still open, innermost first, each a logging error. */
    method CloseOpenScopes(ended: int)
      requires Valid()
      modifies this
      ensures PathOk(scopes, path) && applied == old(applied) && latestError == old(latestError)
      ensures All(scopes, 0) == Kept(applied) + Closes(|OpenSteps(applied)|, ended)
      ensures loggingErrors == CloseErrors(Unmatched(applied)) + NotClosedOf(OpenSteps(applied))
      ensures forall i :: 0 <= i < |scopes| ==> scopes[i].ended.Some? && scopes[i].openChildren == []
    {
      CloseAll(ended);
      EndRoot(ended);
    }

    method CloseAll(ended: int)
      requires PathOk(scopes, path)
      modifies `scopes, `path, `loggingErrors
      ensures PathOk(scopes, path) && path == [0]
      ensures All(scopes, 0) == old(All(scopes, 0)) + Closes(old(|path| - 1), ended)
      ensures loggingErrors == old(loggingErrors + NotClosedOf(NamesOf(scopes, path)))
    {
      ghost var closed := 0;
      var current := CurrentOpenScope();
      while current != 0
        invariant PathOk(scopes, path) && current == path[|path| - 1] && closed + |path| == old(|path|)
        invariant All(scopes, 0) == old(All(scopes, 0)) + Closes(closed, ended)
        invariant loggingErrors + NotClosedOf(NamesOf(scopes, path)) == old(loggingErrors + NotClosedOf(NamesOf(scopes, path)))
        decreases |path|
      {
        CloseUnclosed(ended);
        ClosesMore(old(All(scopes, 0)), closed, ended);
        closed := closed + 1;
        current := CurrentOpenScope();
      }
      AtRoot(scopes, path);
    }

    method CloseUnclosed(ended: int)
      requires PathOk(scopes, path) && path[|path| - 1] != 0
      modifies `scopes, `path, `loggingErrors
      ensures PathOk(scopes, path) && path == old(path[..|path| - 1])
      ensures All(scopes, 0) == old(All(scopes, 0)) + [Close(ended)]
      ensures loggingErrors + NotClosedOf(NamesOf(scopes, path)) == old(loggingErrors + NotClosedOf(NamesOf(scopes, path)))
    {
      var current := CurrentOpenScope();
      ghost var names := NamesOf(scopes, path);
      AtRootOrNamed(scopes, path);
      ErrorsMove(loggingErrors, names);
      loggingErrors := loggingErrors + [NotClosed(scopes[current].name)];
      CloseCurrent(ended);
    }

    method EndRoot(ended: int)
      requires PathOk(scopes, path) && path == [0]
      modifies `scopes
      ensures PathOk(scopes, path) && All(scopes, 0) == old(All(scopes, 0))
      ensures forall i :: 0 <= i < |scopes| ==> scopes[i].ended.Some? && scopes[i].openChildren == []
    {
      ghost var before := scopes;
      scopes := scopes[0 := scopes[0].(ended := Some(ended))];
      RootEndReadsAlike(before, scopes);
    }
  }

  lemma AtRootOrNamed(scopes: seq<Scope>, path: seq<nat>)
    requires PathOk(scopes, path) && path[|path| - 1] != 0
    ensures NamesOf(scopes, path) != []
    ensures scopes[path[|path| - 1]].name == NamesOf(scopes, path)[|path| - 2]
  {
  }

  lemma AtRoot(scopes: seq<Scope>, path: seq<nat>)
    requires PathOk(scopes, path) && path[|path| - 1] == 0
    ensures path == [0]
  {
    if |path| > 1 { PathRises(scopes, path, 0, |path| - 1); }
  }

  /** The root's own end is not read. */
  lemma RootEndReadsAlike(a: seq<Scope>, b: seq<Scope>)
    requires Ordered(a) && a != [] && |b| == |a| && b == a[0 := b[0]] && b[0] == a[0].(ended := b[0].ended)
    ensures Ordered(b) && All(a, 0) == All(b, 0)
  {
    AllBelow(a, 0, |a[0].actions|);
    ReadsAlike(a, b, 0, |a[0].actions|, |a|);
  }

  /** The tree logged for some recorded actions. */
  method Build(actions: seq<Action>, started: int, ended: int) returns (tree: ScopeTree)
    ensures PathOk(tree.scopes, tree.path) && tree.latestError == LatestError(actions)
    ensures All(tree.scopes, 0) == Kept(actions) + Closes(|OpenSteps(actions)|, ended)
    ensures tree.loggingErrors == CloseErrors(Unmatched(actions)) + NotClosedOf(OpenSteps(actions))
    ensures forall i :: 0 <= i < |tree.scopes| ==> tree.scopes[i].ended.Some? && tree.scopes[i].openChildren == []
  {
    tree := new ScopeTree(started);
    for i := 0 to |actions|
      invariant fresh(tree) && tree.Valid() && tree.applied == actions[..i]
    {
      tree.Apply(actions[i]);
    }
    assert actions[..|actions|] == actions;
    tree.CloseOpenScopes(ended);
  }

  /** However the steps were logged, what the tree reads back is balanced; it counts as
      logging errors the unmatched closes and the unclosed steps; and with no logging error
      it is what was recorded, neither more nor less. */
  lemma TreeReadsBackBalanced(actions: seq<Action>, ended: int)
    ensures var read := Kept(actions) + Closes(|OpenSteps(actions)|, ended);
            var errors := CloseErrors(Unmatched(actions)) + NotClosedOf(OpenSteps(actions));
            && OpenSteps(read) == [] && Unmatched(read) == 0
            && |errors| == Unmatched(actions) + |OpenSteps(actions)|
            && |read| == |actions| - Unmatched(actions) + |OpenSteps(actions)|
            && (errors == [] <==> OpenSteps(actions) == [] && Unmatched(actions) == 0)
            && (errors == [] ==> read == actions)
  {
    KeptMatches(actions);
    OneErrorPerStep(OpenSteps(actions));
    ClosesBalance(Kept(actions), |OpenSteps(actions)|, ended);
  }
}
