/** The request log as it is written: each scope's attributes with those of its steps nested
    in them (logging/request_log.go). */
module RequestLogNested {

  import opened RequestLog
  import opened RequestLogOutput

  /** What is written for scope i, the root's being scope 0. */
  function AttrsFor(scopes: seq<Scope>, i: nat, latestError: string): seq<Attr>
    requires i < |scopes|
  {
    Output(scopes[i].actions, i == 0, latestError)
  }

  /** The latest error is written on the root, and nowhere else. */
  lemma LatestErrorIsOnTheRoot(scopes: seq<Scope>, i: nat, latestError: string)
    requires i < |scopes|
    ensures HasLatest(AttrsFor(scopes, i, latestError)) <==> i == 0 && latestError != ""
  {
    ErrorsComeLast(scopes[i].actions, i == 0, latestError);
  }

  /** The recorded actions a scope's attributes and those nested in them stand for, in the
      order they are written. */
  function Nested(scopes: seq<Scope>, i: nat, latestError: string): seq<Action>
    requires Ordered(scopes) && i < |scopes|
    decreases |scopes| - i, 1, 0
  {
    OutputIsKept(scopes, i, latestError);
    NestedOuts(scopes, i, AllWritten(AttrsFor(scopes, i, latestError)), latestError)
  }

  predicate Deeper(scopes: seq<Scope>, i: nat, outs: seq<Out>) {
    forall k :: 0 <= k < |outs| && outs[k].Child? ==> i < outs[k].scope < |scopes|
  }

  function NestedOuts(scopes: seq<Scope>, i: nat, outs: seq<Out>, latestError: string): seq<Action>
    requires Ordered(scopes) && i < |scopes| && Deeper(scopes, i, outs)
    decreases |scopes| - i, 0, |outs|
  {
    if outs == [] then []
    else NestedOuts(scopes, i, outs[..|outs| - 1], latestError) + NestedOut(scopes, i, outs[|outs| - 1], latestError)
  }

  function NestedOut(scopes: seq<Scope>, i: nat, o: Out, latestError: string): seq<Action>
    requires Ordered(scopes) && i < |scopes| && (o.Child? ==> i < o.scope < |scopes|)
    decreases |scopes| - i, 0, 0
  {
    match o
    case Child(key, c) => [Open(key, scopes[c].started)] + Nested(scopes, c, latestError) + Ending(scopes[c])
    case FieldOut(key, value) => [Field(key, value)]
    case ErrorOut(message) => [Error(message)]
    case LoopOut(key, item) => [Loop(key, item)]
  }

  lemma SameElements(a: seq<Out>, b: seq<Out>)
    requires multiset(a) == multiset(b)
    ensures forall x :: x in a ==> x in b
  {
    forall x | x in a
      ensures x in b
    {
      assert x in multiset(a);
    }
  }

  lemma OutputIsKept(scopes: seq<Scope>, i: nat, latestError: string)
    requires Ordered(scopes) && i < |scopes|
    ensures var outs := AllWritten(AttrsFor(scopes, i, latestError));
            multiset(outs) == multiset(scopes[i].actions) && Deeper(scopes, i, outs) && Deeper(scopes, i, scopes[i].actions)
  {
    var outs := AllWritten(AttrsFor(scopes, i, latestError));
    EveryActionIsWrittenOnce(scopes[i].actions, i == 0, latestError);
    SameElements(outs, scopes[i].actions);
    forall k | 0 <= k < |outs| && outs[k].Child?
      ensures i < outs[k].scope < |scopes|
    {
      assert outs[k] in scopes[i].actions;
    }
  }

  lemma {:induction false} NestedOutsJoin(scopes: seq<Scope>, i: nat, a: seq<Out>, b: seq<Out>, latestError: string)
    requires Ordered(scopes) && i < |scopes| && Deeper(scopes, i, a) && Deeper(scopes, i, b)
    ensures Deeper(scopes, i, a + b)
    ensures NestedOuts(scopes, i, a + b, latestError) == NestedOuts(scopes, i, a, latestError) + NestedOuts(scopes, i, b, latestError)
  {
    if b == [] {
      assert a + b == a;
    } else {
      var front, x := b[..|b| - 1], b[|b| - 1];
      NestedOutsJoin(scopes, i, a, front, latestError);
      assert a + b == (a + front) + [x] && b == front + [x];
      NestedOutsMore(scopes, i, a + front, x, latestError);
      NestedOutsMore(scopes, i, front, x, latestError);
      Regroup(NestedOuts(scopes, i, a, latestError), NestedOuts(scopes, i, front, latestError), NestedOut(scopes, i, x, latestError));
    }
  }

  lemma Regroup(a: seq<Action>, b: seq<Action>, c: seq<Action>)
    ensures a + b + c == a + (b + c)
  {
  }

  lemma NestedOutsMore(scopes: seq<Scope>, i: nat, front: seq<Out>, x: Out, latestError: string)
    requires Ordered(scopes) && i < |scopes| && Deeper(scopes, i, front) && (x.Child? ==> i < x.scope < |scopes|)
    ensures Deeper(scopes, i, front + [x])
    ensures NestedOuts(scopes, i, front + [x], latestError)
         == NestedOuts(scopes, i, front, latestError) + NestedOut(scopes, i, x, latestError)
  {
    assert (front + [x])[..|front|] == front && (front + [x])[|front|] == x;
  }

  lemma OneNested(scopes: seq<Scope>, i: nat, x: Out, latestError: string)
    requires Ordered(scopes) && i < |scopes| && Deeper(scopes, i, [x])
    ensures [x][0].Child? ==> i < x.scope < |scopes|
    ensures NestedOuts(scopes, i, [x], latestError) == NestedOut(scopes, i, x, latestError)
  {
    assert [x][..0] == [];
    assert [x][0] == x;
  }

  lemma DeeperParts(scopes: seq<Scope>, i: nat, left: seq<Out>, x: Out, right: seq<Out>)
    requires Deeper(scopes, i, left + [x] + right)
    ensures Deeper(scopes, i, left) && Deeper(scopes, i, [x]) && Deeper(scopes, i, right)
  {
    var all := left + [x] + right;
    assert all[|left|] == x;
    assert forall k :: 0 <= k < |left| ==> left[k] == all[k];
    assert forall k :: 0 <= k < |right| ==> right[k] == all[|left| + 1 + k];
  }

  lemma TakenOut(scopes: seq<Scope>, i: nat, left: seq<Out>, x: Out, right: seq<Out>, latestError: string)
    requires Ordered(scopes) && i < |scopes| && Deeper(scopes, i, left + [x] + right)
    ensures Deeper(scopes, i, left + right) && (x.Child? ==> i < x.scope < |scopes|)
    ensures multiset(NestedOuts(scopes, i, left + [x] + right, latestError))
         == multiset(NestedOuts(scopes, i, left + right, latestError)) + multiset(NestedOut(scopes, i, x, latestError))
  {
    DeeperParts(scopes, i, left, x, right);
    OneNested(scopes, i, x, latestError);
    NestedOutsJoin(scopes, i, left, right, latestError);
    NestedOutsJoin(scopes, i, left, [x], latestError);
    NestedOutsJoin(scopes, i, left + [x], right, latestError);
  }

  lemma WithoutOne(front: seq<Out>, x: Out, left: seq<Out>, right: seq<Out>)
    requires multiset(front + [x]) == multiset(left + [x] + right)
    ensures multiset(front) == multiset(left + right)
  {
    assert multiset(front + [x]) == multiset(front) + multiset{x};
    assert multiset(left + [x] + right) == multiset(left + right) + multiset{x};
    assert multiset(front) == multiset(front) + multiset{x} - multiset{x};
    assert multiset(left + right) == multiset(left + right) + multiset{x} - multiset{x};
  }

  lemma LastOut(scopes: seq<Scope>, i: nat, front: seq<Out>, x: Out, latestError: string)
    requires Ordered(scopes) && i < |scopes| && Deeper(scopes, i, front + [x])
    ensures Deeper(scopes, i, front) && (x.Child? ==> i < x.scope < |scopes|)
    ensures multiset(NestedOuts(scopes, i, front + [x], latestError))
         == multiset(NestedOuts(scopes, i, front, latestError)) + multiset(NestedOut(scopes, i, x, latestError))
  {
    assert front + [x] == front + [x] + [];
    assert front == front + [];
    TakenOut(scopes, i, front, x, [], latestError);
  }

  lemma Found(b: seq<Out>, x: Out) returns (left: seq<Out>, right: seq<Out>)
    requires x in multiset(b)
    ensures b == left + [x] + right && |left| + |right| < |b|
  {
    var j :| 0 <= j < |b| && b[j] == x;
    left, right := b[..j], b[j + 1..];
  }

  lemma NoneLeft(b: seq<Out>)
    requires multiset(b) == multiset{}
    ensures b == []
  {
    assert |multiset(b)| == |b|;
  }

  /** Where in the scope an action is written changes nothing but the order. */
  lemma {:induction false} OrderOnly(scopes: seq<Scope>, i: nat, a: seq<Out>, b: seq<Out>, latestError: string)
    requires Ordered(scopes) && i < |scopes| && Deeper(scopes, i, a) && Deeper(scopes, i, b) && multiset(a) == multiset(b)
    ensures multiset(NestedOuts(scopes, i, a, latestError)) == multiset(NestedOuts(scopes, i, b, latestError))
    decreases |a|
  {
    if a == [] {
      NoneLeft(b);
    } else {
      var front, x := a[..|a| - 1], a[|a| - 1];
      assert a == front + [x] && x in multiset(a);
      var left, right := Found(b, x);
      WithoutOne(front, x, left, right);
      LastOut(scopes, i, front, x, latestError);
      TakenOut(scopes, i, left, x, right, latestError);
      OrderOnly(scopes, i, front, left + right, latestError);
    }
  }

  lemma OutReads(scopes: seq<Scope>, i: nat, k: nat, latestError: string)
    requires Ordered(scopes) && i < |scopes| && k < |scopes[i].actions|
    requires var o := scopes[i].actions[k]; o.Child? ==> multiset(Nested(scopes, o.scope, latestError)) == multiset(All(scopes, o.scope))
    ensures multiset(NestedOut(scopes, i, scopes[i].actions[k], latestError)) == multiset(Read(scopes, i, k))
  {
  }

  lemma {:induction false} NestedReads(scopes: seq<Scope>, i: nat, n: nat, latestError: string)
    requires Ordered(scopes) && i < |scopes| && n <= |scopes[i].actions|
    ensures Deeper(scopes, i, scopes[i].actions[..n])
    ensures multiset(NestedOuts(scopes, i, scopes[i].actions[..n], latestError)) == multiset(Flatten(scopes, i, n))
    decreases |scopes| - i, 0, n
  {
    if n > 0 {
      var o := scopes[i].actions[n - 1];
      NestedReads(scopes, i, n - 1, latestError);
      if o.Child? {
        NestedIsRead(scopes, o.scope, latestError);
      }
      OutReads(scopes, i, n - 1, latestError);
      ReadsOneMore(scopes, i, n, latestError);
    }
  }

  lemma FlattensOneMore(scopes: seq<Scope>, i: nat, n: nat)
    requires Ordered(scopes) && i < |scopes| && 0 < n <= |scopes[i].actions|
    ensures Flatten(scopes, i, n) == Flatten(scopes, i, n - 1) + Read(scopes, i, n - 1)
  {
  }

  lemma ReadsOneMore(scopes: seq<Scope>, i: nat, n: nat, latestError: string)
    requires Ordered(scopes) && i < |scopes| && 0 < n <= |scopes[i].actions| && Deeper(scopes, i, scopes[i].actions[..n - 1])
    requires multiset(NestedOuts(scopes, i, scopes[i].actions[..n - 1], latestError)) == multiset(Flatten(scopes, i, n - 1))
    requires var o := scopes[i].actions[n - 1];
             (o.Child? ==> i < o.scope < |scopes|) && multiset(NestedOut(scopes, i, o, latestError)) == multiset(Read(scopes, i, n - 1))
    ensures Deeper(scopes, i, scopes[i].actions[..n])
    ensures multiset(NestedOuts(scopes, i, scopes[i].actions[..n], latestError)) == multiset(Flatten(scopes, i, n))
  {
    var front, o := scopes[i].actions[..n - 1], scopes[i].actions[n - 1];
    assert scopes[i].actions[..n] == front + [o];
    NestedOutsMore(scopes, i, front, o, latestError);
    FlattensOneMore(scopes, i, n);
    JoinAlike(NestedOuts(scopes, i, front, latestError), NestedOut(scopes, i, o, latestError), Flatten(scopes, i, n - 1), Read(scopes, i, n - 1));
  }

  lemma JoinAlike(a: seq<Action>, b: seq<Action>, c: seq<Action>, d: seq<Action>)
    requires multiset(a) == multiset(c) && multiset(b) == multiset(d)
    ensures multiset(a + b) == multiset(c + d)
  {
  }

  /** Across the whole tree, every recorded action is written exactly once. */
  lemma {:induction false} NestedIsRead(scopes: seq<Scope>, i: nat, latestError: string)
    requires Ordered(scopes) && i < |scopes|
    ensures multiset(Nested(scopes, i, latestError)) == multiset(All(scopes, i))
    decreases |scopes| - i, 1, 0
  {
    var outs := scopes[i].actions;
    OutputIsKept(scopes, i, latestError);
    OrderOnly(scopes, i, AllWritten(AttrsFor(scopes, i, latestError)), outs, latestError);
    NestedReads(scopes, i, |outs|, latestError);
    assert outs[..|outs|] == outs;
  }

  /** The log of some recorded actions: the tree built of them writes each of them that
      matched once, and a close for each step left open. */
  method WriteLog(actions: seq<Action>, started: int, ended: int) returns (tree: ScopeTree, attrs: seq<Attr>)
    ensures Ordered(tree.scopes) && tree.scopes != []
    ensures attrs == AttrsFor(tree.scopes, 0, tree.latestError) && tree.latestError == LatestError(actions)
    ensures multiset(Nested(tree.scopes, 0, tree.latestError)) == multiset(Kept(actions) + Closes(|OpenSteps(actions)|, ended))
  {
    tree := Build(actions, started, ended);
    attrs := OutputAttrs(tree.scopes[0].actions, true, tree.latestError);
    NestedIsRead(tree.scopes, 0, tree.latestError);
  }
}
