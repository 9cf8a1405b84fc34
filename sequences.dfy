/** Sequence operations with the meaning JavaScript's Array methods give them.
    The tween list of the slot machine is edited with `indexOf` and
    `splice(start, 1)`; both are defined here, together with the filters that
    state what a run of such removals leaves behind. */
module Sequences {

  /** No element occurs twice (distinct JavaScript objects in an array). */
  ghost predicate Distinct<T>(s: seq<T>) {
    forall i, j :: 0 <= i < j < |s| ==> s[i] != s[j]
  }

  /** `Array.prototype.indexOf`: the first index holding `x`, or -1 when there is none. */
  function IndexOf<T(==)>(s: seq<T>, x: T): (r: int)
    ensures r == -1 <==> x !in s
    ensures -1 <= r < |s|
    ensures 0 <= r ==> s[r] == x && x !in s[..r]
  {
    if s == [] then -1
    else
      var k := IndexOf(s[..|s| - 1], x);
      if k >= 0 then k
      else if s[|s| - 1] == x then
        assert s[..|s| - 1] == s[..|s| - 1][..|s| - 1];
        |s| - 1
      else -1
  }

  /** `Array.prototype.splice(start, 1)`: a negative start counts from the end
      (and is raised to 0), a start at or past the end removes nothing. */
  function SpliceOne<T>(s: seq<T>, start: int): seq<T>
  {
    var k := if start < 0 then (if |s| + start < 0 then 0 else |s| + start) else start;
    if k < |s| then s[..k] + s[k + 1..] else s
  }

  /** The elements of `s` other than `x`, in order. */
  function Except<T(==)>(s: seq<T>, x: T): seq<T>
  {
    if s == [] then []
    else Except(s[..|s| - 1], x) + (if s[|s| - 1] == x then [] else [s[|s| - 1]])
  }

  /** The elements of `s` that do not occur in `gone`, in order. */
  function Drop<T(==)>(s: seq<T>, gone: seq<T>): seq<T>
  {
    if s == [] then []
    else Drop(s[..|s| - 1], gone) + (if s[|s| - 1] in gone then [] else [s[|s| - 1]])
  }

  lemma {:induction false} ExceptAbsent<T>(s: seq<T>, x: T)
    requires x !in s
    ensures Except(s, x) == s
  {
    if s != [] {
      ExceptAbsent(s[..|s| - 1], x);
    }
  }

  lemma {:induction false} DropNothing<T>(s: seq<T>)
    ensures Drop(s, []) == s
  {
    if s != [] {
      DropNothing(s[..|s| - 1]);
    }
  }

  lemma {:induction false} DropMembers<T>(s: seq<T>, gone: seq<T>)
    ensures forall y :: y in Drop(s, gone) <==> y in s && y !in gone
  {
    if s != [] {
      var init := s[..|s| - 1];
      DropMembers(init, gone);
      assert s == init + [s[|s| - 1]];
    }
  }

  /** Dropping elements from a sequence without repetitions leaves one without repetitions. */
  lemma {:induction false} DropDistinct<T>(s: seq<T>, gone: seq<T>)
    requires Distinct(s)
    ensures Distinct(Drop(s, gone))
  {
    if s != [] {
      var init := s[..|s| - 1];
      assert Distinct(init);
      DropDistinct(init, gone);
      DropMembers(init, gone);
      assert s[|s| - 1] !in init;
    }
  }

  /** Splicing out the element `indexOf` finds removes exactly that element,
      when the array holds no repetitions. */
  lemma {:induction false} SpliceIndexOf<T>(s: seq<T>, x: T)
    requires Distinct(s) && x in s
    ensures SpliceOne(s, IndexOf(s, x)) == Except(s, x)
  {
    var init, last := s[..|s| - 1], s[|s| - 1];
    assert s == init + [last];
    assert Distinct(init);
    if last == x {
      assert x !in init;
      ExceptAbsent(init, x);
    } else {
      assert x in init;
      SpliceIndexOf(init, x);
      SpliceBeforeLast(init, last, IndexOf(init, x));
    }
  }

  /** Splicing inside the prefix leaves the last element where it is. */
  lemma SpliceBeforeLast<T>(init: seq<T>, last: T, k: int)
    requires 0 <= k < |init|
    ensures SpliceOne(init + [last], k) == SpliceOne(init, k) + [last]
  {
    var s := init + [last];
    assert s[..k] == init[..k];
    assert s[k + 1..] == init[k + 1..] + [last];
  }

  /** Removing one more element from what `Drop` left is dropping one more. */
  lemma {:induction false} ExceptDrop<T>(s: seq<T>, gone: seq<T>, x: T)
    ensures Except(Drop(s, gone), x) == Drop(s, gone + [x])
  {
    if s != [] {
      var init, last := s[..|s| - 1], s[|s| - 1];
      ExceptDrop(init, gone, x);
      var d := Drop(init, gone);
      if last in gone {
        assert Drop(s, gone) == d;
      } else {
        assert Drop(s, gone) == d + [last];
        assert (d + [last])[..|d + [last]| - 1] == d;
      }
    }
  }

  /** `for (const x of remove) s.splice(s.indexOf(x), 1)`: removes every
      element of `remove` from `s`, keeping the order of what remains. */
  method RemoveAll<T(==)>(s: seq<T>, remove: seq<T>) returns (r: seq<T>)
    requires Distinct(s) && Distinct(remove)
    requires forall k :: 0 <= k < |remove| ==> remove[k] in s
    ensures r == Drop(s, remove)
  {
    r := s;
    assert r == Drop(s, remove[..0]) by {
      DropNothing(s);
      assert remove[..0] == [];
    }
    var k := 0;
    while k < |remove|
      invariant 0 <= k <= |remove|
      invariant r == Drop(s, remove[..k])
    {
      r := SpliceOutNext(r, remove[k], s, remove, k);
      k := k + 1;
    }
    assert remove[..|remove|] == remove;
  }

  /** One `s.splice(s.indexOf(x), 1)` of `RemoveAll`: with `x` the `k`-th element
      to remove, it takes what the first `k` removals left to what the first
      `k + 1` leave. */
  method SpliceOutNext<T(==)>(r: seq<T>, x: T, ghost s: seq<T>, ghost remove: seq<T>, ghost k: nat) returns (r': seq<T>)
    requires Distinct(s) && Distinct(remove) && k < |remove| && x == remove[k] && x in s
    requires r == Drop(s, remove[..k])
    ensures r' == Drop(s, remove[..k + 1])
  {
    RemoveStep(s, remove, k);
    r' := SpliceOne(r, IndexOf(r, x));
  }

  /** One step of the removal loop: splicing out, at the position `indexOf`
      finds, the next element to remove from what the earlier removals left
      is dropping one more element. */
  lemma {:induction false} RemoveStep<T>(s: seq<T>, remove: seq<T>, k: nat)
    requires Distinct(s) && Distinct(remove) && k < |remove| && remove[k] in s
    ensures SpliceOne(Drop(s, remove[..k]), IndexOf(Drop(s, remove[..k]), remove[k])) == Drop(s, remove[..k + 1])
  {
    NotYetRemoved(remove, k);
    assert remove[..k + 1] == remove[..k] + [remove[k]];
    RemoveOne(s, remove[..k], remove[k]);
  }

  /** Splicing out, at its `indexOf`, an element not yet dropped drops it too. */
  lemma {:induction false} RemoveOne<T>(s: seq<T>, gone: seq<T>, x: T)
    requires Distinct(s) && x in s && x !in gone
    ensures SpliceOne(Drop(s, gone), IndexOf(Drop(s, gone), x)) == Drop(s, gone + [x])
  {
    DropKeeps(s, gone, x);
    DropDistinct(s, gone);
    SpliceIndexOf(Drop(s, gone), x);
    ExceptDrop(s, gone, x);
  }

  lemma {:induction false} NotYetRemoved<T>(remove: seq<T>, k: nat)
    requires Distinct(remove) && k < |remove|
    ensures remove[k] !in remove[..k]
  {
    assert forall j :: 0 <= j < k ==> remove[..k][j] != remove[k];
  }

  lemma {:induction false} DropKeeps<T>(s: seq<T>, gone: seq<T>, x: T)
    requires x in s && x !in gone
    ensures x in Drop(s, gone)
  {
    var init, last := s[..|s| - 1], s[|s| - 1];
    assert s == init + [last];
    if x != last {
      DropKeeps(init, gone, x);
    }
  }
}
