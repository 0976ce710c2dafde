/** Closing a set step by step, and dropping what is unsupported round by round, with a limit on the rounds. */
module Fixpoints {

  /** Where each value is made from the one before, a value that repeats stays. */
  lemma {:induction false} RepeatsStay<S>(step: S -> S, at: nat -> S, n: nat, more: nat)
    requires forall k: nat :: at(k + 1) == step(at(k))
    requires n <= more && at(n + 1) == at(n)
    ensures at(more) == at(n)
  {
    if n < more {
      RepeatsStay(step, at, n, more - 1);
      assert at(more - 1 + 1) == step(at(more - 1));
    }
  }

  lemma {:induction false} SmallerBy<T>(a: set<T>, b: set<T>)
    requires a <= b && a != b
    ensures |a| < |b|
  {
    assert b == (b - a) + a && (b - a) * a == {};
    assert b - a != {};
  }

  lemma {:induction false} GrowingCounts<T>(step: set<T> -> set<T>, at: nat -> set<T>, n: nat)
    requires forall k: nat :: at(k) <= at(k + 1) == step(at(k))
    ensures at(n + 1) == at(n) || |at(n)| >= |at(0)| + n
  {
    if n > 0 {
      GrowingCounts(step, at, n - 1);
      assert at(n - 1) <= at(n - 1 + 1) == step(at(n - 1));
      if at(n) != at(n - 1) {
        SmallerBy(at(n - 1), at(n));
      }
    }
  }

  lemma {:induction false} ShrinkingCounts<T>(step: set<T> -> set<T>, at: nat -> set<T>, n: nat)
    requires forall k: nat :: at(k) >= at(k + 1) == step(at(k))
    ensures at(n + 1) == at(n) || |at(n)| + n <= |at(0)|
  {
    if n > 0 {
      ShrinkingCounts(step, at, n - 1);
      assert at(n - 1) >= at(n - 1 + 1) == step(at(n - 1));
      if at(n) != at(n - 1) {
        SmallerBy(at(n), at(n - 1));
      }
    }
  }

  // ---------- Growing: the least closed set ----------

  function Step<T>(next: T -> set<T>, s: set<T>): set<T> {
    s + set x, y | x in s && y in next(x) :: y
  }

  /** What is there after some steps. */
  function Reach<T>(next: T -> set<T>, s: set<T>, steps: nat): set<T> {
    if steps == 0 then s else Step(next, Reach(next, s, steps - 1))
  }

  ghost predicate Closed<T(!new)>(next: T -> set<T>, s: set<T>) {
    forall x :: x in s ==> next(x) <= s
  }

  /** The least set that holds `s` and is closed. */
  ghost predicate IsLeastClosed<T(!new)>(next: T -> set<T>, s: set<T>, r: set<T>) {
    s <= r && Closed(next, r) && forall t :: s <= t && Closed(next, t) ==> r <= t
  }

  /** A chain of steps from an element of `s`. */
  ghost predicate IsChain<T>(next: T -> set<T>, s: set<T>, path: seq<T>) {
    path != [] && path[0] in s && forall i :: 0 <= i < |path| - 1 ==> path[i + 1] in next(path[i])
  }

  ghost predicate EndsAt<T>(next: T -> set<T>, s: set<T>, path: seq<T>, x: T) {
    IsChain(next, s, path) && path[|path| - 1] == x
  }

  ghost predicate HasChain<T(!new)>(next: T -> set<T>, s: set<T>, x: T) {
    exists path :: EndsAt(next, s, path, x)
  }

  ghost predicate HasShortChain<T(!new)>(next: T -> set<T>, s: set<T>, n: nat, x: T) {
    exists path :: EndsAt(next, s, path, x) && |path| - 1 <= n
  }

  lemma {:induction false} ReachGrows<T>(next: T -> set<T>, s: set<T>, n: nat, more: nat)
    requires n <= more
    ensures s <= Reach(next, s, n) <= Reach(next, s, more)
  {
    if n < more {
      ReachGrows(next, s, n, more - 1);
    } else if n > 0 {
      ReachGrows(next, s, n - 1, n - 1);
    }
  }

  lemma {:induction false} ReachIsLeast<T(!new)>(next: T -> set<T>, s: set<T>, n: nat, t: set<T>)
    requires s <= t && Closed(next, t)
    ensures Reach(next, s, n) <= t
  {
    if n > 0 {
      ReachIsLeast(next, s, n - 1, t);
    }
  }

  /** A chain that ends at what is reached in some steps and has no more steps. */
  lemma {:induction false} ChainTo<T>(next: T -> set<T>, s: set<T>, n: nat, x: T) returns (path: seq<T>)
    requires x in Reach(next, s, n)
    ensures EndsAt(next, s, path, x) && |path| - 1 <= n
  {
    if x in s {
      path := [x];
    } else {
      var before := Reach(next, s, n - 1);
      if x in before {
        path := ChainTo(next, s, n - 1, x);
      } else {
        var w :| w in before && x in next(w);
        var shorter := ChainTo(next, s, n - 1, w);
        path := shorter + [x];
      }
    }
  }

  lemma {:induction false} ChainIsReached<T>(next: T -> set<T>, s: set<T>, path: seq<T>)
    requires IsChain(next, s, path)
    ensures path[|path| - 1] in Reach(next, s, |path| - 1)
  {
    if |path| > 1 {
      var shorter := path[..|path| - 1];
      ChainIsReached(next, s, shorter);
      assert path[|path| - 1] in next(shorter[|shorter| - 1]);
    }
  }

  /** Reached in `n` steps means: at the end of a chain of at most `n` steps. */
  lemma {:induction false} ReachExactly<T(!new)>(next: T -> set<T>, s: set<T>, n: nat, x: T)
    ensures x in Reach(next, s, n) <==> HasShortChain(next, s, n, x)
  {
    if x in Reach(next, s, n) {
      var path := ChainTo(next, s, n, x);
    }
    forall path | EndsAt(next, s, path, x) && |path| - 1 <= n
      ensures x in Reach(next, s, n)
    {
      ChainIsReached(next, s, path);
      ReachGrows(next, s, |path| - 1, n);
    }
  }

  /** Nothing is at the end of a chain without being at the end of one of at most `n` steps. */
  ghost predicate NoLongerChains<T(!new)>(next: T -> set<T>, s: set<T>, n: nat) {
    forall x :: HasChain(next, s, x) ==> HasShortChain(next, s, n, x)
  }

  lemma {:induction false} ClosedKeepsChain<T(!new)>(next: T -> set<T>, s: set<T>, r: set<T>, path: seq<T>)
    requires s <= r && Closed(next, r) && IsChain(next, s, path)
    ensures path[|path| - 1] in r
  {
    if |path| > 1 {
      var shorter := path[..|path| - 1];
      ClosedKeepsChain(next, s, r, shorter);
      assert path[|path| - 1] in next(shorter[|shorter| - 1]);
    }
  }

  lemma {:induction false} ClosedHasNoLongerChains<T(!new)>(next: T -> set<T>, s: set<T>, n: nat)
    requires Closed(next, Reach(next, s, n))
    ensures NoLongerChains(next, s, n)
  {
    ReachGrows(next, s, n, n);
    forall x | HasChain(next, s, x)
      ensures HasShortChain(next, s, n, x)
    {
      var path :| EndsAt(next, s, path, x);
      ClosedKeepsChain(next, s, Reach(next, s, n), path);
      ReachExactly(next, s, n, x);
    }
  }

  lemma {:induction false} OneStepFurther<T(!new)>(next: T -> set<T>, s: set<T>, n: nat, x: T, y: T)
    requires NoLongerChains(next, s, n)
    requires x in Reach(next, s, n) && y in next(x)
    ensures y in Reach(next, s, n)
  {
    var path := ChainTo(next, s, n, x);
    var longer := path + [y];
    assert EndsAt(next, s, longer, y);
    ReachExactly(next, s, n, y);
  }

  /** A limited number of steps gives the least closed set if and only if no chain leads further. */
  lemma {:induction false} ReachIsLeastClosedExactly<T(!new)>(next: T -> set<T>, s: set<T>, n: nat)
    ensures IsLeastClosed(next, s, Reach(next, s, n)) <==> NoLongerChains(next, s, n)
  {
    var r := Reach(next, s, n);
    if Closed(next, r) {
      ClosedHasNoLongerChains(next, s, n);
    }
    if NoLongerChains(next, s, n) {
      forall x, y | x in r && y in next(x)
        ensures y in r
      {
        OneStepFurther(next, s, n, x, y);
      }
    }
    ReachIsInAllClosed(next, s, n);
  }

  lemma {:induction false} ReachIsInAllClosed<T(!new)>(next: T -> set<T>, s: set<T>, n: nat)
    ensures s <= Reach(next, s, n)
    ensures forall t :: s <= t && Closed(next, t) ==> Reach(next, s, n) <= t
  {
    ReachGrows(next, s, n, n);
    forall t | s <= t && Closed(next, t)
      ensures Reach(next, s, n) <= t
    {
      ReachIsLeast(next, s, n, t);
    }
  }

  /** What is one step away is reached, and what is added is one step away from something reached. */
  lemma {:induction false} ReachHasGivers<T(!new)>(next: T -> set<T>, s: set<T>, n: nat)
    requires n > 0
    ensures forall x, y :: x in s && y in next(x) ==> y in Reach(next, s, n)
    ensures forall y :: y in Reach(next, s, n) && y !in s ==> exists x :: x in Reach(next, s, n) && y in next(x)
  {
    ReachGrows(next, s, 1, n);
    assert Reach(next, s, 1) == Step(next, Reach(next, s, 0));
    forall y | y in Reach(next, s, n) && y !in s
      ensures exists x :: x in Reach(next, s, n) && y in next(x)
    {
      var path := ChainTo(next, s, n, y);
      var shorter := path[..|path| - 1];
      ChainIsReached(next, s, shorter);
      ReachGrows(next, s, |shorter| - 1, n);
      assert y in next(shorter[|shorter| - 1]);
    }
  }

  lemma {:induction false} NextReach<T>(next: T -> set<T>, s: set<T>, n: nat, before: set<T>)
    requires Reach(next, s, n) == before
    ensures Reach(next, s, n + 1) == Step(next, before)
  {
  }

  /** Steps that change nothing will change nothing later. */
  lemma {:induction false} ReachStays<T>(next: T -> set<T>, s: set<T>, n: nat, more: nat)
    requires n <= more && Reach(next, s, n + 1) == Reach(next, s, n)
    ensures Reach(next, s, more) == Reach(next, s, n)
  {
    RepeatsStay((t: set<T>) => Step(next, t), (k: nat) => Reach(next, s, k), n, more);
  }

  /** Until a step adds nothing, each adds something. */
  lemma {:induction false} ReachCounts<T>(next: T -> set<T>, s: set<T>, n: nat)
    ensures Reach(next, s, n + 1) == Reach(next, s, n) || |Reach(next, s, n)| >= |s| + n
  {
    forall k: nat
      ensures Reach(next, s, k) <= Reach(next, s, k + 1)
    {
      ReachGrows(next, s, k, k + 1);
    }
    GrowingCounts((t: set<T>) => Step(next, t), (k: nat) => Reach(next, s, k), n);
  }

  lemma {:induction false} SettledIsClosed<T(!new)>(next: T -> set<T>, s: set<T>, n: nat)
    requires Reach(next, s, n + 1) == Reach(next, s, n)
    ensures Closed(next, Reach(next, s, n))
  {
  }

  /** So as many steps are enough as there are elements to add. */
  lemma {:induction false} FewAdditionsClose<T(!new)>(next: T -> set<T>, s: set<T>, n: nat, t: set<T>)
    requires s <= t && Closed(next, t) && |t| <= |s| + n
    ensures IsLeastClosed(next, s, Reach(next, s, n))
  {
    var r := Reach(next, s, n);
    ReachCounts(next, s, n);
    ReachIsInAllClosed(next, s, n);
    if Reach(next, s, n + 1) == r {
      SettledIsClosed(next, s, n);
    } else if r != t {
      SmallerBy(r, t);
      assert false;
    }
  }

  // ---------- Dropping: the greatest supported set ----------

  /** Whether an element is supported by a set. */
  type Support<!T> = (T, set<T>) -> bool

  function Round<T>(support: Support<T>, s: set<T>): set<T> {
    set x | x in s && support(x, s)
  }

  /** What is left after some rounds. */
  function Kept<T>(support: Support<T>, s: set<T>, rounds: nat): set<T> {
    if rounds == 0 then s else Round(support, Kept(support, s, rounds - 1))
  }

  ghost predicate Monotone<T(!new)>(support: Support<T>) {
    forall x, s, t :: s <= t && support(x, s) ==> support(x, t)
  }

  ghost predicate Supported<T(!new)>(support: Support<T>, s: set<T>) {
    forall x :: x in s ==> support(x, s)
  }

  /** The greatest part of `s` that supports itself. */
  ghost predicate IsGreatestSupported<T(!new)>(support: Support<T>, s: set<T>, r: set<T>) {
    r <= s && Supported(support, r) && forall t :: t <= s && Supported(support, t) ==> t <= r
  }

  /** Nothing is dropped for the first time after `n` rounds. */
  ghost predicate NoLaterDrops<T(!new)>(support: Support<T>, s: set<T>, n: nat) {
    forall x, k: nat :: x in s && x !in Kept(support, s, k) ==> x !in Kept(support, s, n)
  }

  lemma {:induction false} KeptShrinks<T>(support: Support<T>, s: set<T>, n: nat, more: nat)
    requires n <= more
    ensures Kept(support, s, more) <= Kept(support, s, n) <= s
  {
    if n < more {
      KeptShrinks(support, s, n, more - 1);
    } else if n > 0 {
      KeptShrinks(support, s, n - 1, n - 1);
    }
  }

  lemma {:induction false} KeptIsGreatest<T(!new)>(support: Support<T>, s: set<T>, n: nat, t: set<T>)
    requires Monotone(support) && t <= s && Supported(support, t)
    ensures t <= Kept(support, s, n)
  {
    if n > 0 {
      KeptIsGreatest(support, s, n - 1, t);
    }
  }

  lemma {:induction false} KeptStays<T>(support: Support<T>, s: set<T>, n: nat, more: nat)
    requires n <= more && Kept(support, s, n + 1) == Kept(support, s, n)
    ensures Kept(support, s, more) == Kept(support, s, n)
  {
    RepeatsStay((t: set<T>) => Round(support, t), (k: nat) => Kept(support, s, k), n, more);
  }

  /** A limited number of rounds leaves the greatest supported set if and only if no later round drops anything. */
  lemma {:induction false} KeptIsGreatestExactly<T(!new)>(support: Support<T>, s: set<T>, n: nat)
    requires Monotone(support)
    ensures IsGreatestSupported(support, s, Kept(support, s, n)) <==> NoLaterDrops(support, s, n)
  {
    var r := Kept(support, s, n);
    KeptShrinks(support, s, n, n + 1);
    forall t | t <= s && Supported(support, t)
      ensures t <= r
    {
      KeptIsGreatest(support, s, n, t);
    }
    if Supported(support, r) {
      assert Kept(support, s, n + 1) == r;
      forall x, k: nat | x in s && x !in Kept(support, s, k)
        ensures x !in r
      {
        if n <= k {
          KeptStays(support, s, n, k);
        } else {
          KeptShrinks(support, s, k, n);
        }
      }
    }
    if NoLaterDrops(support, s, n) {
      forall x | x in r
        ensures support(x, r)
      {
        assert x in Kept(support, s, n + 1);
      }
    }
  }

  lemma {:induction false} KeptCounts<T>(support: Support<T>, s: set<T>, n: nat)
    ensures Kept(support, s, n + 1) == Kept(support, s, n) || |Kept(support, s, n)| + n <= |s|
  {
    forall k: nat
      ensures Kept(support, s, k) >= Kept(support, s, k + 1)
    {
      KeptShrinks(support, s, k, k + 1);
    }
    ShrinkingCounts((t: set<T>) => Round(support, t), (k: nat) => Kept(support, s, k), n);
  }

  /** As many rounds are enough as there are elements. */
  lemma {:induction false} FewElementsSettle<T(!new)>(support: Support<T>, s: set<T>, n: nat)
    requires Monotone(support) && |s| <= n
    ensures IsGreatestSupported(support, s, Kept(support, s, n))
  {
    var r := Kept(support, s, n);
    KeptCounts(support, s, n);
    KeptShrinks(support, s, n, n);
    if Kept(support, s, n + 1) == r {
      assert Supported(support, r);
    } else {
      assert r == {};
    }
    forall t | t <= s && Supported(support, t)
      ensures t <= r
    {
      KeptIsGreatest(support, s, n, t);
    }
  }
}
