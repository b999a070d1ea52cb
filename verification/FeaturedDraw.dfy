/** The featured carousel's draw: a Fisher-Yates shuffle of a copy of the shared pool. */
module FeaturedDraw {
  import opened Basics

  /** choices[i] is the position drawn for place i, one of the first i + 1. */
  predicate IsDraw(choices: seq<nat>, n: nat) {
    |choices| == n && forall i :: 0 <= i < n ==> choices[i] <= i
  }

  function Swapped<T>(s: seq<T>, i: nat, j: nat): (t: seq<T>)
    requires i < |s| && j < |s|
    ensures |t| == |s| && t[i] == s[j] && t[j] == s[i]
    ensures forall k :: 0 <= k < |s| && k != i && k != j ==> t[k] == s[k]
  {
    s[i := s[j]][j := s[i]]
  }

  /** The shuffle, from the last place down. */
  function Shuffled<T>(s: seq<T>, choices: seq<nat>): (r: seq<T>)
    requires IsDraw(choices, |s|)
    ensures |r| == |s|
    decreases |s|
  {
    if s == [] then []
    else
      var last := |s| - 1;
      var t := Swapped(s, last, choices[last]);
      Shuffled(t[..last], choices[..last]) + [t[last]]
  }

  /** What is put last, and what is left to shuffle. */
  function Rest<T>(s: seq<T>, choices: seq<nat>): (rest: seq<T>)
    requires s != [] && IsDraw(choices, |s|)
    ensures |rest| == |s| - 1
  {
    Swapped(s, |s| - 1, choices[|s| - 1])[..|s| - 1]
  }

  lemma ShuffledUnfolds<T>(s: seq<T>, choices: seq<nat>)
    requires s != [] && IsDraw(choices, |s|)
    ensures
      var last := |s| - 1;
      && IsDraw(choices[..last], last)
      && Shuffled(s, choices) == Shuffled(Rest(s, choices), choices[..last]) + [s[choices[last]]]
      && Shuffled(s, choices)[..last] == Shuffled(Rest(s, choices), choices[..last])
      && Shuffled(s, choices)[last] == s[choices[last]]
  {
  }

  lemma SwapKeepsElements<T>(s: seq<T>, i: nat, j: nat)
    requires i < |s| && j < |s|
    ensures multiset(Swapped(s, i, j)) == multiset(s)
  {
  }

  lemma PutLast<T>(t: seq<T>)
    requires t != []
    ensures multiset(t[..|t| - 1]) + multiset{t[|t| - 1]} == multiset(t)
  {
    assert t == t[..|t| - 1] + [t[|t| - 1]];
  }

  lemma {:induction false} ShuffleKeepsElements<T>(s: seq<T>, choices: seq<nat>)
    requires IsDraw(choices, |s|)
    ensures multiset(Shuffled(s, choices)) == multiset(s)
    decreases |s|
  {
    if s != [] {
      var last := |s| - 1;
      var t := Swapped(s, last, choices[last]);
      SwapKeepsElements(s, last, choices[last]);
      ShuffledUnfolds(s, choices);
      PutLast(t);
      hide Shuffled;
      ShuffleKeepsElements(Rest(s, choices), choices[..last]);
    }
  }

  predicate IsDistinct<T(==)>(s: seq<T>) { forall i, j :: 0 <= i < j < |s| ==> s[i] != s[j] }

  lemma RestOfTheOrder<T>(s: seq<T>, order: seq<T>, j: nat)
    requires s != [] && multiset(order) == multiset(s) && |order| == |s| && j < |s| && s[j] == order[|s| - 1]
    ensures multiset(order[..|s| - 1]) == multiset(Swapped(s, |s| - 1, j)[..|s| - 1])
  {
    var last := |s| - 1;
    var t := Swapped(s, last, j);
    SwapKeepsElements(s, last, j);
    PutLast(order);
    PutLast(t);
    assert t[last] == order[last];
    hide Swapped;
    TakeOneAway(multiset(order[..last]), multiset(t[..last]), order[last]);
  }

  lemma TakeOneAway<T>(a: multiset<T>, b: multiset<T>, x: T)
    requires a + multiset{x} == b + multiset{x}
    ensures a == b
  {
    assert a + multiset{x} - multiset{x} == a && b + multiset{x} - multiset{x} == b;
  }

  /** Every order of the pool comes from some draw... */
  lemma {:induction false} EveryOrderIsDrawn<T>(s: seq<T>, order: seq<T>) returns (choices: seq<nat>)
    requires multiset(order) == multiset(s)
    ensures IsDraw(choices, |s|) && Shuffled(s, choices) == order
    decreases |s|
  {
    assert |order| == |multiset(order)| == |multiset(s)| == |s|;
    if s == [] {
      choices := [];
    } else {
      var last := |s| - 1;
      assert order[last] in multiset(order);
      var j: nat :| j < |s| && s[j] == order[last];
      RestOfTheOrder(s, order, j);
      var front := EveryOrderIsDrawn(Swapped(s, last, j)[..last], order[..last]);
      choices := front + [j];
      assert choices[..last] == front;
      assert order == order[..last] + [order[last]];
    }
  }

  lemma RestIsDistinct<T>(s: seq<T>, choices: seq<nat>)
    requires s != [] && IsDistinct(s) && IsDraw(choices, |s|)
    ensures IsDistinct(Rest(s, choices))
  {
  }

  /** ...and from one draw only, when no game is in the pool twice: equally likely draws make every order equally likely. */
  lemma {:induction false} OneDrawPerOrder<T>(s: seq<T>, a: seq<nat>, b: seq<nat>)
    requires IsDistinct(s) && IsDraw(a, |s|) && IsDraw(b, |s|) && Shuffled(s, a) == Shuffled(s, b)
    ensures a == b
    decreases |s|
  {
    if s != [] {
      var last := |s| - 1;
      SameLast(s, a, b);
      RestIsDistinct(s, a);
      hide Shuffled, IsDistinct, Rest, IsDraw;
      OneDrawPerOrder(Rest(s, a), a[..last], b[..last]);
      SameFront(a, b);
    }
  }

  lemma SameLast<T>(s: seq<T>, a: seq<nat>, b: seq<nat>)
    requires s != [] && IsDistinct(s) && IsDraw(a, |s|) && IsDraw(b, |s|) && Shuffled(s, a) == Shuffled(s, b)
    ensures |a| == |b| == |s| && a[|s| - 1] == b[|s| - 1] && Rest(s, a) == Rest(s, b)
    ensures IsDraw(a[..|s| - 1], |s| - 1) && IsDraw(b[..|s| - 1], |s| - 1)
    ensures Shuffled(Rest(s, a), a[..|s| - 1]) == Shuffled(Rest(s, b), b[..|s| - 1])
  {
    ShuffledUnfolds(s, a);
    ShuffledUnfolds(s, b);
    hide Shuffled;
    assert s[a[|s| - 1]] == s[b[|s| - 1]];
  }

  lemma SameFront(a: seq<nat>, b: seq<nat>)
    requires |a| == |b| > 0 && a[|a| - 1] == b[|b| - 1] && a[..|a| - 1] == b[..|b| - 1]
    ensures a == b
  {
  }

  lemma ShuffleStep<T>(front: seq<T>, back: seq<T>, choices: seq<nat>, i: nat)
    requires |front| == i + 1 && IsDraw(choices, i + 1)
    ensures var t := Swapped(front, i, choices[i]);
      Shuffled(front, choices) + back == Shuffled(t[..i], choices[..i]) + ([t[i]] + back)
  {
  }

  lemma FewStay<T>(s: seq<T>, choices: seq<nat>)
    requires |s| <= 1 && IsDraw(choices, |s|)
    ensures Shuffled(s, choices) == s
  {
  }

  /** The pool every request shares is left as it was; the draw is the front of its shuffle. */
  method FindFeatured<T>(pool: array<T>, limit: nat, choices: seq<nat>) returns (picked: seq<T>)
    requires IsDraw(choices, pool.Length)
    ensures pool[..] == old(pool[..])
    ensures picked == Shuffled(pool[..], choices)[..Min(limit, pool.Length)]
  {
    var n := pool.Length;
    var draw := new T[n](i requires 0 <= i < n reads pool => pool[i]);
    assert draw[..] == pool[..];
    ghost var all := Shuffled(pool[..], choices);
    assert draw[..n] == draw[..] && choices[..n] == choices;
    hide Shuffled, IsDraw;
    var i := n - 1;
    while i > 0
      modifies draw
      invariant -1 <= i < n && (i == -1 ==> n == 0)
      invariant IsDraw(choices[..i + 1], i + 1)
      invariant Shuffled(draw[..i + 1], choices[..i + 1]) + draw[i + 1..] == all
      decreases i
    {
      i := DrawOne(draw, choices, i, all);
    }
    FewStay(draw[..i + 1], choices[..i + 1]);
    assert draw[..] == draw[..i + 1] + draw[i + 1..];
    picked := draw[..Min(limit, n)];
  }

  method DrawOne<T>(draw: array<T>, choices: seq<nat>, i: nat, ghost all: seq<T>) returns (next: nat)
    requires 0 < i < draw.Length == |choices| && IsDraw(choices[..i + 1], i + 1)
    requires Shuffled(draw[..i + 1], choices[..i + 1]) + draw[i + 1..] == all
    modifies draw
    ensures next == i - 1 && IsDraw(choices[..i], i) && Shuffled(draw[..i], choices[..i]) + draw[i..] == all
  {
    var j := choices[i];
    assert choices[..i + 1][i] == j && choices[..i + 1][..i] == choices[..i];
    ghost var front, back := draw[..i + 1], draw[i + 1..];
    ShuffleStep(front, back, choices[..i + 1], i);
    hide Shuffled;
    draw[i], draw[j] := draw[j], draw[i];
    assert draw[..i + 1] == Swapped(front, i, j) && draw[i + 1..] == back;
    assert draw[..i] == Swapped(front, i, j)[..i];
    assert draw[i..] == [draw[i]] + back;
    next := i - 1;
  }
}
