/** What the models of the runtime share. */
module Common {
  datatype Option<+T> = None | Some(value: T)

  /** `part(0) + ... + part(n - 1)`. */
  function ConcatTo<T>(part: nat -> seq<T>, n: nat): seq<T> {
    if n == 0 then [] else ConcatTo(part, n - 1) + part(n - 1)
  }

  lemma {:induction false} ConcatEmptyIff<T>(part: nat -> seq<T>, n: nat)
    ensures ConcatTo(part, n) == [] <==> forall i :: 0 <= i < n ==> part(i) == []
  {
    if n > 0 { ConcatEmptyIff(part, n - 1); }
  }

  method ConcatAll<T>(part: nat -> seq<T>, n: nat) returns (all: seq<T>)
    ensures all == ConcatTo(part, n)
  {
    all := [];
    for i := 0 to n
      invariant all == ConcatTo(part, i)
    {
      all := all + part(i);
    }
  }

  /** `f(s[0]) + f(s[1]) + ...`. */
  function FlatMap<T, U>(s: seq<T>, f: T -> seq<U>): seq<U> {
    if s == [] then [] else f(s[0]) + FlatMap(s[1..], f)
  }

  lemma {:induction false} FlatMapAppend<T, U>(a: seq<T>, b: seq<T>, f: T -> seq<U>)
    ensures FlatMap(a + b, f) == FlatMap(a, f) + FlatMap(b, f)
  {
    if a == [] {
      assert a + b == b;
    } else {
      assert (a + b)[0] == a[0] && (a + b)[1..] == a[1..] + b;
      FlatMapAppend(a[1..], b, f);
    }
  }

  lemma FlatMapOne<T, U>(x: T, f: T -> seq<U>)
    ensures FlatMap([x], f) == f(x)
  {
    assert [x][1..] == [] && f(x) + [] == f(x);
  }

  lemma {:induction false} FlatMapEmptyIff<T, U>(s: seq<T>, f: T -> seq<U>)
    ensures FlatMap(s, f) == [] <==> forall i :: 0 <= i < |s| ==> f(s[i]) == []
  {
    if s != [] {
      FlatMapEmptyIff(s[1..], f);
      assert forall i :: 0 < i < |s| ==> s[i] == s[1..][i - 1];
    }
  }

  /** Adding at the back of a queue keeps what left it followed by what is in it in the order of arrival. */
  lemma PushedBehind<T>(pushes: seq<T>, pops: seq<T>, q: seq<T>, more: seq<T>)
    requires pushes == pops + q
    ensures pushes + more == pops + (q + more)
  {
  }

  lemma FirstMoved<T>(a: seq<T>, b: seq<T>)
    requires b != []
    ensures a + b == (a + [b[0]]) + b[1..]
  {
  }

  function Reverse<T>(s: seq<T>): (r: seq<T>)
    ensures |r| == |s| && forall i :: 0 <= i < |s| ==> r[i] == s[|s| - 1 - i]
    ensures multiset(r) == multiset(s)
  {
    if s == [] then []
    else
      assert s == [s[0]] + s[1..];
      Reverse(s[1..]) + [s[0]]
  }

  lemma InMultiset<T>(s: seq<T>, x: T)
    ensures x in s <==> x in multiset(s)
  {
  }

  lemma TailMultiset<T>(s: seq<T>)
    requires s != []
    ensures multiset(s[1..]) == multiset(s) - multiset{s[0]}
  {
    assert s == [s[0]] + s[1..];
  }

  lemma LastMultiset<T>(s: seq<T>)
    requires s != []
    ensures multiset(s) == multiset(s[..|s| - 1]) + multiset{s[|s| - 1]}
  {
    assert s == s[..|s| - 1] + [s[|s| - 1]];
  }

  /** Of n threads that check and then act, all but one may act on a check that no longer holds. */
  function Rivals(n: nat): nat { if n == 0 then 0 else n - 1 }

  lemma Scaled(b: nat, x: nat, y: nat)
    requires x <= y
    ensures b * x <= b * y
  {
  }

  // ------------------------------------------------------------------ counting over a sequence

  function Sum<T>(s: seq<T>, f: T -> nat): nat {
    if s == [] then 0 else f(s[0]) + Sum(s[1..], f)
  }

  lemma {:induction false} SumUpdate<T>(s: seq<T>, i: nat, x: T, f: T -> nat)
    requires i < |s|
    ensures Sum(s[i := x], f) + f(s[i]) == Sum(s, f) + f(x)
  {
    if i == 0 {
      assert s[i := x][1..] == s[1..];
    } else {
      assert s[i := x][1..] == s[1..][i - 1 := x];
      SumUpdate(s[1..], i - 1, x, f);
    }
  }

  lemma {:induction false} SumAtMost<T>(s: seq<T>, f: T -> nat, g: T -> nat, each: nat)
    requires forall i :: 0 <= i < |s| ==> f(s[i]) <= g(s[i]) + each
    ensures Sum(s, f) <= Sum(s, g) + each * |s|
  {
    if s != [] {
      SumAtMost(s[1..], f, g, each);
      assert each * |s| == each + each * |s[1..]|;
    }
  }

  lemma {:induction false} SumZero<T>(s: seq<T>, f: T -> nat)
    requires forall i :: 0 <= i < |s| ==> f(s[i]) == 0
    ensures Sum(s, f) == 0
  {
    if s != [] { SumZero(s[1..], f); }
  }

  lemma {:induction false} SumHas<T>(s: seq<T>, i: nat, f: T -> nat)
    requires i < |s|
    ensures Sum(s, f) >= f(s[i])
  {
    if i > 0 { SumHas(s[1..], i - 1, f); }
  }

  lemma {:induction false} AtMostEach<T>(s: seq<T>, f: T -> nat)
    requires forall i :: 0 <= i < |s| ==> f(s[i]) <= 1
    ensures Sum(s, f) <= |s|
  {
    if s != [] { AtMostEach(s[1..], f); }
  }
}
