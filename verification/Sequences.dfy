/** Order-preserving filtering of sequences, and repetition of elements. */
module Sequences {
  /** The elements of `s` that do not satisfy `gone`, in order. */
  function Keep<T>(s: seq<T>, gone: T -> bool): seq<T> {
    if s == [] then []
    else Keep(s[..|s| - 1], gone) + if gone(s[|s| - 1]) then [] else [s[|s| - 1]]
  }

  lemma {:induction false} KeepMembers<T(!new)>(s: seq<T>, gone: T -> bool)
    ensures forall x :: x in Keep(s, gone) <==> x in s && !gone(x)
  {
    if s != [] {
      KeepMembers(s[..|s| - 1], gone);
      assert forall x :: x in s <==> x in s[..|s| - 1] || x == s[|s| - 1];
    }
  }

  /** The positions kept by `Keep`. */
  function KeptPositions<T>(s: seq<T>, gone: T -> bool): seq<nat> {
    if s == [] then []
    else KeptPositions(s[..|s| - 1], gone) + if gone(s[|s| - 1]) then [] else [|s| - 1]
  }

  /** `Keep` lists, in strictly increasing order of position, exactly the elements that are not gone. */
  ghost predicate IsOrderedComplement<T(!new)>(s: seq<T>, gone: T -> bool) {
    var at := KeptPositions(s, gone);
    && |at| == |Keep(s, gone)|
    && (forall i, j :: 0 <= i < j < |at| ==> at[i] < at[j])
    && (forall i :: 0 <= i < |at| ==> at[i] < |s| && Keep(s, gone)[i] == s[at[i]])
    && (forall k :: 0 <= k < |s| ==> (k in at <==> !gone(s[k])))
  }

  /** Keeping is the order-preserving complement of what is gone. */
  lemma {:induction false} KeepIsOrderedComplement<T(!new)>(s: seq<T>, gone: T -> bool)
    ensures IsOrderedComplement(s, gone)
  {
    if s != [] {
      KeepIsOrderedComplement(s[..|s| - 1], gone);
      OneMorePosition(s, gone);
    }
  }

  lemma OneMorePosition<T(!new)>(s: seq<T>, gone: T -> bool)
    requires s != [] && IsOrderedComplement(s[..|s| - 1], gone)
    ensures IsOrderedComplement(s, gone)
  {
  }

  lemma KeepSnoc<T(!new)>(s: seq<T>, x: T, gone: T -> bool)
    ensures Keep(s + [x], gone) == Keep(s, gone) + if gone(x) then [] else [x]
  {
  }

  lemma Associative<T>(a: seq<T>, b: seq<T>, c: seq<T>)
    ensures (a + b) + c == a + (b + c)
  {
  }

  lemma {:induction false} KeepConcat<T(!new)>(s: seq<T>, t: seq<T>, gone: T -> bool)
    ensures Keep(s + t, gone) == Keep(s, gone) + Keep(t, gone)
  {
    if t == [] {
      assert s + t == s;
    } else {
      var before, last := t[..|t| - 1], t[|t| - 1];
      KeepConcat(s, before, gone);
      KeepSnoc(s + before, last, gone);
      KeepSnoc(before, last, gone);
      assert before + [last] == t && s + before + [last] == s + t;
      Associative(Keep(s, gone), Keep(before, gone), if gone(last) then [] else [last]);
    }
  }

  /** Filtering twice is filtering by the disjunction. */
  lemma {:induction false} KeepTwice<T(!new)>(s: seq<T>, f: T -> bool, g: T -> bool, h: T -> bool)
    requires forall x :: x in s ==> (h(x) <==> f(x) || g(x))
    ensures Keep(Keep(s, f), g) == Keep(s, h)
  {
    if s != [] {
      var before, last := s[..|s| - 1], s[|s| - 1];
      KeepTwice(before, f, g, h);
      KeepConcat(Keep(before, f), if f(last) then [] else [last], g);
      assert last in s;
      assert Keep(Keep(s, f), g) == Keep(Keep(before, f), g) + Keep(if f(last) then [] else [last], g);
    }
  }

  lemma {:induction false} KeepAll<T(!new)>(s: seq<T>, gone: T -> bool)
    requires forall i :: 0 <= i < |s| ==> !gone(s[i])
    ensures Keep(s, gone) == s
  {
    if s != [] {
      KeepAll(s[..|s| - 1], gone);
    }
  }

  /** `n` copies of `x`. */
  function Copies<T>(x: T, n: nat): seq<T> {
    if n == 0 then [] else Copies(x, n - 1) + [x]
  }

  /** Every element repeated as often as `times` says. */
  function Repeat<T>(s: seq<T>, times: T -> nat): seq<T> {
    if s == [] then []
    else Repeat(s[..|s| - 1], times) + Copies(s[|s| - 1], times(s[|s| - 1]))
  }

  lemma {:induction false} CopiesConcat<T>(x: T, m: nat, n: nat)
    ensures Copies(x, m) + Copies(x, n) == Copies(x, m + n)
  {
    if n != 0 {
      CopiesConcat(x, m, n - 1);
      assert Copies(x, m) + (Copies(x, n - 1) + [x]) == (Copies(x, m) + Copies(x, n - 1)) + [x];
    }
  }

  lemma {:induction false} RepeatConcat<T>(s: seq<T>, t: seq<T>, times: T -> nat)
    ensures Repeat(s + t, times) == Repeat(s, times) + Repeat(t, times)
  {
    if t == [] {
      assert s + t == s;
    } else {
      var before, last := t[..|t| - 1], t[|t| - 1];
      RepeatConcat(s, before, times);
      RepeatSnoc(s + before, last, times);
      assert s + before + [last] == s + t;
      Associative(Repeat(s, times), Repeat(before, times), Copies(last, times(last)));
    }
  }

  /** Multiplication as repeated addition. */
  function Times(n: nat, t: nat): nat {
    if n == 0 then 0 else Times(n - 1, t) + t
  }

  lemma {:induction false} TimesIsProduct(n: nat, t: nat)
    ensures Times(n, t) == n * t
  {
    if n != 0 {
      TimesIsProduct(n - 1, t);
      assert n * t == (n - 1) * t + t;
    }
  }

  lemma {:induction false} RepeatCopies<T>(x: T, n: nat, times: T -> nat)
    ensures Repeat(Copies(x, n), times) == Copies(x, Times(n, times(x)))
  {
    if n != 0 {
      RepeatCopies(x, n - 1, times);
      RepeatOneMoreCopy(x, n - 1, times, Times(n - 1, times(x)));
    }
  }

  lemma RepeatOneMoreCopy<T>(x: T, n: nat, times: T -> nat, k: nat)
    requires Repeat(Copies(x, n), times) == Copies(x, k)
    ensures Repeat(Copies(x, n + 1), times) == Copies(x, k + times(x))
  {
    RepeatSnoc(Copies(x, n), x, times);
    CopiesConcat(x, k, times(x));
  }

  lemma RepeatSnoc<T>(s: seq<T>, x: T, times: T -> nat)
    ensures Repeat(s + [x], times) == Repeat(s, times) + Copies(x, times(x))
  {
  }

  lemma {:induction false} CopiesAre<T>(x: T, n: nat)
    ensures |Copies(x, n)| == n
    ensures forall i :: 0 <= i < n ==> Copies(x, n)[i] == x
    ensures forall y :: multiset(Copies(x, n))[y] == if y == x then n else 0
  {
    if n != 0 {
      CopiesAre(x, n - 1);
    }
  }

  /** Repeating twice multiplies the repetitions. */
  lemma {:induction false} RepeatTwice<T(!new)>(s: seq<T>, f: T -> nat, g: T -> nat, h: T -> nat)
    requires forall x :: x in s ==> h(x) == f(x) * g(x)
    ensures Repeat(Repeat(s, f), g) == Repeat(s, h)
  {
    if s != [] {
      var before, last := s[..|s| - 1], s[|s| - 1];
      RepeatTwice(before, f, g, h);
      RepeatConcat(Repeat(before, f), Copies(last, f(last)), g);
      RepeatCopies(last, f(last), g);
      TimesIsProduct(f(last), g(last));
      assert last in s;
    }
  }

  lemma {:induction false} RepeatCount<T(!new)>(s: seq<T>, times: T -> nat, x: T)
    ensures multiset(Repeat(s, times))[x] == Times(multiset(s)[x], times(x))
  {
    if s != [] {
      var before, last := s[..|s| - 1], s[|s| - 1];
      assert s == before + [last];
      RepeatCount(before, times, x);
      CountSnoc(before, last, x);
      CountConcat(Repeat(before, times), Copies(last, times(last)), x);
      CopiesAre(last, times(last));
    }
  }

  lemma CountSnoc<T>(s: seq<T>, last: T, x: T)
    ensures multiset(s + [last])[x] == multiset(s)[x] + if x == last then 1 else 0
  {
  }

  lemma CountConcat<T>(s: seq<T>, t: seq<T>, x: T)
    ensures multiset(s + t)[x] == multiset(s)[x] + multiset(t)[x]
  {
  }

  /** Two ways of repeating give the same list exactly if they agree on every element. */
  lemma {:induction false} RepeatSameIff<T(!new)>(s: seq<T>, f: T -> nat, g: T -> nat)
    ensures Repeat(s, f) == Repeat(s, g) <==> forall x :: x in s ==> f(x) == g(x)
  {
    if forall x :: x in s ==> f(x) == g(x) {
      RepeatSame(s, f, g);
    }
    if Repeat(s, f) == Repeat(s, g) {
      forall x | x in s
        ensures f(x) == g(x)
      {
        RepeatCount(s, f, x);
        RepeatCount(s, g, x);
        TimesCancel(multiset(s)[x], f(x), g(x));
      }
    }
  }

  lemma {:induction false} TimesCancel(n: nat, a: nat, b: nat)
    requires n > 0 && Times(n, a) == Times(n, b)
    ensures a == b
  {
    if a < b {
      TimesMonotone(n, a, b);
    } else if b < a {
      TimesMonotone(n, b, a);
    }
  }

  lemma {:induction false} TimesMonotone(n: nat, a: nat, b: nat)
    requires n > 0 && a < b
    ensures Times(n, a) < Times(n, b)
  {
    if n > 1 {
      TimesMonotone(n - 1, a, b);
    } else {
      assert Times(1, a) == Times(0, a) + a && Times(1, b) == Times(0, b) + b;
    }
  }

  lemma {:induction false} RepeatSame<T(!new)>(s: seq<T>, f: T -> nat, g: T -> nat)
    requires forall x :: x in s ==> f(x) == g(x)
    ensures Repeat(s, f) == Repeat(s, g)
  {
    if s != [] {
      RepeatSame(s[..|s| - 1], f, g);
      assert s[|s| - 1] in s;
    }
  }

  /** The positions of `s` that the elements of `Repeat` come from. */
  function RepeatedPositions<T>(s: seq<T>, times: T -> nat): seq<nat> {
    if s == [] then []
    else
      var last: nat := |s| - 1;
      RepeatedPositions(s[..last], times) + Copies(last, times(s[last]))
  }

  /** The elements of `t` are those of `s` at these positions. */
  ghost predicate ComesFrom<T>(t: seq<T>, s: seq<T>, at: seq<nat>) {
    |at| == |t| && forall i :: 0 <= i < |at| ==> at[i] < |s| && t[i] == s[at[i]]
  }

  ghost predicate Ascending(at: seq<nat>) {
    forall i, j :: 0 <= i < j < |at| ==> at[i] <= at[j]
  }

  ghost predicate StrictlyAscending(at: seq<nat>) {
    forall i, j :: 0 <= i < j < |at| ==> at[i] < at[j]
  }

  /** `Repeat` lists the elements in order, each position as often as it says. */
  lemma {:induction false} RepeatIsOrdered<T>(s: seq<T>, times: T -> nat)
    ensures ComesFrom(Repeat(s, times), s, RepeatedPositions(s, times))
    ensures Ascending(RepeatedPositions(s, times))
    ensures forall k :: 0 <= k < |s| ==> multiset(RepeatedPositions(s, times))[k] == times(s[k])
    ensures forall k :: k >= |s| ==> multiset(RepeatedPositions(s, times))[k] == 0
  {
    if s != [] {
      var last: nat := |s| - 1;
      var before := s[..last];
      RepeatIsOrdered(before, times);
      OneMoreRepeated(s, last, Repeat(before, times), RepeatedPositions(before, times), times(s[last]));
      OneMoreCounted(RepeatedPositions(before, times), last, times(s[last]));
    }
  }

  lemma OneMoreRepeated<T>(s: seq<T>, last: nat, t: seq<T>, at: seq<nat>, n: nat)
    requires |s| == last + 1 && ComesFrom(t, s[..last], at) && Ascending(at)
    ensures ComesFrom(t + Copies(s[last], n), s, at + Copies(last, n))
    ensures Ascending(at + Copies(last, n))
  {
    CopiesAre(last, n);
    CopiesAre(s[last], n);
  }

  lemma OneMoreCounted(at: seq<nat>, x: nat, n: nat)
    ensures forall k :: multiset(at + Copies(x, n))[k] == multiset(at)[k] + if k == x then n else 0
  {
    CopiesAre(x, n);
  }

  /** The positions of the elements that satisfy p. */
  ghost function Where<T>(s: seq<T>, p: T -> bool): set<nat> {
    set j: nat | j < |s| && p(s[j])
  }

  lemma OneMoreWhere<T>(s: seq<T>, p: T -> bool)
    requires s != []
    ensures |Where(s, p)| == |Where(s[..|s| - 1], p)| + if p(s[|s| - 1]) then 1 else 0
  {
    var last: nat := |s| - 1;
    var before := Where(s[..last], p);
    assert Where(s, p) == before + if p(s[last]) then {last} else {};
  }
}
