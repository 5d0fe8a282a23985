/** Counting the admitted among a stream of attempts. */
module Counting {
  function Count(flags: seq<bool>): (n: nat)
    ensures n <= |flags|
  {
    if flags == [] then 0 else Count(flags[..|flags| - 1]) + if flags[|flags| - 1] then 1 else 0
  }

  function Min(a: int, b: int): int {
    if a < b then a else b
  }

  function Max(a: int, b: int): int {
    if a < b then b else a
  }

  /** Among the attempts flagged in `mine`, `admitted` lets through exactly the first `limit`. */
  ghost predicate FirstOnes(mine: seq<bool>, admitted: seq<bool>, limit: int) {
    && |mine| == |admitted|
    && forall i :: 0 <= i < |mine| && mine[i] ==> (admitted[i] <==> Count(mine[..i + 1]) <= limit)
  }

  function Both(a: seq<bool>, b: seq<bool>): (c: seq<bool>)
    requires |a| == |b|
    ensures |c| == |a| && forall i :: 0 <= i < |a| ==> c[i] == (a[i] && b[i])
  {
    seq(|a|, i requires 0 <= i < |a| => a[i] && b[i])
  }

  /** Letting the first `limit` through admits the smaller of the two numbers. */
  lemma {:induction false} FirstOnesCount(mine: seq<bool>, admitted: seq<bool>, limit: int)
    requires FirstOnes(mine, admitted, limit)
    ensures Count(Both(mine, admitted)) == Min(Count(mine), Max(limit, 0))
  {
    if mine != [] {
      var n := |mine| - 1;
      var m, a := mine[..n], admitted[..n];
      forall i | 0 <= i < n && m[i] ensures a[i] <==> Count(m[..i + 1]) <= limit {
        assert m[..i + 1] == mine[..i + 1];
      }
      FirstOnesCount(m, a, limit);
      assert Both(mine, admitted)[..n] == Both(m, a);
      assert mine[..n + 1] == mine;
    }
  }

  lemma {:induction false} CountMonotone(a: seq<bool>, b: seq<bool>, c: seq<bool>)
    requires |a| == |b| == |c| && forall i :: 0 <= i < |a| ==> (a[i] ==> b[i] || c[i])
    ensures Count(a) <= Count(b) + Count(c)
  {
    if a != [] {
      var n := |a| - 1;
      CountMonotone(a[..n], b[..n], c[..n]);
    }
  }

  lemma {:induction false} CountPositive(flags: seq<bool>, i: nat)
    requires i < |flags| && flags[i]
    ensures Count(flags) >= 1
  {
    if i < |flags| - 1 { CountPositive(flags[..|flags| - 1], i); }
  }

  lemma {:induction false} CountTwo(flags: seq<bool>, i: nat, j: nat)
    requires i < j < |flags| && flags[i] && flags[j]
    ensures Count(flags) >= 2
  {
    var n := |flags| - 1;
    if j < n { CountTwo(flags[..n], i, j); } else { CountPositive(flags[..n], i); }
  }

  lemma {:induction false} CountConcat(a: seq<bool>, b: seq<bool>)
    ensures Count(a + b) == Count(a) + Count(b)
  {
    if b == [] {
      assert a + b == a;
    } else {
      var n := |b| - 1;
      CountConcat(a, b[..n]);
      assert (a + b)[..|a + b| - 1] == a + b[..n];
    }
  }

  lemma {:induction false} CountSame(flags: seq<bool>, value: bool)
    requires forall i :: 0 <= i < |flags| ==> flags[i] == value
    ensures Count(flags) == if value then |flags| else 0
  {
    if flags != [] { CountSame(flags[..|flags| - 1], value); }
  }

  lemma {:induction false} CountPrefix(flags: seq<bool>, n: nat)
    requires n <= |flags|
    ensures Count(flags[..n]) <= Count(flags)
  {
    if n < |flags| {
      CountPrefix(flags[..|flags| - 1], n);
      assert flags[..|flags| - 1][..n] == flags[..n];
    } else {
      assert flags[..n] == flags;
    }
  }
}
