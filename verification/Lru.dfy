/** The LRU map with per-entry creation times that one cache shard holds. */
module Lru {
  import opened Json

  /** 64-bit request hashes. */
  type Key = k: int | 0 <= k < 0x1_0000_0000_0000_0000

  datatype Reply = Reply(body: Body, len: nat, status: nat, headers: seq<(string, string)>)

  datatype Entry = Entry(reply: Reply, createdAt: nat)

  /** Most recently used first. */
  type Lru = seq<(Key, Entry)>

  function Age(e: Entry, now: nat): nat {
    if now >= e.createdAt then now - e.createdAt else 0
  }

  function Lookup(l: Lru, k: Key): Option<Entry> {
    if l == [] then None
    else if l[0].0 == k then Some(l[0].1)
    else Lookup(l[1..], k)
  }

  function Keys(l: Lru): set<Key> {
    if l == [] then {} else {l[0].0} + Keys(l[1..])
  }

  function Pop(l: Lru, k: Key): Lru {
    if l == [] then []
    else if l[0].0 == k then l[1..]
    else [l[0]] + Pop(l[1..], k)
  }

  /** Insert at the front; a new key in a full list evicts the least recently used one. */
  function Put(l: Lru, cap: nat, k: Key, e: Entry): Lru {
    if Lookup(l, k).Some? then [(k, e)] + Pop(l, k)
    else if |l| >= cap && l != [] then [(k, e)] + l[..|l| - 1]
    else [(k, e)] + l
  }

  /** Look up `k` at time `now`: a fresh entry is moved to the front, a stale one dropped. */
  function Get(l: Lru, k: Key, now: nat, ttl: nat): (r: (Lru, Option<Entry>)) {
    match Lookup(l, k)
    case None => (l, None)
    case Some(e) =>
      if Age(e, now) < ttl then ([(k, e)] + Pop(l, k), Some(e)) else (Pop(l, k), None)
  }

  function Sweep(l: Lru, now: nat, ttl: nat): Lru {
    if l == [] then []
    else (if Age(l[0].1, now) < ttl then [l[0]] else []) + Sweep(l[1..], now, ttl)
  }

  ghost predicate Distinct(l: Lru) {
    l == [] || (l[0].0 !in Keys(l[1..]) && Distinct(l[1..]))
  }

  ghost predicate Valid(l: Lru, cap: nat) {
    Distinct(l) && |l| <= cap
  }

  /** Leaving `except` aside, `l'` answers every key as `l` does or not at all. */
  ghost predicate OnlyForgets(l: Lru, l': Lru, except: set<Key>) {
    forall j :: j !in except && Lookup(l', j).Some? ==> Lookup(l', j) == Lookup(l, j)
  }

  lemma {:induction false} LookupKeys(l: Lru, k: Key)
    ensures Lookup(l, k).Some? <==> k in Keys(l)
  {
    if l != [] { LookupKeys(l[1..], k); }
  }

  lemma {:induction false} PopFacts(l: Lru, k: Key)
    requires Distinct(l)
    ensures Distinct(Pop(l, k))
    ensures Keys(Pop(l, k)) == Keys(l) - {k}
    ensures |Pop(l, k)| == |l| - (if k in Keys(l) then 1 else 0)
    ensures forall j :: Lookup(Pop(l, k), j) == if j == k then None else Lookup(l, j)
  {
    if l != [] {
      if l[0].0 == k {
        LookupKeys(l[1..], k);
      } else {
        PopFacts(l[1..], k);
        assert Pop(l, k)[1..] == Pop(l[1..], k);
      }
    }
  }

  lemma PushFacts(l: Lru, k: Key, e: Entry)
    requires Distinct(l) && k !in Keys(l)
    ensures Distinct([(k, e)] + l) && Keys([(k, e)] + l) == Keys(l) + {k}
    ensures forall j :: Lookup([(k, e)] + l, j) == if j == k then Some(e) else Lookup(l, j)
  {
    assert ([(k, e)] + l)[1..] == l;
  }

  lemma {:induction false} DropLastFacts(l: Lru)
    requires Distinct(l) && l != []
    ensures Distinct(l[..|l| - 1]) && Keys(l[..|l| - 1]) == Keys(l) - {l[|l| - 1].0}
  {
    var d, t := l[..|l| - 1], l[1..];
    if |l| > 1 {
      DropLastFacts(t);
      assert d[1..] == t[..|t| - 1] && d[0] == l[0] && t[|t| - 1] == l[|l| - 1];
      LastKey(t);
    } else {
      assert d == [] && t == [];
    }
  }

  lemma {:induction false} DropLastLookup(l: Lru, j: Key)
    requires l != [] && Lookup(l[..|l| - 1], j).Some?
    ensures Lookup(l[..|l| - 1], j) == Lookup(l, j)
  {
    var d, t := l[..|l| - 1], l[1..];
    assert d != [];
    if l[0].0 != j {
      assert d[1..] == t[..|t| - 1];
      DropLastLookup(t, j);
    }
  }

  lemma {:induction false} LastKey(l: Lru)
    requires l != []
    ensures l[|l| - 1].0 in Keys(l)
  {
    if |l| > 1 { LastKey(l[1..]); }
  }

  /** Storing keeps the list valid, makes the new value the answer for its key, and can only
      forget other keys; nothing is forgotten unless a new key arrives in a full list, and then
      only the least recently used key is. */
  lemma PutFacts(l: Lru, cap: nat, k: Key, e: Entry)
    requires Valid(l, cap) && cap > 0
    ensures Valid(Put(l, cap, k, e), cap)
    ensures Lookup(Put(l, cap, k, e), k) == Some(e)
    ensures OnlyForgets(l, Put(l, cap, k, e), {k})
    ensures Keys(Put(l, cap, k, e)) ==
      (if k in Keys(l) || |l| < cap then Keys(l) else Keys(l) - {l[|l| - 1].0}) + {k}
  {
    LookupKeys(l, k);
    if Lookup(l, k).Some? {
      PopFacts(l, k);
      PushFacts(Pop(l, k), k, e);
    } else if |l| >= cap {
      var d := l[..|l| - 1];
      DropLastFacts(l);
      PushFacts(d, k, e);
      forall j | j != k && Lookup(d, j).Some? ensures Lookup(d, j) == Lookup(l, j) {
        DropLastLookup(l, j);
      }
    } else {
      PushFacts(l, k, e);
    }
  }

  /** A lookup answers with a stored entry younger than the TTL and otherwise only forgets. */
  lemma GetFacts(l: Lru, cap: nat, k: Key, now: nat, ttl: nat)
    requires Valid(l, cap)
    ensures var (l', hit) := Get(l, k, now, ttl);
            && Valid(l', cap)
            && OnlyForgets(l, l', {})
            && Keys(l') == (if Lookup(l, k).Some? && hit.None? then Keys(l) - {k} else Keys(l))
            && (hit.Some? <==> Lookup(l, k).Some? && Age(Lookup(l, k).value, now) < ttl)
            && (hit.Some? ==> hit == Lookup(l, k) == Lookup(l', k))
            && (hit.None? ==> Lookup(l', k).None?)
  {
    LookupKeys(l, k);
    if Lookup(l, k).Some? {
      PopFacts(l, k);
      PushFacts(Pop(l, k), k, Lookup(l, k).value);
    }
  }

  /** Clean-up removes exactly the stale entries. */
  lemma {:induction false} SweepFacts(l: Lru, now: nat, ttl: nat)
    requires Distinct(l)
    ensures Distinct(Sweep(l, now, ttl)) && |Sweep(l, now, ttl)| <= |l|
    ensures Keys(Sweep(l, now, ttl)) <= Keys(l)
    ensures forall j :: Lookup(Sweep(l, now, ttl), j) == (
              if Lookup(l, j).Some? && Age(Lookup(l, j).value, now) < ttl then Lookup(l, j) else None)
  {
    if l != [] {
      var t := l[1..];
      SweepFacts(t, now, ttl);
      LookupKeys(t, l[0].0);
      if Age(l[0].1, now) < ttl {
        PushFacts(Sweep(t, now, ttl), l[0].0, l[0].1);
        assert [(l[0].0, l[0].1)] == [l[0]];
      } else {
        assert Sweep(l, now, ttl) == Sweep(t, now, ttl);
      }
    }
  }

  // ----- What least-recently-used eviction promises -----

  datatype Access = Write(key: Key, entry: Entry) | Read(key: Key, now: nat)

  function Apply(l: Lru, cap: nat, ttl: nat, a: Access): Lru {
    match a
    case Write(k, e) => Put(l, cap, k, e)
    case Read(k, now) => Get(l, k, now, ttl).0
  }

  function ApplyAll(l: Lru, cap: nat, ttl: nat, accesses: seq<Access>): Lru
    decreases |accesses|
  {
    if accesses == [] then l else ApplyAll(Apply(l, cap, ttl, accesses[0]), cap, ttl, accesses[1..])
  }

  function Touched(accesses: seq<Access>): set<Key> {
    if accesses == [] then {} else {accesses[0].key} + Touched(accesses[1..])
  }

  /** The keys used more recently than `k`. */
  function Ahead(l: Lru, k: Key): set<Key> {
    if l == [] || l[0].0 == k then {} else {l[0].0} + Ahead(l[1..], k)
  }

  lemma {:induction false} AheadOfPop(l: Lru, j: Key, k: Key)
    requires j != k
    ensures Ahead(Pop(l, j), k) <= Ahead(l, k)
  {
    if l != [] && l[0].0 != k && l[0].0 != j {
      AheadOfPop(l[1..], j, k);
      assert Pop(l, j)[1..] == Pop(l[1..], j);
    }
  }

  lemma {:induction false} AheadOfPrefix(l: Lru, k: Key, n: nat)
    requires Distinct(l) && k in Keys(l) && n <= |l| && |Ahead(l, k)| < n
    ensures Lookup(l[..n], k) == Lookup(l, k) && Ahead(l[..n], k) == Ahead(l, k)
  {
    if l[0].0 != k {
      AheadInKeys(l[1..], k);
      assert |Ahead(l, k)| == |Ahead(l[1..], k)| + 1;
      AheadOfPrefix(l[1..], k, n - 1);
      assert l[..n][1..] == l[1..][..n - 1];
    }
  }

  lemma {:induction false} AheadInKeys(l: Lru, k: Key)
    ensures Ahead(l, k) <= Keys(l)
  {
    if l != [] { AheadInKeys(l[1..], k); }
  }

  /** Putting `j` in front of a list that keeps `k` keeps `k`, with at most `j` more ahead. */
  lemma FrontKeeps(l: Lru, j: Key, e: Entry, k: Key, used: set<Key>)
    requires j != k && k in Keys(l) && Ahead(l, k) <= used && j in used
    ensures Lookup([(j, e)] + l, k) == Lookup(l, k)
    ensures k in Keys([(j, e)] + l) && Ahead([(j, e)] + l, k) <= used
  {
    assert ([(j, e)] + l)[1..] == l;
  }

  lemma WriteKeeps(l: Lru, cap: nat, j: Key, e: Entry, k: Key, used: set<Key>)
    requires Valid(l, cap) && cap > 0 && k in Keys(l) && j != k
    requires Ahead(l, k) <= used && j in used && |used| < cap
    ensures var l' := Put(l, cap, j, e);
            Lookup(l', k) == Lookup(l, k) && k in Keys(l') && Ahead(l', k) <= used
  {
    LookupKeys(l, j);
    if j in Keys(l) {
      PopFacts(l, j);
      AheadOfPop(l, j, k);
      FrontKeeps(Pop(l, j), j, e, k, used);
    } else if |l| >= cap {
      AheadInKeys(l, k);
      SubsetSize(Ahead(l, k) + {j}, used);
      LookupKeys(l, k);
      AheadOfPrefix(l, k, |l| - 1);
      LookupKeys(l[..|l| - 1], k);
      FrontKeeps(l[..|l| - 1], j, e, k, used);
    } else {
      FrontKeeps(l, j, e, k, used);
    }
  }

  /** One access to another key keeps `k` and puts at most that key ahead of it. */
  lemma AccessKeeps(l: Lru, cap: nat, ttl: nat, a: Access, k: Key, used: set<Key>)
    requires Valid(l, cap) && cap > 0 && k in Keys(l) && a.key != k
    requires Ahead(l, k) <= used && a.key in used && |used| < cap
    ensures var l' := Apply(l, cap, ttl, a);
            Valid(l', cap) && Lookup(l', k) == Lookup(l, k) && k in Keys(l') && Ahead(l', k) <= used
  {
    match a
    case Write(j, e) =>
      PutFacts(l, cap, j, e);
      WriteKeeps(l, cap, j, e, k, used);
    case Read(j, now) =>
      GetFacts(l, cap, j, now, ttl);
      PopFacts(l, j);
      AheadOfPop(l, j, k);
      if Lookup(l, j).Some? {
        FrontKeeps(Pop(l, j), j, Lookup(l, j).value, k, used);
      }
  }

  lemma SubsetSize(a: set<Key>, b: set<Key>)
    requires a <= b
    ensures |a| <= |b|
  {
    assert b == a + (b - a);
  }

  /** A just-used entry survives any further accesses to the shard that touch fewer distinct
      other keys than the shard has room for, however many accesses there are. */
  lemma {:induction false} RecentlyUsedSurvives(l: Lru, cap: nat, ttl: nat, accesses: seq<Access>, k: Key,
                                               used: set<Key>)
    requires Valid(l, cap) && cap > 0 && k in Keys(l) && Ahead(l, k) <= used
    requires Touched(accesses) <= used && k !in used && |used| < cap
    ensures Lookup(ApplyAll(l, cap, ttl, accesses), k) == Lookup(l, k)
    ensures k in Keys(ApplyAll(l, cap, ttl, accesses))
    decreases |accesses|
  {
    if accesses != [] {
      AccessKeeps(l, cap, ttl, accesses[0], k, used);
      RecentlyUsedSurvives(Apply(l, cap, ttl, accesses[0]), cap, ttl, accesses[1..], k, used);
    }
  }

  lemma {:induction false} AheadOfSweep(l: Lru, now: nat, ttl: nat, k: Key)
    requires Lookup(l, k).Some? && Age(Lookup(l, k).value, now) < ttl
    ensures Lookup(Sweep(l, now, ttl), k) == Lookup(l, k) && Ahead(Sweep(l, now, ttl), k) <= Ahead(l, k)
  {
    if l[0].0 != k {
      var t := l[1..];
      AheadOfSweep(t, now, ttl, k);
      if Age(l[0].1, now) < ttl {
        assert Sweep(l, now, ttl)[1..] == Sweep(t, now, ttl);
      } else {
        assert Sweep(l, now, ttl) == Sweep(t, now, ttl);
      }
    }
  }

  /** A hit is moved to the front. */
  lemma HitComesFirst(l: Lru, k: Key, now: nat, ttl: nat)
    requires Lookup(l, k).Some? && Age(Lookup(l, k).value, now) < ttl
    ensures Get(l, k, now, ttl).1 == Lookup(l, k)
    ensures Lookup(Get(l, k, now, ttl).0, k) == Lookup(l, k) && Ahead(Get(l, k, now, ttl).0, k) == {}
  {
  }
}
