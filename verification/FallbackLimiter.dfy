/** The process-local limiter used while the shared store is unreachable. A call reads the clock,
    then takes the lock; other calls can come in between. Times are in seconds. */
module FallbackLimiter {
  import opened Counting

  datatype Slot = Slot(window: nat, count: nat)

  type Slots = map<string, Slot>

  const SWEEP_ABOVE := 10_000

  function WindowOf(now: nat, windowSecs: nat): nat {
    if windowSecs == 0 then now else now / windowSecs
  }

  function Swept(slots: Slots, window: nat): Slots {
    if |slots| > SWEEP_ABOVE then map k | k in slots && slots[k].window == window :: slots[k] else slots
  }

  function Shown(slots: Slots, key: string, window: nat): nat {
    if key in slots && slots[key].window == window then slots[key].count else 0
  }

  function Step(slots: Slots, key: string, limit: nat, window: nat): (Slots, bool) {
    var n := Shown(slots, key, window) + 1;
    (Swept(slots, window)[key := Slot(window, n)], n <= limit)
  }

  class Limiter {
    var slots: Slots

    /** The section under the lock; `window` comes from the clock reading made before it. */
    method CountLocked(key: string, limit: nat, window: nat) returns (ok: bool)
      modifies this
      ensures slots == Step(old(slots), key, limit, window).0
      ensures ok == Step(old(slots), key, limit, window).1
    {
      if |slots| > SWEEP_ABOVE {
        slots := map k | k in slots && slots[k].window == window :: slots[k];
      }
      var entry := if key in slots then slots[key] else Slot(window, 0);
      if entry.window != window {
        entry := Slot(window, 0);
      }
      entry := entry.(count := entry.count + 1);
      slots := slots[key := entry];
      ok := entry.count <= limit;
    }
  }

  // ----- Runs -----

  /** One call: the clock is read at `readAt` to name the window, the lock is taken at `lockAt`. */
  datatype Call = Call(key: string, limit: nat, windowSecs: nat, readAt: nat, lockAt: nat)

  function Window(c: Call): nat {
    WindowOf(c.readAt, c.windowSecs)
  }

  /** The slots after calls that took the lock in this order. */
  function After(calls: seq<Call>): Slots {
    if calls == [] then map[]
    else
      var c := calls[|calls| - 1];
      Step(After(calls[..|calls| - 1]), c.key, c.limit, Window(c)).0
  }

  function Allowed(calls: seq<Call>): (r: seq<bool>)
    ensures |r| == |calls|
  {
    if calls == [] then []
    else
      var n := |calls| - 1;
      Allowed(calls[..n]) + [Step(After(calls[..n]), calls[n].key, calls[n].limit, Window(calls[n])).1]
  }

  predicate Is(c: Call, key: string, window: nat) {
    c.key == key && Window(c) == window
  }

  function Mine(calls: seq<Call>, key: string, window: nat): (m: seq<bool>)
    ensures |m| == |calls|
    ensures forall i :: 0 <= i < |m| ==> m[i] == Is(calls[i], key, window)
  {
    seq(|calls|, i requires 0 <= i < |calls| => Is(calls[i], key, window))
  }

  lemma MineSnoc(calls: seq<Call>, key: string, window: nat)
    requires calls != []
    ensures var n := |calls| - 1;
            && Mine(calls, key, window)[..n] == Mine(calls[..n], key, window)
            && Count(Mine(calls, key, window)) ==
               Count(Mine(calls[..n], key, window)) + (if Is(calls[n], key, window) then 1 else 0)
  {
  }

  /** Memory: a call leaves other slots alone while there are at most ten thousand, and above that keeps
      only those of its own window. */
  lemma OtherSlots(slots: Slots, key: string, limit: nat, window: nat, k: string)
    requires k != key
    ensures var after := Step(slots, key, limit, window).0;
            && (k in after <==> k in slots && (|slots| <= 10_000 || slots[k].window == window))
            && (k in after ==> after[k] == slots[k])
  {
  }

  // ----- The exact condition for the limit -----

  /** Call `m` makes the limiter forget what it counted for `key` in `window`: it is from another
      window, and either uses the same key or sweeps. */
  predicate Breaks(calls: seq<Call>, m: nat, key: string, window: nat)
    requires m < |calls|
  {
    Window(calls[m]) != window && (calls[m].key == key || |After(calls[..m])| > SWEEP_ABOVE)
  }

  /** No such call takes the lock between two calls of that key and window. */
  ghost predicate Unbroken(calls: seq<Call>, key: string, window: nat) {
    forall i, m, j :: 0 <= i < m < j < |calls| && Is(calls[i], key, window) && Is(calls[j], key, window) ==>
      !Breaks(calls, m, key, window)
  }

  /** The counter after one more call: forgotten by a breaking call, counted up by its own calls. */
  lemma ShownStep(calls: seq<Call>, key: string, window: nat)
    requires calls != []
    ensures var n := |calls| - 1;
            Shown(After(calls), key, window) ==
              if Is(calls[n], key, window) then Shown(After(calls[..n]), key, window) + 1
              else if Breaks(calls, n, key, window) then 0
              else Shown(After(calls[..n]), key, window)
  {
  }

  lemma {:induction false} NoneYet(calls: seq<Call>, key: string, window: nat)
    requires forall i :: 0 <= i < |calls| ==> !Is(calls[i], key, window)
    ensures Shown(After(calls), key, window) == 0 && Count(Mine(calls, key, window)) == 0
  {
    if calls != [] {
      NoneYet(calls[..|calls| - 1], key, window);
      ShownStep(calls, key, window);
      MineSnoc(calls, key, window);
    }
  }

  /** Before a call of the key and window the counter shows how often they were used, unless broken. */
  lemma {:induction false} SlotCounts(calls: seq<Call>, key: string, window: nat, j: nat, m: nat)
    requires Unbroken(calls, key, window) && m <= j < |calls| && Is(calls[j], key, window)
    ensures Shown(After(calls[..m]), key, window) == Count(Mine(calls[..m], key, window))
  {
    if m > 0 {
      var n := m - 1;
      SlotCounts(calls, key, window, j, n);
      ShownStep(calls[..m], key, window);
      MineSnoc(calls[..m], key, window);
      assert calls[..m][..n] == calls[..n];
      if Breaks(calls, n, key, window) {
        forall i | 0 <= i < n ensures !Is(calls[i], key, window) {}
        NoneYet(calls[..n], key, window);
      }
    }
  }

  lemma {:induction false} AllowedAt(calls: seq<Call>, i: nat)
    requires i < |calls|
    ensures Allowed(calls)[i] <==> Shown(After(calls[..i]), calls[i].key, Window(calls[i])) + 1 <= calls[i].limit
  {
    var n := |calls| - 1;
    if i < n {
      AllowedAt(calls[..n], i);
      assert Allowed(calls)[i] == Allowed(calls[..n])[i];
      assert calls[..n][..i] == calls[..i] && calls[..n][i] == calls[i];
    }
  }

  lemma MinePrefix(calls: seq<Call>, key: string, window: nat, n: nat)
    requires n <= |calls|
    ensures Mine(calls, key, window)[..n] == Mine(calls[..n], key, window)
  {
  }

  lemma CountThrough(calls: seq<Call>, key: string, window: nat, i: nat)
    requires i < |calls| && Is(calls[i], key, window)
    ensures Count(Mine(calls, key, window)[..i + 1]) == Count(Mine(calls[..i], key, window)) + 1
  {
    var upTo := calls[..i + 1];
    MinePrefix(calls, key, window, i + 1);
    MineSnoc(upTo, key, window);
    assert upTo[..i] == calls[..i];
  }

  lemma AllowedIffCounted(calls: seq<Call>, key: string, window: nat, i: nat)
    requires Unbroken(calls, key, window) && i < |calls| && Is(calls[i], key, window)
    ensures Allowed(calls)[i] <==> Count(Mine(calls, key, window)[..i + 1]) <= calls[i].limit
  {
    AllowedAt(calls, i);
    SlotCounts(calls, key, window, i, i);
    CountThrough(calls, key, window, i);
  }

  /** Exactly the first `limit` calls of a key and window pass, across any sweeps, unless broken. */
  lemma FirstLimitAllowed(calls: seq<Call>, key: string, window: nat, limit: nat)
    requires Unbroken(calls, key, window)
    requires forall i :: 0 <= i < |calls| && Is(calls[i], key, window) ==> calls[i].limit == limit
    ensures FirstOnes(Mine(calls, key, window), Allowed(calls), limit)
  {
    var mine := Mine(calls, key, window);
    forall i | 0 <= i < |mine| && mine[i] ensures Allowed(calls)[i] <==> Count(mine[..i + 1]) <= limit {
      AllowedIffCounted(calls, key, window, i);
    }
  }

  /** So a window lets the smaller of its calls and the limit through. */
  lemma WindowBound(calls: seq<Call>, key: string, window: nat, limit: nat)
    requires Unbroken(calls, key, window)
    requires forall i :: 0 <= i < |calls| && Is(calls[i], key, window) ==> calls[i].limit == limit
    ensures Count(Both(Mine(calls, key, window), Allowed(calls))) == Min(Count(Mine(calls, key, window)), limit)
  {
    FirstLimitAllowed(calls, key, window, limit);
    FirstOnesCount(Mine(calls, key, window), Allowed(calls), limit);
  }

  /** The same calls with another limit. */
  function WithLimit(calls: seq<Call>, limit: nat): (r: seq<Call>)
    ensures |r| == |calls|
    ensures forall i :: 0 <= i < |calls| ==> r[i] == calls[i].(limit := limit)
  {
    seq(|calls|, i requires 0 <= i < |calls| => calls[i].(limit := limit))
  }

  lemma {:induction false} LimitIrrelevant(calls: seq<Call>, limit: nat)
    ensures After(WithLimit(calls, limit)) == After(calls)
  {
    if calls != [] {
      var n := |calls| - 1;
      LimitIrrelevant(calls[..n], limit);
      assert WithLimit(calls, limit)[..n] == WithLimit(calls[..n], limit);
    }
  }

  /** Under the limit `limit`, exactly the first `limit` calls of the key and window pass. */
  ghost predicate FirstLimitRule(calls: seq<Call>, key: string, window: nat, limit: nat) {
    FirstOnes(Mine(calls, key, window), Allowed(WithLimit(calls, limit)), limit)
  }

  lemma UnbrokenWithLimit(calls: seq<Call>, key: string, window: nat, limit: nat)
    requires Unbroken(calls, key, window)
    ensures Unbroken(WithLimit(calls, limit), key, window)
  {
    var other := WithLimit(calls, limit);
    forall i, m, j | 0 <= i < m < j < |other| && Is(other[i], key, window) && Is(other[j], key, window)
      ensures !Breaks(other, m, key, window)
    {
      assert Is(calls[i], key, window) && Is(calls[j], key, window);
      assert !Breaks(calls, m, key, window);
      LimitIrrelevant(calls[..m], limit);
      assert other[..m] == WithLimit(calls[..m], limit);
    }
  }

  lemma UnbrokenObeys(calls: seq<Call>, key: string, window: nat, limit: nat)
    requires Unbroken(calls, key, window)
    ensures FirstLimitRule(calls, key, window, limit)
  {
    UnbrokenWithLimit(calls, key, window, limit);
    FirstLimitAllowed(WithLimit(calls, limit), key, window, limit);
    assert Mine(WithLimit(calls, limit), key, window) == Mine(calls, key, window);
  }

  /** The first call of the key and window at or after `m`. */
  lemma {:induction false} NextMine(calls: seq<Call>, key: string, window: nat, m: nat, j: nat) returns (k: nat)
    requires m <= j < |calls| && Is(calls[j], key, window)
    ensures m <= k <= j && Is(calls[k], key, window) && forall i :: m <= i < k ==> !Is(calls[i], key, window)
    decreases j - m
  {
    if Is(calls[m], key, window) { k := m; } else { k := NextMine(calls, key, window, m + 1, j); }
  }

  lemma {:induction false} StaysZero(calls: seq<Call>, key: string, window: nat, m: nat, k: nat)
    requires m <= k <= |calls| && Shown(After(calls[..m]), key, window) == 0
    requires forall i :: m <= i < k ==> !Is(calls[i], key, window)
    ensures Shown(After(calls[..k]), key, window) == 0
  {
    if m < k {
      StaysZero(calls, key, window, m, k - 1);
      ShownStep(calls[..k], key, window);
      assert calls[..k][..k - 1] == calls[..k - 1];
    }
  }

  lemma ForgottenAt(calls: seq<Call>, key: string, window: nat, m: nat, k: nat)
    requires m < k < |calls| && Breaks(calls, m, key, window)
    requires forall i :: m < i < k ==> !Is(calls[i], key, window)
    ensures Shown(After(calls[..k]), key, window) == 0
  {
    ShownStep(calls[..m + 1], key, window);
    assert calls[..m + 1][..m] == calls[..m];
    StaysZero(calls, key, window, m + 1, k);
  }

  lemma PassesAsFirst(calls: seq<Call>, key: string, window: nat, k: nat)
    requires k < |calls| && Is(calls[k], key, window) && Shown(After(calls[..k]), key, window) == 0
    ensures Allowed(WithLimit(calls, 1))[k]
  {
    var other := WithLimit(calls, 1);
    LimitIrrelevant(calls[..k], 1);
    assert other[..k] == WithLimit(calls[..k], 1);
    AllowedAt(other, k);
  }

  /** After a breaking call the next call of the key and window passes as if it were the first. */
  lemma BrokenReopens(calls: seq<Call>, key: string, window: nat, i: nat, m: nat, j: nat)
    requires i < m < j < |calls| && Is(calls[i], key, window) && Is(calls[j], key, window)
    requires Breaks(calls, m, key, window)
    ensures !FirstLimitRule(calls, key, window, 1)
  {
    var k := NextMine(calls, key, window, m + 1, j);
    ForgottenAt(calls, key, window, m, k);
    PassesAsFirst(calls, key, window, k);
    var mine := Mine(calls, key, window);
    CountTwo(mine[..k + 1], i, k);
    assert mine[k];
  }

  /** The exact condition: the first-`limit` rule holds for every limit - already for the limit 1 - if
      and only if no breaking call takes the lock between two calls of the key and window. */
  lemma FirstLimitIff(calls: seq<Call>, key: string, window: nat)
    ensures Unbroken(calls, key, window) <==> FirstLimitRule(calls, key, window, 1)
    ensures Unbroken(calls, key, window) <==> forall limit: nat :: FirstLimitRule(calls, key, window, limit)
  {
    if Unbroken(calls, key, window) {
      forall limit: nat ensures FirstLimitRule(calls, key, window, limit) {
        UnbrokenObeys(calls, key, window, limit);
      }
    } else {
      var i, m, j :| 0 <= i < m < j < |calls| && Is(calls[i], key, window) && Is(calls[j], key, window)
                     && Breaks(calls, m, key, window);
      BrokenReopens(calls, key, window, i, m, j);
    }
  }

  // ----- What a steady clock gives -----

  /** One clock that never goes back, read before the lock is taken, with one window length. */
  ghost predicate Steady(calls: seq<Call>, windowSecs: nat) {
    && (forall i :: 0 <= i < |calls| ==> calls[i].windowSecs == windowSecs && calls[i].readAt <= calls[i].lockAt)
    && (forall i, j :: 0 <= i < j < |calls| ==> calls[i].lockAt <= calls[j].lockAt)
  }

  /** The window at the moment of the lock. */
  function LockWindow(c: Call): nat {
    WindowOf(c.lockAt, c.windowSecs)
  }

  /** A call that takes the lock after the window it read has ended. */
  predicate Late(c: Call) {
    Window(c) < LockWindow(c)
  }

  function LateOnes(calls: seq<Call>): (r: seq<bool>)
    ensures |r| == |calls| && forall i :: 0 <= i < |r| ==> r[i] == Late(calls[i])
  {
    seq(|calls|, i requires 0 <= i < |calls| => Late(calls[i]))
  }

  lemma WindowSpan(now: nat, windowSecs: nat, w: nat)
    requires windowSecs > 0 && w == WindowOf(now, windowSecs)
    ensures w * windowSecs <= now < w * windowSecs + windowSecs
    ensures WindowOf(now, 0) == now
  {
    assert now == windowSecs * w + now % windowSecs;
  }

  lemma Apart(u: nat, v: nat, s: nat)
    requires u > v
    ensures u * s >= v * s + s
  {
    var d := u - v - 1;
    assert u * s == (v + 1 + d) * s == v * s + s + d * s;
  }

  lemma WindowMonotone(a: nat, b: nat, windowSecs: nat)
    requires a <= b
    ensures WindowOf(a, windowSecs) <= WindowOf(b, windowSecs)
  {
    var u, v := WindowOf(a, windowSecs), WindowOf(b, windowSecs);
    if windowSecs > 0 {
      WindowSpan(a, windowSecs, u);
      WindowSpan(b, windowSecs, v);
      if u > v { Apart(u, v, windowSecs); }
    }
  }

  /** Without late calls a steady clock gives the rule. */
  lemma PunctualUnbroken(calls: seq<Call>, windowSecs: nat, key: string, window: nat)
    requires Steady(calls, windowSecs) && forall i :: 0 <= i < |calls| ==> !Late(calls[i])
    ensures Unbroken(calls, key, window)
  {
    forall i, m, j | 0 <= i < m < j < |calls| && Is(calls[i], key, window) && Is(calls[j], key, window)
      ensures !Breaks(calls, m, key, window)
    {
      forall p | p in {i, m, j} ensures Window(calls[p]) == LockWindow(calls[p]) {
        WindowMonotone(calls[p].readAt, calls[p].lockAt, windowSecs);
      }
      WindowMonotone(calls[i].lockAt, calls[m].lockAt, windowSecs);
      WindowMonotone(calls[m].lockAt, calls[j].lockAt, windowSecs);
    }
  }

  function Passed(calls: seq<Call>, key: string, window: nat): nat {
    Count(Both(Mine(calls, key, window), Allowed(calls)))
  }

  lemma LateSnoc(calls: seq<Call>)
    requires calls != []
    ensures var n := |calls| - 1;
            Count(LateOnes(calls)) == Count(LateOnes(calls[..n])) + (if Late(calls[n]) then 1 else 0)
  {
    assert LateOnes(calls)[..|calls| - 1] == LateOnes(calls[..|calls| - 1]);
  }

  lemma PassedSnoc(calls: seq<Call>, key: string, window: nat)
    requires calls != []
    ensures var n := |calls| - 1;
            Passed(calls, key, window) == Passed(calls[..n], key, window)
              + (if Is(calls[n], key, window) && Shown(After(calls[..n]), key, window) + 1 <= calls[n].limit then 1 else 0)
  {
    var n := |calls| - 1;
    AllowedAt(calls, n);
    assert Both(Mine(calls, key, window), Allowed(calls))[..n]
        == Both(Mine(calls[..n], key, window), Allowed(calls[..n]));
  }

  /** What may have passed, given the late calls so far, the counter and whether the window is over. */
  predicate Budget(passed: nat, late: nat, shown: nat, limit: nat, over: bool) {
    if over then passed <= limit * late + limit else passed <= limit * late + Min(shown, limit)
  }

  lemma BudgetStep(passed: nat, late: nat, shown: nat, limit: nat, over: bool, isMine: bool, isLate: bool, breaks: bool, over': bool)
    requires Budget(passed, late, shown, limit, over) && (over ==> over')
    requires isMine && over' ==> isLate
    requires !isMine && breaks && shown > 0 ==> isLate || over'
    ensures var passed' := passed + if isMine && shown + 1 <= limit then 1 else 0;
            var late' := late + if isLate then 1 else 0;
            var shown' := if isMine then shown + 1 else if breaks then 0 else shown;
            Budget(passed', late', shown', limit, over')
  {
    assert limit * (late + 1) == limit * late + limit;
  }

  /** The window is over at the moment of the last lock. */
  predicate Over(calls: seq<Call>, window: nat) {
    calls != [] && LockWindow(calls[|calls| - 1]) > window
  }

  lemma {:induction false} Reached(calls: seq<Call>, windowSecs: nat, key: string, window: nat)
    requires Steady(calls, windowSecs) && Shown(After(calls), key, window) > 0
    ensures calls != [] && window <= LockWindow(calls[|calls| - 1])
  {
    var n := |calls| - 1;
    ShownStep(calls, key, window);
    WindowMonotone(calls[n].readAt, calls[n].lockAt, windowSecs);
    if !Is(calls[n], key, window) {
      Reached(calls[..n], windowSecs, key, window);
      WindowMonotone(calls[n - 1].lockAt, calls[n].lockAt, windowSecs);
    }
  }

  /** The last call of a steady run: when it is late, and when the window is over. */
  lemma SteadyStep(calls: seq<Call>, windowSecs: nat, key: string, window: nat)
    requires Steady(calls, windowSecs) && calls != []
    ensures var n := |calls| - 1;
            var before, c := calls[..n], calls[n];
            && (Over(before, window) ==> Over(calls, window))
            && (Is(c, key, window) && Over(calls, window) ==> Late(c))
            && (Window(c) != window && Shown(After(before), key, window) > 0 ==> Late(c) || Over(calls, window))
  {
    var n := |calls| - 1;
    var before, c := calls[..n], calls[n];
    WindowMonotone(c.readAt, c.lockAt, windowSecs);
    if n > 0 { WindowMonotone(calls[n - 1].lockAt, c.lockAt, windowSecs); }
    if Shown(After(before), key, window) > 0 { Reached(before, windowSecs, key, window); }
  }

  predicate InBudget(calls: seq<Call>, key: string, window: nat, limit: nat) {
    Budget(Passed(calls, key, window), Count(LateOnes(calls)), Shown(After(calls), key, window), limit, Over(calls, window))
  }

  lemma BudgetGrows(calls: seq<Call>, windowSecs: nat, key: string, window: nat, limit: nat)
    requires calls != [] && Steady(calls, windowSecs)
    requires Is(calls[|calls| - 1], key, window) ==> calls[|calls| - 1].limit == limit
    requires InBudget(calls[..|calls| - 1], key, window, limit)
    ensures InBudget(calls, key, window, limit)
  {
    var n := |calls| - 1;
    var before, c := calls[..n], calls[n];
    SteadyStep(calls, windowSecs, key, window);
    LateSnoc(calls);
    PassedSnoc(calls, key, window);
    ShownStep(calls, key, window);
    BudgetStep(Passed(before, key, window), Count(LateOnes(before)), Shown(After(before), key, window), limit,
               Over(before, window), Is(c, key, window), Late(c), Breaks(calls, n, key, window), Over(calls, window));
  }

  lemma {:induction false} SteadyBudget(calls: seq<Call>, windowSecs: nat, key: string, window: nat, limit: nat)
    requires Steady(calls, windowSecs)
    requires forall i :: 0 <= i < |calls| && Is(calls[i], key, window) ==> calls[i].limit == limit
    ensures InBudget(calls, key, window, limit)
    decreases |calls|
  {
    if calls != [] {
      SteadyBudget(calls[..|calls| - 1], windowSecs, key, window, limit);
      BudgetGrows(calls, windowSecs, key, window, limit);
    } else {
      assert Both([], []) == [];
    }
  }

  lemma BudgetBound(passed: nat, late: nat, shown: nat, limit: nat, over: bool)
    requires Budget(passed, late, shown, limit, over)
    ensures passed <= limit * (1 + late)
  {
    assert limit * (1 + late) == limit * late + limit;
  }

  /** With a steady clock alone, each late call can let one more `limit` through, and no more. */
  lemma SteadyBound(calls: seq<Call>, windowSecs: nat, key: string, window: nat, limit: nat)
    requires Steady(calls, windowSecs)
    requires forall i :: 0 <= i < |calls| && Is(calls[i], key, window) ==> calls[i].limit == limit
    ensures Passed(calls, key, window) <= limit * (1 + Count(LateOnes(calls)))
  {
    SteadyBudget(calls, windowSecs, key, window, limit);
    BudgetBound(Passed(calls, key, window), Count(LateOnes(calls)), Shown(After(calls), key, window), limit, Over(calls, window));
  }

  // ----- Broken runs -----

  lemma ThreeCalls(a: Call, b: Call, c: Call)
    requires a.key == b.key == c.key && a.limit == b.limit == c.limit == 1
    requires Window(a) == Window(c) != Window(b)
    ensures Allowed([a, b, c]) == [true, true, true] && Passed([a, b, c], a.key, Window(a)) == 2
    ensures !Unbroken([a, b, c], a.key, Window(a))
  {
    var calls := [a, b, c];
    var c1, c2 := calls[..1], calls[..2];
    assert c2[..1] == c1 && c1[..0] == [];
    assert After(c1) == map[a.key := Slot(Window(a), 1)];
    assert After(c2) == map[a.key := Slot(Window(b), 1)];
    assert Allowed(c1) == [true] && Allowed(c2) == [true, true];
    PassedSnoc(calls, a.key, Window(a));
    PassedSnoc(c2, a.key, Window(a));
    PassedSnoc(c1, a.key, Window(a));
    assert Breaks(calls, 1, a.key, Window(a));
  }

  /** A race at a window boundary with a steady clock: the third call read the clock in window 5 and
      takes the lock after a call of window 6, so window 5 lets two through at the limit 1. */
  lemma BoundaryRace()
    ensures var calls := [Call("k", 1, 60, 310, 310), Call("k", 1, 60, 360, 360), Call("k", 1, 60, 359, 361)];
            Steady(calls, 60) && Allowed(calls) == [true, true, true] && Passed(calls, "k", 5) == 2
  {
    ThreeCalls(Call("k", 1, 60, 310, 310), Call("k", 1, 60, 360, 360), Call("k", 1, 60, 359, 361));
  }

  /** So does a clock that goes back, with no call between its reading and its lock. */
  lemma ClockBackReopens()
    ensures var calls := [Call("k", 1, 60, 310, 310), Call("k", 1, 60, 290, 290), Call("k", 1, 60, 310, 310)];
            Allowed(calls) == [true, true, true] && Passed(calls, "k", 5) == 2
  {
    ThreeCalls(Call("k", 1, 60, 310, 310), Call("k", 1, 60, 290, 290), Call("k", 1, 60, 310, 310));
  }
}
