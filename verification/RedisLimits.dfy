/** The two counter scripts on the shared store, and the limits they enforce over whole runs.
    Times are in milliseconds. */
module RedisLimits {
  import opened Counting
  import opened Calendar

  datatype CounterKey =
    | Minute(credential: string, server: string, bucket: int)
    | Month(workspace: string, year: int, month: int)

  datatype Cell = Cell(count: nat, expiresAt: int)

  type Cells = map<CounterKey, Cell>

  predicate Alive(cells: Cells, key: CounterKey, now: int) {
    key in cells && now <= cells[key].expiresAt
  }

  function Value(cells: Cells, key: CounterKey, now: int): nat {
    if Alive(cells, key, now) then cells[key].count else 0
  }

  /** INCR, with EXPIRE when the counter has just become 1. */
  function Bump(cells: Cells, key: CounterKey, ttl: int, now: int): Cells {
    var v := Value(cells, key, now) + 1;
    var expiry := if v == 1 then now + ttl else cells[key].expiresAt;
    cells[key := Cell(v, expiry)]
  }

  function RateStep(cells: Cells, key: CounterKey, limit: int, ttl: int, now: int): (Cells, bool) {
    var cells' := Bump(cells, key, ttl, now);
    (cells', cells'[key].count <= limit)
  }

  function QuotaStep(cells: Cells, key: CounterKey, limit: int, ttl: int, now: int): (Cells, bool) {
    if Value(cells, key, now) >= limit then (cells, false) else (Bump(cells, key, ttl, now), true)
  }

  /** The store as the scripts see it: each script body runs as one atomic method. */
  class Store {
    var cells: Cells

    constructor ()
      ensures cells == map[]
    {
      cells := map[];
    }

    method Incr(key: CounterKey, now: int) returns (v: nat)
      modifies this
      ensures v == Value(old(cells), key, now) + 1
      ensures cells == old(cells)[key := Cell(v, if Alive(old(cells), key, now) then old(cells)[key].expiresAt else now)]
    {
      v := 1;
      var expiry := now;
      if key in cells && now <= cells[key].expiresAt {
        v := cells[key].count + 1;
        expiry := cells[key].expiresAt;
      }
      cells := cells[key := Cell(v, expiry)];
    }

    method Expire(key: CounterKey, ttl: int, now: int)
      requires key in cells
      modifies this
      ensures cells == old(cells)[key := old(cells)[key].(expiresAt := now + ttl)]
    {
      cells := cells[key := cells[key].(expiresAt := now + ttl)];
    }

    /** Negative when the limit is exceeded, else the new count. */
    method RateLimitScript(key: CounterKey, limit: int, ttl: int, now: int) returns (r: int)
      modifies this
      ensures cells == RateStep(old(cells), key, limit, ttl, now).0
      ensures r >= 0 <==> RateStep(old(cells), key, limit, ttl, now).1
      ensures r == if Value(old(cells), key, now) + 1 <= limit then Value(old(cells), key, now) + 1 else -1
    {
      var current := Incr(key, now);
      if current == 1 { Expire(key, ttl, now); }
      if current > limit { return -1; }
      return current;
    }

    method MonthlyQuotaScript(key: CounterKey, limit: int, ttl: int, now: int) returns (r: int)
      modifies this
      ensures cells == QuotaStep(old(cells), key, limit, ttl, now).0
      ensures r >= 0 <==> QuotaStep(old(cells), key, limit, ttl, now).1
      ensures r == if Value(old(cells), key, now) < limit then Value(old(cells), key, now) + 1 else -1
    {
      var current := 0;
      if key in cells && now <= cells[key].expiresAt { current := cells[key].count; }
      if current >= limit { return -1; }
      r := Incr(key, now);
      if r == 1 { Expire(key, ttl, now); }
    }
  }

  // ----- Runs -----

  const MINUTE := 60_000
  const DAY_MS := 86_400_000

  /** One check: the clock is read at `readAt` to name the key, the script runs at `runAt`. */
  datatype Attempt =
    | PerMinute(credential: string, server: string, limit: int, readAt: nat, runAt: nat)
    | PerMonth(workspace: string, limit: int, date: Date, readAt: nat, runAt: nat)

  function KeyOf(a: Attempt): CounterKey {
    match a
    case PerMinute(c, s, _, readAt, _) => Minute(c, s, readAt / MINUTE)
    case PerMonth(w, _, d, _, _) => Month(w, d.year, d.month)
  }

  function Ttl(a: Attempt): int {
    match a
    case PerMinute(_, _, _, _, _) => (60 + 5) * 1000
    case PerMonth(_, _, d, _, _) => TtlSeconds(d) * 1000
  }

  function Apply(cells: Cells, a: Attempt): (Cells, bool) {
    match a
    case PerMinute(_, _, limit, _, _) => RateStep(cells, KeyOf(a), limit, Ttl(a), a.runAt)
    case PerMonth(_, limit, _, _, _) => QuotaStep(cells, KeyOf(a), limit, Ttl(a), a.runAt)
  }

  function After(attempts: seq<Attempt>): Cells {
    if attempts == [] then map[] else Apply(After(attempts[..|attempts| - 1]), attempts[|attempts| - 1]).0
  }

  function Admitted(attempts: seq<Attempt>): (r: seq<bool>)
    ensures |r| == |attempts|
  {
    if attempts == [] then []
    else
      var n := |attempts| - 1;
      Admitted(attempts[..n]) + [Apply(After(attempts[..n]), attempts[n]).1]
  }

  /** The moment until which a script may still run under `key`. */
  function Deadline(key: CounterKey): int {
    match key
    case Minute(_, _, b) => (b + 1) * MINUTE + 5_000
    case Month(_, y, m) => if 1 <= m <= 12 then (MonthStart(y, m + 1) + 4) * DAY_MS else 0
  }

  /** The date is right, and the script runs within 5 seconds (a minute counter) or 4 days (a month
      counter) of the clock reading that named its key. */
  predicate Prompt(a: Attempt) {
    match a
    case PerMinute(_, _, _, readAt, runAt) => readAt <= runAt < readAt + 5_000
    case PerMonth(_, _, d, readAt, runAt) => Names(d, readAt / DAY_MS) && readAt <= runAt <= readAt + 4 * DAY_MS
  }

  /** While its key can still be used, the counter an attempt creates cannot expire. */
  lemma CounterOutlivesUse(a: Attempt)
    requires Prompt(a)
    ensures a.runAt < Deadline(KeyOf(a)) <= a.runAt + Ttl(a)
  {
    match a
    case PerMinute(_, _, _, readAt, runAt) =>
      var b := readAt / MINUTE;
      assert b * MINUTE <= readAt < (b + 1) * MINUTE;
    case PerMonth(_, _, d, readAt, runAt) =>
      var n := readAt / DAY_MS;
      assert n * DAY_MS <= readAt < (n + 1) * DAY_MS;
      CounterOutlivesMonth(d, n, n * DAY);
  }

  /** It does not linger either: a minute counter is gone 65 seconds later, a month counter 5 days later. */
  lemma CounterDoesNotLinger(a: Attempt)
    requires Prompt(a)
    ensures a.PerMinute? ==> a.runAt + Ttl(a) < Deadline(KeyOf(a)) + 65_000
    ensures a.PerMonth? ==> a.runAt + Ttl(a) < Deadline(KeyOf(a)) + 5 * DAY_MS
  {
    match a
    case PerMinute(_, _, _, readAt, runAt) =>
      var b := readAt / MINUTE;
      assert b * MINUTE <= readAt < (b + 1) * MINUTE;
    case PerMonth(_, _, d, readAt, runAt) =>
      var n := readAt / DAY_MS;
      assert n * DAY_MS <= readAt < (n + 1) * DAY_MS;
      CounterOutlivesMonth(d, n, n * DAY);
  }

  function Mine(attempts: seq<Attempt>, key: CounterKey): (m: seq<bool>)
    ensures |m| == |attempts|
    ensures forall i :: 0 <= i < |m| ==> m[i] == (KeyOf(attempts[i]) == key)
  {
    seq(|attempts|, i requires 0 <= i < |attempts| => KeyOf(attempts[i]) == key)
  }

  ghost predicate Fixed(attempts: seq<Attempt>, key: CounterKey, limit: int) {
    forall i :: 0 <= i < |attempts| && KeyOf(attempts[i]) == key ==> attempts[i].limit == limit
  }

  ghost predicate AllPrompt(attempts: seq<Attempt>) {
    forall i :: 0 <= i < |attempts| ==> Prompt(attempts[i])
  }

  /** What the counter of `key` must show after `n` attempts. */
  function Tally(key: CounterKey, n: nat, limit: int): int {
    if key.Minute? then n else Min(n, Max(limit, 0))
  }

  ghost predicate CellShows(cells: Cells, key: CounterKey, tally: int) {
    && (key in cells <==> tally > 0)
    && (key in cells ==> cells[key].count == tally && Deadline(key) <= cells[key].expiresAt)
  }

  lemma StepShows(cells: Cells, a: Attempt, key: CounterKey, n: nat, limit: int)
    requires Prompt(a) && CellShows(cells, key, Tally(key, n, limit))
    requires KeyOf(a) == key ==> a.limit == limit
    ensures KeyOf(a) != key ==> CellShows(Apply(cells, a).0, key, Tally(key, n, limit))
    ensures KeyOf(a) == key ==>
      CellShows(Apply(cells, a).0, key, Tally(key, n + 1, limit)) && (Apply(cells, a).1 <==> n + 1 <= limit)
  {
    CounterOutlivesUse(a);
  }

  lemma MineSnoc(attempts: seq<Attempt>, key: CounterKey)
    requires attempts != []
    ensures var n := |attempts| - 1;
            && Mine(attempts, key)[..n] == Mine(attempts[..n], key)
            && Count(Mine(attempts, key)) == Count(Mine(attempts[..n], key)) + (if KeyOf(attempts[n]) == key then 1 else 0)
  {
  }

  /** After any run the counter shows how often its key was tried (a minute counter) or admitted
      (a month counter). */
  lemma {:induction false} CounterTracks(attempts: seq<Attempt>, key: CounterKey, limit: int)
    requires AllPrompt(attempts) && Fixed(attempts, key, limit)
    ensures CellShows(After(attempts), key, Tally(key, Count(Mine(attempts, key)), limit))
  {
    if attempts != [] {
      var n := |attempts| - 1;
      CounterTracks(attempts[..n], key, limit);
      MineSnoc(attempts, key);
      StepShows(After(attempts[..n]), attempts[n], key, Count(Mine(attempts[..n], key)), limit);
    }
  }

  lemma AdmittedSnoc(attempts: seq<Attempt>)
    requires attempts != []
    ensures var n := |attempts| - 1;
            && Admitted(attempts)[..n] == Admitted(attempts[..n])
            && Admitted(attempts)[n] == Apply(After(attempts[..n]), attempts[n]).1
  {
  }

  lemma {:induction false} AdmittedAt(attempts: seq<Attempt>, i: nat)
    requires i < |attempts|
    ensures Admitted(attempts)[i] == Apply(After(attempts[..i]), attempts[i]).1
  {
    var n := |attempts| - 1;
    AdmittedSnoc(attempts);
    if i < n {
      AdmittedAt(attempts[..n], i);
      assert Admitted(attempts)[i] == Admitted(attempts)[..n][i];
      assert attempts[..n][..i] == attempts[..i];
    }
  }

  lemma CountThrough(attempts: seq<Attempt>, key: CounterKey, i: nat)
    requires i < |attempts| && KeyOf(attempts[i]) == key
    ensures Count(Mine(attempts, key)[..i + 1]) == Count(Mine(attempts[..i], key)) + 1
  {
    var upTo := attempts[..i + 1];
    assert Mine(attempts, key)[..i + 1] == Mine(upTo, key);
    MineSnoc(upTo, key);
    assert upTo[..i] == attempts[..i];
  }

  lemma AdmittedIffCounted(attempts: seq<Attempt>, key: CounterKey, limit: int, i: nat)
    requires AllPrompt(attempts) && Fixed(attempts, key, limit) && i < |attempts| && KeyOf(attempts[i]) == key
    ensures Admitted(attempts)[i] <==> Count(Mine(attempts, key)[..i + 1]) <= limit
  {
    AdmittedAt(attempts, i);
    CounterTracks(attempts[..i], key, limit);
    StepShows(After(attempts[..i]), attempts[i], key, Count(Mine(attempts[..i], key)), limit);
    CountThrough(attempts, key, i);
  }

  /** Exactly the first `limit` attempts under a key are admitted, in every run whose scripts are
      prompt, whatever other keys the store serves in between. */
  lemma FirstLimitAdmitted(attempts: seq<Attempt>, key: CounterKey, limit: int)
    requires AllPrompt(attempts) && Fixed(attempts, key, limit)
    ensures FirstOnes(Mine(attempts, key), Admitted(attempts), limit)
  {
    var mine := Mine(attempts, key);
    forall i | 0 <= i < |mine| && mine[i] ensures Admitted(attempts)[i] <==> Count(mine[..i + 1]) <= limit {
      AdmittedIffCounted(attempts, key, limit, i);
    }
  }

  /** A minute bucket never admits more than the limit; a month admits the smaller of its attempts
      and its limit, and its counter shows that number. */
  lemma AdmittedPerKey(attempts: seq<Attempt>, key: CounterKey, limit: int)
    requires AllPrompt(attempts) && Fixed(attempts, key, limit)
    ensures var n := Count(Both(Mine(attempts, key), Admitted(attempts)));
            && n == Min(Count(Mine(attempts, key)), Max(limit, 0))
            && (key.Month? ==> n == if key in After(attempts) then After(attempts)[key].count else 0)
  {
    FirstLimitAdmitted(attempts, key, limit);
    FirstOnesCount(Mine(attempts, key), Admitted(attempts), limit);
    CounterTracks(attempts, key, limit);
  }

  // ----- Who shares a counter -----

  /** Minute checks share a counter exactly when credential, server and minute agree, month checks exactly
      when workspace, year and month do, and a minute check never shares one with a month check. */
  lemma SharesCounterIff(a: Attempt, b: Attempt)
    ensures a.PerMinute? && b.PerMinute? ==>
      (KeyOf(a) == KeyOf(b) <==> a.credential == b.credential && a.server == b.server && a.readAt / 60_000 == b.readAt / 60_000)
    ensures a.PerMonth? && b.PerMonth? ==>
      (KeyOf(a) == KeyOf(b) <==> a.workspace == b.workspace && a.date.year == b.date.year && a.date.month == b.date.month)
    ensures a.PerMinute? != b.PerMinute? ==> KeyOf(a) != KeyOf(b)
  {
  }

  predicate InMonth(a: Attempt, workspace: string, year: int, month: int) {
    a.PerMonth? && a.workspace == workspace && a.date.year == year && a.date.month == month
  }

  function OfWorkspace(attempts: seq<Attempt>, workspace: string, year: int, month: int): (m: seq<bool>)
    ensures |m| == |attempts| && forall i :: 0 <= i < |m| ==> m[i] == InMonth(attempts[i], workspace, year, month)
  {
    seq(|attempts|, i requires 0 <= i < |attempts| => InMonth(attempts[i], workspace, year, month))
  }

  lemma OfWorkspaceIsMine(attempts: seq<Attempt>, workspace: string, year: int, month: int)
    ensures OfWorkspace(attempts, workspace, year, month) == Mine(attempts, Month(workspace, year, month))
  {
  }

  /** The monthly quota, per workspace: of a workspace's attempts in a calendar month exactly the first
      `limit` are admitted, so the smaller of the two numbers, and its counter shows that number - whatever
      other workspaces and the minute limiter do in between. */
  lemma QuotaPerWorkspace(attempts: seq<Attempt>, workspace: string, year: int, month: int, limit: int)
    requires AllPrompt(attempts)
    requires forall i :: 0 <= i < |attempts| && InMonth(attempts[i], workspace, year, month) ==> attempts[i].limit == limit
    ensures var mine := OfWorkspace(attempts, workspace, year, month);
            && FirstOnes(mine, Admitted(attempts), limit)
            && Count(Both(mine, Admitted(attempts))) == Min(Count(mine), Max(limit, 0))
            && var key := Month(workspace, year, month);
               Count(Both(mine, Admitted(attempts))) == if key in After(attempts) then After(attempts)[key].count else 0
  {
    var key := Month(workspace, year, month);
    OfWorkspaceIsMine(attempts, workspace, year, month);
    assert Fixed(attempts, key, limit);
    FirstLimitAdmitted(attempts, key, limit);
    AdmittedPerKey(attempts, key, limit);
  }

  predicate InBucket(a: Attempt, credential: string, server: string, minute: nat) {
    a.PerMinute? && a.credential == credential && a.server == server && minute * 60_000 <= a.readAt < (minute + 1) * 60_000
  }

  function OfBucket(attempts: seq<Attempt>, credential: string, server: string, minute: nat): (m: seq<bool>)
    ensures |m| == |attempts| && forall i :: 0 <= i < |m| ==> m[i] == InBucket(attempts[i], credential, server, minute)
  {
    seq(|attempts|, i requires 0 <= i < |attempts| => InBucket(attempts[i], credential, server, minute))
  }

  lemma BucketKey(a: Attempt, credential: string, server: string, minute: nat)
    ensures InBucket(a, credential, server, minute) <==> KeyOf(a) == Minute(credential, server, minute)
  {
  }

  /** The rate limit, per credential, server and minute: exactly the first `limit` checks whose clock
      readings fall into the minute are admitted. */
  lemma LimitPerMinute(attempts: seq<Attempt>, credential: string, server: string, minute: nat, limit: int)
    requires AllPrompt(attempts)
    requires forall i :: 0 <= i < |attempts| && InBucket(attempts[i], credential, server, minute) ==> attempts[i].limit == limit
    ensures FirstOnes(OfBucket(attempts, credential, server, minute), Admitted(attempts), limit)
  {
    var key := Minute(credential, server, minute);
    forall i | 0 <= i < |attempts| ensures InBucket(attempts[i], credential, server, minute) <==> KeyOf(attempts[i]) == key {
      BucketKey(attempts[i], credential, server, minute);
    }
    assert OfBucket(attempts, credential, server, minute) == Mine(attempts, key);
    FirstLimitAdmitted(attempts, key, limit);
  }

  /** A counter created at `now` counts until its lifetime is over and then starts afresh. */
  lemma CounterExpires(cells: Cells, key: CounterKey, ttl: nat, now: int, later: int)
    requires key !in cells && now <= later
    ensures Value(Bump(cells, key, ttl, now), key, later) == if later <= now + ttl then 1 else 0
  {
  }

  /** A minute check of one credential on one server. */
  predicate Concerns(a: Attempt, credential: string, server: string) {
    a.PerMinute? && a.credential == credential && a.server == server
  }

  /** All checks of the credential on the server run promptly and under one limit. */
  ghost predicate Lawful(attempts: seq<Attempt>, credential: string, server: string, limit: int) {
    && AllPrompt(attempts)
    && forall i :: 0 <= i < |attempts| && Concerns(attempts[i], credential, server) ==> attempts[i].limit == limit
  }

  lemma BucketBound(attempts: seq<Attempt>, credential: string, server: string, limit: int, bucket: int)
    requires Lawful(attempts, credential, server, limit)
    ensures Count(Both(Mine(attempts, Minute(credential, server, bucket)), Admitted(attempts))) <= Max(limit, 0)
  {
    AdmittedPerKey(attempts, Minute(credential, server, bucket), limit);
  }

  /** Checks that fall into two buckets only: at most twice the limit. */
  lemma TwoBuckets(attempts: seq<Attempt>, credential: string, server: string, limit: int, flags: seq<bool>, b: int)
    requires Lawful(attempts, credential, server, limit) && |flags| == |attempts|
    requires forall i :: 0 <= i < |flags| && flags[i] ==>
      KeyOf(attempts[i]) == Minute(credential, server, b) || KeyOf(attempts[i]) == Minute(credential, server, b + 1)
    ensures Count(Both(flags, Admitted(attempts))) <= 2 * Max(limit, 0)
  {
    var ok := Admitted(attempts);
    var m0, m1 := Mine(attempts, Minute(credential, server, b)), Mine(attempts, Minute(credential, server, b + 1));
    CountMonotone(Both(flags, ok), Both(m0, ok), Both(m1, ok));
    BucketBound(attempts, credential, server, limit, b);
    BucketBound(attempts, credential, server, limit, b + 1);
  }

  // ----- Any 60 seconds of clock readings -----

  /** Such checks whose clock readings fall within the 60 seconds starting at `from`. */
  function ReadWithin(attempts: seq<Attempt>, credential: string, server: string, from: nat): (m: seq<bool>)
    ensures |m| == |attempts|
    ensures forall i :: 0 <= i < |m| ==>
      m[i] == (Concerns(attempts[i], credential, server) && from <= attempts[i].readAt < from + MINUTE)
  {
    seq(|attempts|, i requires 0 <= i < |attempts| =>
      Concerns(attempts[i], credential, server) && from <= attempts[i].readAt < from + MINUTE)
  }

  /** Of the checks whose clock readings fall within 60 seconds at most twice the limit are admitted. */
  lemma AtMostTwiceByReading(attempts: seq<Attempt>, credential: string, server: string, limit: int, from: nat)
    requires Lawful(attempts, credential, server, limit)
    ensures Count(Both(ReadWithin(attempts, credential, server, from), Admitted(attempts))) <= 2 * Max(limit, 0)
  {
    TwoBuckets(attempts, credential, server, limit, ReadWithin(attempts, credential, server, from), from / MINUTE);
  }

  // ----- Any 60 seconds of admissions -----

  /** Such checks whose scripts run within the 60 seconds starting at `from`. */
  function RunWithin(attempts: seq<Attempt>, credential: string, server: string, from: nat): (m: seq<bool>)
    ensures |m| == |attempts|
    ensures forall i :: 0 <= i < |m| ==>
      m[i] == (Concerns(attempts[i], credential, server) && from <= attempts[i].runAt < from + MINUTE)
  {
    seq(|attempts|, i requires 0 <= i < |attempts| =>
      Concerns(attempts[i], credential, server) && from <= attempts[i].runAt < from + MINUTE)
  }

  function AdmittedWithin(attempts: seq<Attempt>, credential: string, server: string, from: nat): nat {
    Count(Both(RunWithin(attempts, credential, server, from), Admitted(attempts)))
  }

  /** Prompt scripts of a window come from its bucket, the one before or the one after. */
  lemma RunKeys(a: Attempt, credential: string, server: string, from: nat)
    requires Prompt(a) && Concerns(a, credential, server) && from <= a.runAt < from + MINUTE
    ensures KeyOf(a) == Minute(credential, server, a.readAt / MINUTE)
    ensures from / MINUTE - 1 <= a.readAt / MINUTE <= from / MINUTE + 1
    ensures a.readAt / MINUTE == from / MINUTE - 1 ==> from % MINUTE < 4_999 && from >= MINUTE
    ensures a.readAt / MINUTE == from / MINUTE + 1 ==> from % MINUTE > 0
  {
    var q, r := from / MINUTE, from % MINUTE;
    assert from == q * MINUTE + r;
  }

  function Without(flags: seq<bool>, other: seq<bool>): (r: seq<bool>)
    requires |flags| == |other|
    ensures |r| == |flags| && forall i :: 0 <= i < |r| ==> r[i] == (flags[i] && !other[i])
  {
    seq(|flags|, i requires 0 <= i < |flags| => flags[i] && !other[i])
  }

  lemma ThreeBuckets(attempts: seq<Attempt>, credential: string, server: string, limit: int, flags: seq<bool>, b: int)
    requires Lawful(attempts, credential, server, limit) && |flags| == |attempts|
    requires forall i :: 0 <= i < |flags| && flags[i] ==>
      || KeyOf(attempts[i]) == Minute(credential, server, b - 1)
      || KeyOf(attempts[i]) == Minute(credential, server, b)
      || KeyOf(attempts[i]) == Minute(credential, server, b + 1)
    ensures Count(Both(flags, Admitted(attempts))) <= 3 * Max(limit, 0)
  {
    var first := Mine(attempts, Minute(credential, server, b - 1));
    var later := Without(flags, first);
    TwoBuckets(attempts, credential, server, limit, later, b);
    BucketBound(attempts, credential, server, limit, b - 1);
    SplitCount(flags, first, Admitted(attempts));
  }

  lemma SplitCount(flags: seq<bool>, first: seq<bool>, ok: seq<bool>)
    requires |flags| == |first| == |ok|
    ensures Count(Both(flags, ok)) <= Count(Both(first, ok)) + Count(Both(Without(flags, first), ok))
  {
    CountMonotone(Both(flags, ok), Both(first, ok), Both(Without(flags, first), ok));
  }

  /** In no 60 seconds are more than three times the limit admitted. */
  lemma AtMostThrice(attempts: seq<Attempt>, credential: string, server: string, limit: int, from: nat)
    requires Lawful(attempts, credential, server, limit)
    ensures AdmittedWithin(attempts, credential, server, from) <= 3 * Max(limit, 0)
  {
    var w := RunWithin(attempts, credential, server, from);
    forall i | 0 <= i < |w| && w[i]
      ensures || KeyOf(attempts[i]) == Minute(credential, server, from / MINUTE - 1)
              || KeyOf(attempts[i]) == Minute(credential, server, from / MINUTE)
              || KeyOf(attempts[i]) == Minute(credential, server, from / MINUTE + 1)
    {
      RunKeys(attempts[i], credential, server, from);
    }
    ThreeBuckets(attempts, credential, server, limit, w, from / MINUTE);
  }

  /** Windows that start on a minute, at least 4.999 seconds into one, or in the first minute of all. */
  predicate Aligned(from: nat) {
    from % MINUTE == 0 || from % MINUTE >= 4_999 || from < MINUTE
  }

  /** In these at most twice the limit. */
  lemma AlignedTwice(attempts: seq<Attempt>, credential: string, server: string, limit: int, from: nat)
    requires Lawful(attempts, credential, server, limit) && Aligned(from)
    ensures AdmittedWithin(attempts, credential, server, from) <= 2 * Max(limit, 0)
  {
    var w := RunWithin(attempts, credential, server, from);
    var b := if from % MINUTE == 0 && from >= MINUTE then from / MINUTE - 1 else from / MINUTE;
    forall i | 0 <= i < |w| && w[i]
      ensures KeyOf(attempts[i]) == Minute(credential, server, b) || KeyOf(attempts[i]) == Minute(credential, server, b + 1)
    {
      RunKeys(attempts[i], credential, server, from);
    }
    TwoBuckets(attempts, credential, server, limit, w, b);
  }

  // ----- Three times the limit -----

  function Copies(a: Attempt, n: nat): (r: seq<Attempt>)
    ensures |r| == n && forall i :: 0 <= i < n ==> r[i] == a
  {
    seq(n, _ => a)
  }

  /** `limit` checks each from three buckets, all run within the 60 seconds starting at `from`: late ones
      of the minute before, ones of the minute itself, and ones of the next minute. */
  function Burst(credential: string, server: string, limit: nat, from: nat): seq<Attempt>
    requires from >= MINUTE
  {
    var q := from / MINUTE;
    Copies(PerMinute(credential, server, limit, q * MINUTE - 1, from), limit)
    + Copies(PerMinute(credential, server, limit, from, from), limit)
    + Copies(PerMinute(credential, server, limit, (q + 1) * MINUTE, (q + 1) * MINUTE), limit)
  }

  lemma MineConcat(a: seq<Attempt>, b: seq<Attempt>, key: CounterKey)
    ensures Mine(a + b, key) == Mine(a, key) + Mine(b, key)
  {
  }

  lemma CopiesCount(a: Attempt, n: nat, key: CounterKey)
    ensures Count(Mine(Copies(a, n), key)) == if KeyOf(a) == key then n else 0
  {
    CountSame(Mine(Copies(a, n), key), KeyOf(a) == key);
  }

  lemma ThreeCopiesCount(a: Attempt, b: Attempt, c: Attempt, n: nat, key: CounterKey)
    requires KeyOf(a) != KeyOf(b) && KeyOf(b) != KeyOf(c) && KeyOf(a) != KeyOf(c)
    ensures Count(Mine(Copies(a, n) + Copies(b, n) + Copies(c, n), key)) <= n
  {
    var x, y, z := Copies(a, n), Copies(b, n), Copies(c, n);
    MineConcat(x + y, z, key);
    MineConcat(x, y, key);
    CountConcat(Mine(x, key) + Mine(y, key), Mine(z, key));
    CountConcat(Mine(x, key), Mine(y, key));
    CopiesCount(a, n, key);
    CopiesCount(b, n, key);
    CopiesCount(c, n, key);
  }

  lemma FewAdmitted(attempts: seq<Attempt>, limit: int, i: nat)
    requires AllPrompt(attempts) && i < |attempts| && Fixed(attempts, KeyOf(attempts[i]), limit)
    requires Count(Mine(attempts, KeyOf(attempts[i]))) <= limit
    ensures Admitted(attempts)[i]
  {
    AdmittedIffCounted(attempts, KeyOf(attempts[i]), limit, i);
    CountPrefix(Mine(attempts, KeyOf(attempts[i])), i + 1);
  }

  /** Attempts that are no more than the limit under any key are all admitted. */
  lemma FewAllAdmitted(attempts: seq<Attempt>, limit: int)
    requires AllPrompt(attempts) && forall i :: 0 <= i < |attempts| ==> attempts[i].limit == limit
    requires forall key :: Count(Mine(attempts, key)) <= limit
    ensures forall i :: 0 <= i < |attempts| ==> Admitted(attempts)[i]
  {
    forall i | 0 <= i < |attempts| ensures Admitted(attempts)[i] { FewAdmitted(attempts, limit, i); }
  }

  ghost predicate Ordered(attempts: seq<Attempt>) {
    forall i, j :: 0 <= i < j < |attempts| ==> attempts[i].runAt <= attempts[j].runAt
  }

  lemma BurstParts(credential: string, server: string, limit: nat, from: nat, i: nat)
    requires !Aligned(from) && i < 3 * limit
    ensures |Burst(credential, server, limit, from)| == 3 * limit
    ensures var a := Burst(credential, server, limit, from)[i];
            && a.PerMinute? && Concerns(a, credential, server) && a.limit == limit && Prompt(a)
            && from <= a.runAt < from + MINUTE
            && a.runAt == if i < 2 * limit then from else (from / MINUTE + 1) * MINUTE
  {
    var q, r := from / MINUTE, from % MINUTE;
    assert from == q * MINUTE + r;
  }

  lemma BurstKeys(credential: string, server: string, limit: nat, from: nat, key: CounterKey)
    requires !Aligned(from)
    ensures Count(Mine(Burst(credential, server, limit, from), key)) <= limit
  {
    var q, r := from / MINUTE, from % MINUTE;
    assert from == q * MINUTE + r;
    assert (q * MINUTE - 1) / MINUTE == q - 1 && ((q + 1) * MINUTE) / MINUTE == q + 1;
    ThreeCopiesCount(PerMinute(credential, server, limit, q * MINUTE - 1, from),
                     PerMinute(credential, server, limit, from, from),
                     PerMinute(credential, server, limit, (q + 1) * MINUTE, (q + 1) * MINUTE), limit, key);
  }

  /** In every other window a lawful run, its scripts in order, gets three times the limit admitted. */
  lemma BurstThrice(credential: string, server: string, limit: nat, from: nat)
    requires !Aligned(from)
    ensures var run := Burst(credential, server, limit, from);
            Lawful(run, credential, server, limit) && Ordered(run)
            && AdmittedWithin(run, credential, server, from) == 3 * limit
  {
    var run := Burst(credential, server, limit, from);
    assert |run| == 3 * limit;
    forall i | 0 <= i < |run|
      ensures Prompt(run[i]) && Concerns(run[i], credential, server) && run[i].limit == limit
      ensures from <= run[i].runAt < from + MINUTE
      ensures run[i].runAt == if i < 2 * limit then from else (from / MINUTE + 1) * MINUTE
    {
      BurstParts(credential, server, limit, from, i);
    }
    forall key ensures Count(Mine(run, key)) <= limit { BurstKeys(credential, server, limit, from, key); }
    FewAllAdmitted(run, limit);
    CountSame(Both(RunWithin(run, credential, server, from), Admitted(run)), true);
  }

  /** Twice the limit is never exceeded by lawful runs. */
  ghost predicate TwiceHolds(credential: string, server: string, limit: nat, from: nat) {
    forall attempts :: Lawful(attempts, credential, server, limit) && Ordered(attempts) ==>
      AdmittedWithin(attempts, credential, server, from) <= 2 * limit
  }

  /** The exact condition, for every limit: the aligned windows and no others are limited to twice the limit. */
  lemma TwiceIffAligned(credential: string, server: string, limit: nat, from: nat)
    requires limit >= 1
    ensures TwiceHolds(credential, server, limit, from) <==> Aligned(from)
  {
    if Aligned(from) {
      forall attempts | Lawful(attempts, credential, server, limit) && Ordered(attempts)
        ensures AdmittedWithin(attempts, credential, server, from) <= 2 * limit
      {
        AlignedTwice(attempts, credential, server, limit, from);
      }
    } else {
      BurstThrice(credential, server, limit, from);
    }
  }

  /** A run at the limit 1 with three admissions in the 60 seconds from second 64 on: the first script runs
      4 seconds after its reading. */
  lemma ThreeInAMinute()
    ensures var run := [PerMinute("c", "s", 1, 59_999, 64_000), PerMinute("c", "s", 1, 64_000, 64_000),
                        PerMinute("c", "s", 1, 120_000, 120_000)];
            Lawful(run, "c", "s", 1) && AdmittedWithin(run, "c", "s", 64_000) == 3
  {
    BurstThrice("c", "s", 1, 64_000);
    assert Burst("c", "s", 1, 64_000) == [PerMinute("c", "s", 1, 59_999, 64_000), PerMinute("c", "s", 1, 64_000, 64_000),
                                          PerMinute("c", "s", 1, 120_000, 120_000)];
  }
}
