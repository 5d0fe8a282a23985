/** The string keys under which the shared store keeps its counters. */
module CounterKeys {
  import opened Calendar
  import opened RedisLimits

  // ----- Decimal numbers -----

  function Digit(n: nat): char
    requires n < 10
  {
    ('0' as int + n) as char
  }

  function Decimal(n: nat): (s: string)
    ensures s != ""
  {
    if n < 10 then [Digit(n)] else Decimal(n / 10) + [Digit(n % 10)]
  }

  function Zeros(n: nat): (s: string)
    ensures |s| == n && forall i :: 0 <= i < n ==> s[i] == '0'
  {
    seq(n, _ => '0')
  }

  /** At least `width` digits, with zeros in front. */
  function Padded(n: nat, width: nat): string {
    var s := Decimal(n);
    if |s| < width then Zeros(width - |s|) + s else s
  }

  /** The number a row of digits stands for. */
  function Number(s: string): int {
    if s == "" then 0 else Number(s[..|s| - 1]) * 10 + (s[|s| - 1] as int - '0' as int)
  }

  predicate Digits(s: string) {
    forall i :: 0 <= i < |s| ==> '0' <= s[i] <= '9'
  }

  lemma {:induction false} DecimalReads(n: nat)
    ensures Number(Decimal(n)) == n && Digits(Decimal(n))
  {
    if n >= 10 {
      DecimalReads(n / 10);
      assert Decimal(n)[..|Decimal(n)| - 1] == Decimal(n / 10);
    } else {
      assert Number("") == 0 && [Digit(n)][..0] == "";
    }
  }

  lemma {:induction false} ZerosInFront(k: nat, s: string)
    ensures Number(Zeros(k) + s) == Number(s)
    decreases |s| + k
  {
    var t := Zeros(k) + s;
    if s != "" {
      assert t[..|t| - 1] == Zeros(k) + s[..|s| - 1];
      ZerosInFront(k, s[..|s| - 1]);
    } else if k > 0 {
      assert t[..|t| - 1] == Zeros(k - 1) + "";
      ZerosInFront(k - 1, "");
    }
  }

  lemma PaddedReads(n: nat, width: nat)
    ensures Number(Padded(n, width)) == n && Digits(Padded(n, width))
  {
    DecimalReads(n);
    var s := Decimal(n);
    if |s| < width { ZerosInFront(width - |s|, s); }
  }

  // ----- The keys -----

  function KeyText(key: CounterKey): string
    requires Printable(key)
  {
    match key
    case Minute(credential, server, bucket) => "rate_limit:" + (credential + [':'] + (server + [':'] + Decimal(bucket)))
    case Month(workspace, year, month) =>
      "monthly_requests:" + (workspace + [':'] + (Padded(year, 4) + ['-'] + Padded(month, 2)))
  }

  /** Ids are UUIDs, which contain no colon, and numbers are not negative. */
  predicate Printable(key: CounterKey) {
    match key
    case Minute(credential, server, bucket) => ':' !in credential && ':' !in server && bucket >= 0
    case Month(workspace, year, month) => ':' !in workspace && year >= 0 && month >= 0
  }

  lemma SplitAt(a: string, s: string, a': string, s': string, c: char)
    requires c !in a && c !in a' && a + [c] + s == a' + [c] + s'
    ensures a == a' && s == s'
  {
    var t, t' := a + [c] + s, a' + [c] + s';
    assert t[|a|] == c && t'[|a'|] == c;
    assert forall i :: 0 <= i < |a| ==> t[i] == a[i];
    assert forall i :: 0 <= i < |a'| ==> t'[i] == a'[i];
    assert a == t[..|a|] && a' == t'[..|a'|];
    assert s == t[|a| + 1..] && s' == t'[|a'| + 1..];
  }

  lemma Behind(p: string, s: string, s': string)
    requires p + s == p + s'
    ensures s == s'
  {
    assert (p + s)[|p|..] == s && (p + s')[|p|..] == s';
  }

  lemma MinutesApart(c: string, s: string, b: nat, c': string, s': string, b': nat)
    requires Printable(Minute(c, s, b)) && Printable(Minute(c', s', b'))
    requires KeyText(Minute(c, s, b)) == KeyText(Minute(c', s', b'))
    ensures c == c' && s == s' && b == b'
  {
    var r, r' := s + [':'] + Decimal(b), s' + [':'] + Decimal(b');
    Behind("rate_limit:", c + [':'] + r, c' + [':'] + r');
    SplitAt(c, r, c', r', ':');
    SplitAt(s, Decimal(b), s', Decimal(b'), ':');
    DecimalReads(b);
    DecimalReads(b');
  }

  lemma MonthsApart(w: string, y: nat, m: nat, w': string, y': nat, m': nat)
    requires Printable(Month(w, y, m)) && Printable(Month(w', y', m'))
    requires KeyText(Month(w, y, m)) == KeyText(Month(w', y', m'))
    ensures w == w' && y == y' && m == m'
  {
    var r, r' := Padded(y, 4) + ['-'] + Padded(m, 2), Padded(y', 4) + ['-'] + Padded(m', 2);
    Behind("monthly_requests:", w + [':'] + r, w' + [':'] + r');
    SplitAt(w, r, w', r', ':');
    PaddedReads(y, 4);
    PaddedReads(y', 4);
    SplitAt(Padded(y, 4), Padded(m, 2), Padded(y', 4), Padded(m', 2), '-');
    PaddedReads(m, 2);
    PaddedReads(m', 2);
  }

  /** Different counters have different string keys. */
  lemma KeyTextInjective(k: CounterKey, k': CounterKey)
    requires Printable(k) && Printable(k') && KeyText(k) == KeyText(k')
    ensures k == k'
  {
    assert k.Minute? ==> KeyText(k)[0] == 'r';
    assert k.Month? ==> KeyText(k)[0] == 'm';
    assert k'.Minute? ==> KeyText(k')[0] == 'r';
    assert k'.Month? ==> KeyText(k')[0] == 'm';
    if k.Minute? {
      MinutesApart(k.credential, k.server, k.bucket, k'.credential, k'.server, k'.bucket);
    } else {
      MonthsApart(k.workspace, k.year, k.month, k'.workspace, k'.year, k'.month);
    }
  }

  predicate PlainIds(a: Attempt) {
    match a
    case PerMinute(credential, server, _, _, _) => ':' !in credential && ':' !in server
    case PerMonth(workspace, _, _, _, _) => ':' !in workspace
  }

  lemma AfterTheEpoch(d: Date, n: nat)
    requires Names(d, n)
    ensures d.year >= 1970
  {
  }

  lemma PromptPrints(a: Attempt)
    requires Prompt(a) && PlainIds(a)
    ensures Printable(KeyOf(a))
  {
    if a.PerMonth? { AfterTheEpoch(a.date, a.readAt / DAY_MS); }
  }

  /** The store under string keys is the store under structured ones: two checks use the same string key
      exactly when they share a counter. */
  lemma SharesKeyIff(a: Attempt, b: Attempt)
    requires Prompt(a) && PlainIds(a) && Prompt(b) && PlainIds(b)
    ensures Printable(KeyOf(a)) && Printable(KeyOf(b))
    ensures KeyText(KeyOf(a)) == KeyText(KeyOf(b)) <==> KeyOf(a) == KeyOf(b)
  {
    PromptPrints(a);
    PromptPrints(b);
    if KeyText(KeyOf(a)) == KeyText(KeyOf(b)) { KeyTextInjective(KeyOf(a), KeyOf(b)); }
  }
}
