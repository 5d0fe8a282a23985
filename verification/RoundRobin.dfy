/** Spreading new sessions over an app's machines. */
module RoundRobin {
  import opened Json
  import opened Affinity

  const WORD := 0x1_0000_0000_0000_0000

  type Cursors = map<string, nat>

  function Cursor(c: Cursors, app: string): nat {
    if app in c then c[app] else 0
  }

  function Advance(c: Cursors, app: string): Cursors {
    c[app := (Cursor(c, app) + 1) % WORD]
  }

  /** Running machines if there are any, else all. */
  function Started(machines: seq<Machine>): seq<Machine> {
    if machines == [] then []
    else (if machines[0].state == "started" then [machines[0]] else []) + Started(machines[1..])
  }

  function Pool(machines: seq<Machine>): seq<Machine> {
    if Started(machines) == [] then machines else Started(machines)
  }

  class Picker {
    var cursors: Cursors

    method NextRr(app: string, len: nat) returns (idx: nat)
      modifies this
      ensures len == 0 ==> idx == 0 && cursors == old(cursors)
      ensures len > 0 ==> idx == Cursor(old(cursors), app) % len && cursors == Advance(old(cursors), app)
    {
      if len == 0 {
        return 0;
      }
      if app !in cursors { cursors := cursors[app := 0]; }
      var cur := cursors[app];
      idx := cur % len;
      cursors := cursors[app := (cur + 1) % WORD];
    }

    method PickMachine(app: string, machines: seq<Machine>) returns (id: Option<string>)
      modifies this
      ensures machines == [] ==> id.None? && cursors == old(cursors)
      ensures machines != [] ==>
        && Pool(machines) != []
        && id == Some(Pool(machines)[Cursor(old(cursors), app) % |Pool(machines)|].id)
        && cursors == Advance(old(cursors), app)
    {
      if machines == [] {
        return None;
      }
      var pool := Pool(machines);
      var idx := NextRr(app, |pool|);
      id := Some(pool[idx].id);
    }

    /** Where to send a request, given what its session lookup found and the machine list read. */
    method Decide(url: string, session: Option<string>, isInitialize: bool, found: Option<string>,
                  machines: seq<Machine>) returns (d: Decision, dropBinding: bool)
      modifies this
      ensures session.Some? ==> d == FollowUp(AppName(url), found, machines) && cursors == old(cursors)
      ensures dropBinding <==> session.Some? && AppName(url).Some? && found.Some? && !Listed(machines, found.value)
      ensures session.None? ==>
        if isInitialize && AppName(url).Some? && machines != [] then
          && Pool(machines) != []
          && var m := Pool(machines)[Cursor(old(cursors), AppName(url).value) % |Pool(machines)|].id;
             d == Decision(Some(m), Some(m), AppName(url)) && cursors == Advance(old(cursors), AppName(url).value)
        else d == NO_AFFINITY && cursors == old(cursors)
    {
      d, dropBinding := NO_AFFINITY, false;
      var app := AppName(url);
      if session.Some? {
        if app.Some? && found.Some? {
          if exists m :: m in machines && m.id == found.value {
            d := Decision(found, None, app);
          } else {
            dropBinding := true;
          }
        }
      } else if isInitialize && app.Some? {
        var machine := PickMachine(app.value, machines);
        if machine.Some? { d := Decision(machine, machine, app); }
      }
    }
  }

  lemma {:induction false} StartedOnly(machines: seq<Machine>, m: Machine)
    ensures m in Started(machines) <==> m in machines && m.state == "started"
  {
    if machines != [] {
      StartedOnly(machines[1..], m);
      assert machines == [machines[0]] + machines[1..];
    }
  }

  /** Only started machines are candidates when any is started, and then all of them are. */
  lemma PoolPrefersStarted(machines: seq<Machine>, m: Machine)
    ensures (exists s :: s in machines && s.state == "started") ==>
      (m in Pool(machines) <==> m in machines && m.state == "started")
    ensures (forall s :: s in machines ==> s.state != "started") ==> Pool(machines) == machines
  {
    StartedOnly(machines, m);
    if s :| s in machines && s.state == "started" { StartedOnly(machines, s); }
    if Started(machines) != [] {
      StartedOnly(machines, Started(machines)[0]);
    }
  }

  // ----- Fairness -----

  /** A pick for an app whose pool has `len > 0` machines. */
  datatype Pick = Pick(app: string, len: nat)

  function After(start: Cursors, picks: seq<Pick>): Cursors {
    if picks == [] then start else Advance(After(start, picks[..|picks| - 1]), picks[|picks| - 1].app)
  }

  /** The pool positions chosen for `app`, in order. */
  function Chosen(start: Cursors, picks: seq<Pick>, app: string): seq<nat>
    requires forall i :: 0 <= i < |picks| ==> picks[i].len > 0
  {
    if picks == [] then []
    else
      var n := |picks| - 1;
      Chosen(start, picks[..n], app) +
      if picks[n].app == app then [Residue(Cursor(After(start, picks[..n]), app), picks[n].len)] else []
  }

  ghost predicate FixedPool(picks: seq<Pick>, app: string, len: nat) {
    && len > 0
    && (forall i :: 0 <= i < |picks| ==> picks[i].len > 0)
    && (forall i :: 0 <= i < |picks| && picks[i].app == app ==> picks[i].len == len)
  }

  lemma CursorStep(c: Cursors, pick: Pick, app: string)
    ensures Cursor(Advance(c, pick.app), app) ==
      if pick.app != app then Cursor(c, app) else if Cursor(c, app) + 1 < WORD then Cursor(c, app) + 1 else (Cursor(c, app) + 1) % WORD
  {
  }

  /** The k-th pick for an app counts on from where its own cursor stood, whatever other apps do. */
  lemma {:induction false} ChosenCycles(start: Cursors, picks: seq<Pick>, app: string, len: nat)
    requires FixedPool(picks, app, len)
    requires Cursor(start, app) + |Chosen(start, picks, app)| <= WORD
    ensures var c := Cursor(start, app) + |Chosen(start, picks, app)|;
            c < WORD ==> Cursor(After(start, picks), app) == c
    ensures forall k :: 0 <= k < |Chosen(start, picks, app)| ==>
      Chosen(start, picks, app)[k] == Residue(Cursor(start, app) + k, len)
  {
    if picks != [] {
      var n := |picks| - 1;
      ChosenCycles(start, picks[..n], app, len);
      CursorStep(After(start, picks[..n]), picks[n], app);
    }
  }

  function Residue(a: nat, n: nat): nat
    requires n > 0
  {
    a % n
  }

  lemma ModUnique(a: nat, q: int, r: nat, n: nat)
    requires 0 < n && r < n && a == q * n + r
    ensures Residue(a, n) == r
  {
    var q', r' := a / n, a % n;
    assert a == q' * n + r';
    assert (q - q') * n == r' - r;
    SmallMultiple(q - q', n);
  }

  lemma SmallMultiple(q: int, n: nat)
    requires n > 0 && 0 - n < q * n < n
    ensures q == 0
  {
    assert q >= 1 ==> q * n >= n;
    assert q <= -1 ==> q * n <= 0 - n;
  }

  /** Among `n` consecutive numbers one has residue `j`. */
  lemma ResidueHit(a: nat, n: nat, j: nat) returns (i: nat)
    requires j < n
    ensures i < n && Residue(a + i, n) == j
  {
    var q, r := a / n, a % n;
    assert a == q * n + r;
    if j >= r {
      i := j - r;
      ModUnique(a + i, q, j, n);
    } else {
      i := j + n - r;
      assert a + i == (q + 1) * n + j;
      ModUnique(a + i, q + 1, j, n);
    }
  }

  /** Fewer than `n` apart, two numbers differ in residue. */
  lemma ResidueApart(a: nat, b: nat, n: nat)
    requires 0 < n && a < b < a + n
    ensures Residue(a, n) != Residue(b, n)
  {
    var q, q' := a / n, b / n;
    assert a == q * n + a % n && b == q' * n + b % n;
    if a % n == b % n {
      assert (q' - q) * n == b - a;
      SmallMultiple(q' - q, n);
    }
  }

  /** Fairness: any `len` consecutive picks for an app with a fixed pool visit every machine exactly
      once, however picks for other apps are interleaved, until the cursor wraps. */
  lemma VisitsEachOnce(start: Cursors, picks: seq<Pick>, app: string, len: nat, from: nat, j: nat)
    requires FixedPool(picks, app, len) && j < len
    requires Cursor(start, app) + |Chosen(start, picks, app)| <= WORD
    requires from + len <= |Chosen(start, picks, app)|
    ensures exists i :: from <= i < from + len && Chosen(start, picks, app)[i] == j
    ensures forall i, k :: from <= i < k < from + len ==> Chosen(start, picks, app)[i] != Chosen(start, picks, app)[k]
  {
    ChosenCycles(start, picks, app, len);
    CycleVisits(Chosen(start, picks, app), Cursor(start, app), len, from, j);
  }

  lemma CycleVisits(chosen: seq<nat>, c: nat, len: nat, from: nat, j: nat)
    requires j < len && from + len <= |chosen|
    requires forall k :: 0 <= k < |chosen| ==> chosen[k] == Residue(c + k, len)
    ensures exists i :: from <= i < from + len && chosen[i] == j
    ensures forall i, k :: from <= i < k < from + len ==> chosen[i] != chosen[k]
  {
    var i := ResidueHit(c + from, len, j);
    assert chosen[from + i] == j;
    forall i, k | from <= i < k < from + len ensures chosen[i] != chosen[k] {
      ResidueApart(c + i, c + k, len);
    }
  }
}
