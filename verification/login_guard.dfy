/** The sign-in limiter: how long failures lock an address and a username out together. */
module LoginGuard {
  import opened Rounding

  const MINUTE := 60_000_000_000
  const FREE_FAILURES := 5
  const FIRST_LOCK := MINUTE
  const MAX_LOCK := 15 * MINUTE
  const FORGET_AFTER := 15 * MINUTE
  const SWEEP_ABOVE := 1024
  const MAX_USERNAME := 64

  /** An address and a username, both in bytes. */
  datatype Key = Key(addr: string, username: string)

  /** Times in nanoseconds; `lockedTill` None while the pair has not been locked. */
  datatype Count = Count(failures: nat, lastFailed: int, lockedTill: Option<int>)

  type Table = map<Key, Count>

  function KeyOf(addr: string, username: string): Key {
    Key(addr, if |username| > MAX_USERNAME then username[..MAX_USERNAME] else username)
  }

  predicate LockedAt(c: Count, now: int) { c.lockedTill.Some? && c.lockedTill.value > now }

  function QuietSince(c: Count): int {
    if LockedAt(c, c.lastFailed) then c.lockedTill.value else c.lastFailed
  }

  /** Quiet long enough, since the last failure and since the lock ended, to start over. */
  predicate Forgotten(c: Count, now: int) { now - QuietSince(c) >= FORGET_AFTER }

  function WaitOf(table: Table, key: Key, now: int): int {
    if key in table && LockedAt(table[key], now) then table[key].lockedTill.value - now else 0
  }

  /** How long the so-manieth failure past the free ones locks the pair: 1, 2, 4, 8, then 15 minutes. */
  function LockFor(over: nat): int {
    if over < 4 then FIRST_LOCK * [1, 2, 4, 8][over] else MAX_LOCK
  }

  function Failure(c: Count, now: int): Count {
    var failures := c.failures + 1;
    Count(failures, now,
          if failures >= FREE_FAILURES then Some(now + LockFor(failures - FREE_FAILURES)) else c.lockedTill)
  }

  function Start(table: Table, key: Key, now: int): Count {
    if key !in table || Forgotten(table[key], now) then Count(0, now, None) else table[key]
  }

  /** A failure counted, nothing swept. */
  function Counted(table: Table, key: Key, now: int): Table {
    table[key := Failure(Start(table, key, now), now)]
  }

  function Swept(table: Table, now: int): Table {
    map key | key in table && !Forgotten(table[key], now) :: table[key]
  }

  function Failed(table: Table, key: Key, now: int): Table {
    var counted := Counted(table, key, now);
    if |counted| > SWEEP_ABOVE then Swept(counted, now) else counted
  }

  function Succeeded(table: Table, key: Key): Table { table - {key} }

  class Guard {
    var pairs: Table

    constructor ()
      ensures pairs == map[]
    {
      pairs := map[];
    }

    method Wait(addr: string, username: string, now: int) returns (wait: int)
      ensures wait == WaitOf(pairs, KeyOf(addr, username), now)
    {
      var key := KeyOf(addr, username);
      if key in pairs && LockedAt(pairs[key], now) {
        return pairs[key].lockedTill.value - now;
      }
      return 0;
    }

    method Fail(addr: string, username: string, now: int)
      modifies this
      ensures pairs == Failed(old(pairs), KeyOf(addr, username), now)
    {
      var key := KeyOf(addr, username);
      if key !in pairs || Forgotten(pairs[key], now) {
        pairs := pairs[key := Count(0, now, None)];
      }
      var c := pairs[key];
      c := c.(failures := c.failures + 1);
      c := c.(lastFailed := now);
      var over := c.failures - FREE_FAILURES;
      if over >= 0 {
        c := c.(lockedTill := Some(now + LockFor(over)));
      }
      pairs := pairs[key := c];
      assert pairs == Counted(old(pairs), key, now);
      if |pairs| > SWEEP_ABOVE {
        Sweep(now);
      }
    }

    method Sweep(now: int)
      modifies this
      ensures pairs == Swept(old(pairs), now)
    {
      var left := pairs.Keys;
      while left != {}
        invariant left <= old(pairs).Keys
        invariant forall key :: key in pairs <==> key in old(pairs) && (key in left || !Forgotten(old(pairs)[key], now))
        invariant forall key :: key in pairs ==> pairs[key] == old(pairs)[key]
        decreases |left|
      {
        var key :| key in left;
        left := left - {key};
        if Forgotten(pairs[key], now) {
          pairs := pairs - {key};
        }
      }
    }

    method Succeed(addr: string, username: string)
      modifies this
      ensures pairs == Succeeded(old(pairs), KeyOf(addr, username))
    {
      pairs := pairs - {KeyOf(addr, username)};
    }
  }

  // ---- Runs ----

  datatype Event = Asked(key: Key, at: int) | Refused(key: Key, at: int) | LetIn(key: Key, at: int)

  ghost predicate InOrder(events: seq<Event>) {
    forall i, j :: 0 <= i < j < |events| ==> events[i].at <= events[j].at
  }

  function Step(table: Table, e: Event, sweeps: bool): Table {
    match e
    case Asked(_, _) => table
    case Refused(key, at) => if sweeps then Failed(table, key, at) else Counted(table, key, at)
    case LetIn(key, _) => Succeeded(table, key)
  }

  function After(table: Table, events: seq<Event>, sweeps: bool): Table {
    if events == [] then table else Step(After(table, events[..|events| - 1], sweeps), events[|events| - 1], sweeps)
  }

  /** One table has of another all but what is forgotten. */
  ghost predicate Covers(swept: Table, all: Table, now: int) {
    && (forall key :: key in swept ==> key in all && swept[key] == all[key])
    && (forall key :: key in all && key !in swept ==> Forgotten(all[key], now))
  }

  lemma StillForgotten(c: Count, now: int, later: int)
    requires Forgotten(c, now) && now <= later
    ensures Forgotten(c, later) && !LockedAt(c, later)
  {
  }

  lemma CoversLater(swept: Table, all: Table, now: int, later: int)
    requires Covers(swept, all, now) && now <= later
    ensures Covers(swept, all, later)
    ensures forall key :: WaitOf(swept, key, later) == WaitOf(all, key, later)
  {
    forall key | key in all && key !in swept ensures Forgotten(all[key], later) && !LockedAt(all[key], later) {
      StillForgotten(all[key], now, later);
    }
  }

  lemma StepCovers(swept: Table, all: Table, e: Event)
    requires Covers(swept, all, e.at)
    ensures Covers(Step(swept, e, true), Step(all, e, false), e.at)
  {
    hide Forgotten;
    if e.Refused? {
      assert Start(swept, e.key, e.at) == Start(all, e.key, e.at);
      assert Covers(Counted(swept, e.key, e.at), Counted(all, e.key, e.at), e.at);
    }
  }

  lemma {:induction false} RunCovers(events: seq<Event>)
    requires InOrder(events)
    ensures var swept, all := After(map[], events, true), After(map[], events, false);
            events != [] ==> Covers(swept, all, events[|events| - 1].at)
    decreases |events|
  {
    hide Covers, Step;
    if events != [] {
      var before, e := events[..|events| - 1], events[|events| - 1];
      RunCovers(before);
      var swept, all := After(map[], before, true), After(map[], before, false);
      if before != [] {
        CoversLater(swept, all, before[|before| - 1].at, e.at);
      } else {
        NothingCovers(e.at);
      }
      StepCovers(swept, all, e);
    }
  }

  lemma NothingCovers(now: int)
    ensures Covers(map[], map[], now)
  {
  }

  /** The sweep cannot be told: at any time from the last event on, whatever the events were, every
      pair is told to wait exactly as long as a guard that never sweeps would tell it. */
  lemma SweepIsUnobservable(events: seq<Event>, key: Key, now: int)
    requires InOrder(events) && (events != [] ==> events[|events| - 1].at <= now)
    ensures WaitOf(After(map[], events, true), key, now) == WaitOf(After(map[], events, false), key, now)
  {
    hide WaitOf, Covers;
    if events != [] {
      RunCovers(events);
      CoversLater(After(map[], events, true), After(map[], events, false), events[|events| - 1].at, now);
    }
  }

  // ---- Nine failures ----

  /** How many of the events are failures of the pair. */
  function FailuresOf(events: seq<Event>, key: Key): nat {
    if events == [] then 0
    else
      FailuresOf(events[..|events| - 1], key)
      + (if events[|events| - 1] == Refused(key, events[|events| - 1].at) then 1 else 0)
  }

  /** Each of the pair's failures was let be tried: made with nothing left to wait. */
  ghost predicate TriedAtNoWait(table: Table, events: seq<Event>, key: Key) {
    forall i :: 0 <= i < |events| && events[i].Refused? && events[i].key == key ==>
                  WaitOf(After(table, events[..i], true), key, events[i].at) == 0
  }

  ghost predicate NeverLetIn(events: seq<Event>, key: Key) {
    forall i :: 0 <= i < |events| && events[i].LetIn? ==> events[i].key != key
  }

  /** The locks the first so many failures put one after another. */
  function LocksOf(n: nat): int {
    if n < FREE_FAILURES then 0 else LocksOf(n - 1) + LockFor(n - FREE_FAILURES)
  }

  /** With so many failures since a time, either fifteen minutes have passed, or the pair is counted
      with at least as many, and locked for all their locks since that time. */
  ghost predicate Held(table: Table, key: Key, since: int, now: int, n: nat) {
    || now - since >= FORGET_AFTER
    || (&& key in table && table[key].failures >= n && table[key].lastFailed >= since
        && (n >= FREE_FAILURES ==> table[key].lockedTill.Some? && table[key].lockedTill.value >= since + LocksOf(n)))
  }

  lemma LocksGrow(n: nat, failures: nat)
    requires n <= failures
    ensures LockFor(n) <= LockFor(failures)
  {
  }

  lemma CountedHolds(table: Table, key: Key, since: int, now: int, n: nat)
    requires since <= now && WaitOf(table, key, now) == 0
    requires (n == 0 && since == now) || Held(table, key, since, now, n)
    ensures Held(Counted(table, key, now), key, since, now, n + 1)
    ensures n >= FREE_FAILURES ==> now - since >= Min(LocksOf(n), FORGET_AFTER)
  {
    if now - since < FORGET_AFTER {
      var c := Start(table, key, now);
      assert c.failures >= n;
      if n + 1 >= FREE_FAILURES {
        LocksGrow(n + 1 - FREE_FAILURES, c.failures + 1 - FREE_FAILURES);
      }
    }
  }

  lemma HeldLater(table: Table, key: Key, since: int, now: int, later: int, n: nat)
    requires Held(table, key, since, now, n) && now <= later
    ensures Held(table, key, since, later, n)
  {
  }

  lemma SweptHolds(table: Table, key: Key, since: int, now: int, n: nat)
    requires Held(table, key, since, now, n)
    ensures Held(Swept(table, now), key, since, now, n)
  {
  }

  lemma StepHolds(table: Table, e: Event, key: Key, since: int, n: nat)
    requires since <= e.at && ((n == 0 && e == Refused(key, since)) || Held(table, key, since, e.at, n))
    requires e.Refused? && e.key == key ==> WaitOf(table, key, e.at) == 0
    requires e.LetIn? ==> e.key != key
    ensures Held(Step(table, e, true), key, since, e.at, n + if e.Refused? && e.key == key then 1 else 0)
  {
    hide WaitOf, Counted, Swept;
    if e.Refused? {
      var counted := Counted(table, e.key, e.at);
      if e.key == key {
        CountedHolds(table, key, since, e.at, n);
        SweptHolds(counted, key, since, e.at, n + 1);
      } else {
        OthersAreKept(table, e.key, key, e.at);
        SweptHolds(counted, key, since, e.at, n);
      }
    }
  }

  lemma OthersAreKept(table: Table, failed: Key, key: Key, now: int)
    requires failed != key
    ensures key in table <==> key in Counted(table, failed, now)
    ensures key in table ==> Counted(table, failed, now)[key] == table[key]
  {
  }

  lemma {:induction false} RunHolds(table: Table, events: seq<Event>, key: Key)
    requires events != [] && InOrder(events) && TriedAtNoWait(table, events, key) && NeverLetIn(events, key)
    requires events[0].Refused? && events[0].key == key
    ensures Held(After(table, events, true), key, events[0].at, events[|events| - 1].at, FailuresOf(events, key))
    decreases |events|
  {
    hide Held, Step, WaitOf;
    var last := |events| - 1;
    var before, e, since := events[..last], events[last], events[0].at;
    var n := FailuresOf(before, key);
    if before != [] {
      TriedBefore(table, events, key);
      RunHolds(table, before, key);
      HeldLater(After(table, before, true), key, since, before[last - 1].at, e.at, n);
    }
    StepHolds(After(table, before, true), e, key, since, n);
  }

  lemma TriedBefore(table: Table, events: seq<Event>, key: Key)
    requires events != [] && TriedAtNoWait(table, events, key)
    ensures TriedAtNoWait(table, events[..|events| - 1], key)
  {
    hide WaitOf, After;
    var before := events[..|events| - 1];
    forall i | 0 <= i < |before| && before[i].Refused? && before[i].key == key
      ensures WaitOf(After(table, before[..i], true), key, before[i].at) == 0
    {
      assert before[..i] == events[..i];
    }
  }

  lemma {:induction false} LocksAddUp(n: nat)
    requires n >= 8
    ensures LocksOf(n) >= FORGET_AFTER
    decreases n
  {
    if n == 8 {
      assert LocksOf(5) == MINUTE && LocksOf(6) == 3 * MINUTE && LocksOf(7) == 7 * MINUTE;
    } else {
      LocksAddUp(n - 1);
    }
  }

  /** From any table and among any other pairs' events: nine failures of a pair, each tried with
      nothing left to wait and no success among them, take at least fifteen minutes. */
  lemma NineFailuresTakeFifteenMinutes(table: Table, events: seq<Event>, key: Key)
    requires InOrder(events) && TriedAtNoWait(table, events, key) && NeverLetIn(events, key)
    requires FailuresOf(events, key) >= 9
    requires events[0].Refused? && events[0].key == key
    requires events[|events| - 1].Refused? && events[|events| - 1].key == key
    ensures events[|events| - 1].at - events[0].at >= 15 * MINUTE
  {
    hide Held, WaitOf, Counted, LocksOf, After;
    var last := |events| - 1;
    var before := events[..last];
    var n := FailuresOf(before, key);
    TriedBefore(table, events, key);
    RunHolds(table, before, key);
    HeldLater(After(table, before, true), key, events[0].at, before[last - 1].at, events[last].at, n);
    CountedHolds(After(table, before, true), key, events[0].at, events[last].at, n);
    LocksAddUp(n);
  }
}
