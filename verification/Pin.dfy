/** The attempt limiter of the transaction PIN. */
module Pin {
  import opened Sums

  const MAX_ATTEMPTS := 5
  const LOCKOUT_MS := 15 * 60 * 1000

  /** The counter kept for a user. */
  datatype Attempts = Attempts(count: nat, lockedUntil: Option<int>)

  /** One call: the clock at its start, at the hash comparison and at its end, and what it would find. */
  datatype Call = Call(start: int, compared: int, end: int, wellFormed: bool, pinSet: bool, matches: bool)

  datatype Outcome = Malformed | Locked | NotSet | Wrong | Granted

  datatype Event = Verify(call: Call) | SetPin(at: int)

  function Counter(a: Option<Attempts>): Attempts {
    if a.Some? then a.value else Attempts(0, None)
  }

  predicate LockedAt(a: Option<Attempts>, now: int) {
    var lock := Counter(a).lockedUntil;
    lock.Some? && lock.value > now
  }

  function OutcomeOf(a: Option<Attempts>, c: Call): Outcome {
    if !c.wellFormed then Malformed
    else if LockedAt(a, c.start) then Locked
    else if !c.pinSet then NotSet
    else if c.matches then Granted
    else Wrong
  }

  function CountFailure(a: Attempts, now: int): Attempts {
    if a.count + 1 >= MAX_ATTEMPTS then Attempts(0, Some(now + LOCKOUT_MS)) else a.(count := a.count + 1)
  }

  function After(a: Option<Attempts>, e: Event): Option<Attempts> {
    match e
    case SetPin(_) => None
    case Verify(c) =>
      match OutcomeOf(a, c)
      case Granted => None
      case Wrong => Some(CountFailure(Counter(a), c.end))
      case _ => a
  }

  /** The counter after a history. */
  function State(a: Option<Attempts>, events: seq<Event>): Option<Attempts> {
    if events == [] then a else After(State(a, events[..|events| - 1]), events[|events| - 1])
  }

  predicate Fails(a: Option<Attempts>, e: Event) {
    e.Verify? && OutcomeOf(a, e.call) == Wrong
  }

  predicate Clears(a: Option<Attempts>, e: Event) {
    e.SetPin? || OutcomeOf(a, e.call) == Granted
  }

  /** When the failed comparisons of a history happened. */
  function Failures(a: Option<Attempts>, events: seq<Event>): seq<int> {
    if events == [] then []
    else
      var n := |events| - 1;
      var rest := Failures(a, events[..n]);
      if Fails(State(a, events[..n]), events[n]) then rest + [events[n].call.compared] else rest
  }

  // ----- the service -----

  class PinService {
    var attempts: map<string, Attempts>

    ghost function For(user: string): Option<Attempts>
      reads this
    {
      if user in attempts then Some(attempts[user]) else None
    }

    method VerifyPin(user: string, c: Call) returns (outcome: Outcome)
      modifies this
      ensures outcome == OutcomeOf(old(For(user)), c)
      ensures var locked := old(For(user)).Some? && old(For(user)).value.lockedUntil.Some?
                            && c.start < old(For(user)).value.lockedUntil.value;
              && (outcome == Granted <==> c.wellFormed && !locked && c.pinSet && c.matches)
              && (outcome == Wrong <==> c.wellFormed && !locked && c.pinSet && !c.matches)
              && (outcome == Locked <==> c.wellFormed && locked)
      ensures For(user) == After(old(For(user)), Verify(c))
      ensures outcome == Granted ==> For(user) == None
      ensures outcome != Granted && outcome != Wrong ==> For(user) == old(For(user))
      ensures forall u :: u != user ==> For(u) == old(For(u))
    {
      if !c.wellFormed {
        return Malformed;
      }
      var mine := if user in attempts then attempts[user] else Attempts(0, None);
      if mine.lockedUntil.Some? && mine.lockedUntil.value > c.start {
        return Locked;
      }
      if !c.pinSet {
        return NotSet;
      }
      if !c.matches {
        mine := mine.(count := mine.count + 1);
        if mine.count >= MAX_ATTEMPTS {
          mine := mine.(lockedUntil := Some(c.end + LOCKOUT_MS));
          mine := mine.(count := 0);
        }
        attempts := attempts[user := mine];
        return Wrong;
      }
      attempts := attempts - {user};
      return Granted;
    }

    method Reset(user: string, at: int)
      modifies this
      ensures For(user) == After(old(For(user)), SetPin(at))
      ensures forall u :: u != user ==> For(u) == old(For(u))
    {
      attempts := attempts - {user};
    }
  }

  // ----- histories -----

  function Began(e: Event): int {
    if e.Verify? then e.call.start else e.at
  }

  function Ended(e: Event): int {
    if e.Verify? then e.call.end else e.at
  }

  /** Calls do not overlap and the clock does not run back. */
  ghost predicate Orderly(events: seq<Event>) {
    && (forall i :: 0 <= i < |events| && events[i].Verify? ==>
          events[i].call.start <= events[i].call.compared <= events[i].call.end)
    && (forall i, j :: 0 <= i < j < |events| ==> Ended(events[i]) <= Began(events[j]))
  }

  /** No success and no new PIN in a history. */
  ghost predicate Uncleared(a: Option<Attempts>, events: seq<Event>) {
    forall i :: 0 <= i < |events| ==> !Clears(State(a, events[..i]), events[i])
  }

  /** The failure that fills the counter, when it stood at `base` at first. */
  predicate Fills(base: nat, i: nat) {
    (base + i + 1) % MAX_ATTEMPTS == 0
  }

  /** Failures are in order, each that fills the counter is followed by a lockout, and the counter and the lock say
      where the history stands. */
  ghost predicate Paced(base: nat, failures: seq<int>, a: Option<Attempts>, now: Option<int>) {
    && Counter(a).count == (base + |failures|) % MAX_ATTEMPTS
    && (forall i :: 0 <= i < |failures| - 1 ==>
          failures[i] <= failures[i + 1] && (Fills(base, i) ==> failures[i] + LOCKOUT_MS <= failures[i + 1]))
    && (failures != [] ==>
          && now.Some? && failures[|failures| - 1] <= now.value
          && (Fills(base, |failures| - 1) ==>
                Counter(a).lockedUntil.Some? && failures[|failures| - 1] + LOCKOUT_MS <= Counter(a).lockedUntil.value))
  }

  lemma CountTurns(base: nat, n: nat)
    ensures (base + n + 1) % MAX_ATTEMPTS ==
            if (base + n) % MAX_ATTEMPTS + 1 >= MAX_ATTEMPTS then 0 else (base + n) % MAX_ATTEMPTS + 1
    ensures Fills(base, n) <==> (base + n) % MAX_ATTEMPTS + 1 >= MAX_ATTEMPTS
  {
  }

  lemma FailureKeepsPace(base: nat, failures: seq<int>, a: Attempts, now: Option<int>, c: Call)
    requires Paced(base, failures, Some(a), now) && c.start <= c.compared <= c.end && (now.Some? ==> now.value <= c.start)
    requires !LockedAt(Some(a), c.start)
    ensures Paced(base, failures + [c.compared], Some(CountFailure(a, c.end)), Some(c.end))
  {
    hide Fills;
    CountTurns(base, |failures|);
    var more := failures + [c.compared];
    assert forall i :: 0 <= i < |failures| ==> more[i] == failures[i];
    assert failures != [] && Fills(base, |failures| - 1) ==> failures[|failures| - 1] + LOCKOUT_MS <= c.start;
  }

  lemma SameLock(a: Option<Attempts>, now: int)
    ensures LockedAt(Some(Counter(a)), now) <==> LockedAt(a, now)
  {
  }

  lemma SamePace(base: nat, failures: seq<int>, a: Option<Attempts>, now: Option<int>)
    requires Paced(base, failures, a, now)
    ensures Paced(base, failures, Some(Counter(a)), now)
  {
    hide Fills;
  }

  lemma LaterPace(base: nat, failures: seq<int>, a: Option<Attempts>, now: Option<int>, later: int)
    requires Paced(base, failures, a, now) && (now.Some? ==> now.value <= later)
    ensures Paced(base, failures, a, Some(later))
  {
    hide Fills;
  }

  lemma StepKeepsPace(base: nat, failures: seq<int>, a: Option<Attempts>, now: Option<int>, c: Call)
    requires Paced(base, failures, a, now) && c.start <= c.compared <= c.end && (now.Some? ==> now.value <= c.start)
    requires OutcomeOf(a, c) != Granted
    ensures var more := if OutcomeOf(a, c) == Wrong then failures + [c.compared] else failures;
            Paced(base, more, After(a, Verify(c)), Some(c.end))
  {
    hide Fills, CountFailure, LockedAt, Paced;
    if OutcomeOf(a, c) == Wrong {
      SameLock(a, c.start);
      SamePace(base, failures, a, now);
      FailureKeepsPace(base, failures, Counter(a), now, c);
    } else {
      LaterPace(base, failures, a, now, c.end);
    }
  }

  ghost function LastEnd(events: seq<Event>): Option<int> {
    if events == [] then None else Some(Ended(events[|events| - 1]))
  }

  lemma {:induction false} HistoryIsPaced(a: Option<Attempts>, events: seq<Event>)
    requires Orderly(events) && Uncleared(a, events) && Counter(a).count < MAX_ATTEMPTS
    ensures Paced(Counter(a).count, Failures(a, events), State(a, events), LastEnd(events))
  {
    if events != [] {
      var n := |events| - 1;
      var before := events[..n];
      forall i | 0 <= i < n
        ensures !Clears(State(a, before[..i]), before[i])
      {
        assert before[..i] == events[..i];
      }
      HistoryIsPaced(a, before);
      assert !Clears(State(a, events[..n]), events[n]);
      StepKeepsPace(Counter(a).count, Failures(a, before), State(a, before), LastEnd(before), events[n].call);
    }
  }

  lemma {:induction false} CounterStaysSmall(a: Option<Attempts>, events: seq<Event>)
    requires Counter(a).count < MAX_ATTEMPTS
    ensures Counter(State(a, events)).count < MAX_ATTEMPTS
  {
    if events != [] {
      CounterStaysSmall(a, events[..|events| - 1]);
    }
  }

  /** The fifth failure in a row refuses every later call that begins within fifteen minutes of its end, and no later one;
      an earlier failure refuses none that was not refused already. */
  lemma LockLastsExactly(a: Option<Attempts>, c: Call, d: Call)
    requires OutcomeOf(a, c) == Wrong && d.wellFormed && Counter(a).count < MAX_ATTEMPTS
    ensures OutcomeOf(After(a, Verify(c)), d) == Locked <==>
            if Counter(a).count == 4 then d.start < c.end + 15 * 60 * 1000 else OutcomeOf(a, d) == Locked
  {
  }

  /** Success and a new PIN forget every failure. */
  lemma ClearedCountersStartOver(a: Option<Attempts>, e: Event, d: Call)
    requires Clears(a, e)
    ensures After(a, e) == None && OutcomeOf(After(a, e), d) == OutcomeOf(None, d) != Locked
  {
  }

  // ----- failures in a window -----

  ghost predicate Ascending(failures: seq<int>) {
    forall i, j :: 0 <= i <= j < |failures| ==> failures[i] <= failures[j]
  }

  lemma {:induction false} StepsAscend(failures: seq<int>, i: nat, j: nat)
    requires i <= j < |failures| && forall k :: 0 <= k < |failures| - 1 ==> failures[k] <= failures[k + 1]
    ensures failures[i] <= failures[j]
    decreases j - i
  {
    if i < j {
      StepsAscend(failures, i, j - 1);
      assert failures[j - 1] <= failures[j - 1 + 1];
    }
  }

  /** One of any five consecutive failures fills the counter. */
  lemma SomeFailureFills(base: nat, i: nat) returns (j: nat)
    ensures i <= j < i + MAX_ATTEMPTS && Fills(base, j)
  {
    j := i + (MAX_ATTEMPTS - 1 - (base + i) % MAX_ATTEMPTS);
  }

  /** Six consecutive failures span a whole lockout. */
  lemma SixSpanALockout(base: nat, failures: seq<int>, a: Option<Attempts>, now: Option<int>, i: nat)
    requires Paced(base, failures, a, now) && i + MAX_ATTEMPTS < |failures|
    ensures failures[i] + LOCKOUT_MS <= failures[i + MAX_ATTEMPTS]
  {
    var j := SomeFailureFills(base, i);
    assert failures[j] + LOCKOUT_MS <= failures[j + 1];
    StepsAscend(failures, i, j);
    StepsAscend(failures, j + 1, i + MAX_ATTEMPTS);
  }

  lemma {:induction false} SpansAddUp(failures: seq<int>, i: nat, k: nat)
    requires forall m :: 0 <= m && m + MAX_ATTEMPTS < |failures| ==> failures[m] + LOCKOUT_MS <= failures[m + MAX_ATTEMPTS]
    requires i + MAX_ATTEMPTS * k < |failures|
    ensures failures[i] + LOCKOUT_MS * k <= failures[i + MAX_ATTEMPTS * k]
    decreases k
  {
    if k > 0 {
      SpansAddUp(failures, i, k - 1);
      var m := i + MAX_ATTEMPTS * (k - 1);
      assert failures[m] + LOCKOUT_MS <= failures[m + MAX_ATTEMPTS];
    }
  }

  /** How many failures fall in a half-open window. */
  function Within(failures: seq<int>, from: int, to: int): nat {
    if failures == [] then 0
    else
      var n := |failures| - 1;
      Within(failures[..n], from, to) + if from <= failures[n] < to then 1 else 0
  }

  lemma {:induction false} WithinBound(failures: seq<int>, from: int, k: nat, first: nat)
    requires Ascending(failures) && first <= |failures|
    requires forall i :: 0 <= i < first ==> failures[i] < from
    requires first < |failures| ==> from <= failures[first]
    requires forall i :: first + MAX_ATTEMPTS * k <= i < |failures| ==> failures[i] >= from + LOCKOUT_MS * k
    ensures Within(failures, from, from + LOCKOUT_MS * k) <= MAX_ATTEMPTS * k
    ensures Within(failures, from, from + LOCKOUT_MS * k) <= |failures| - first
  {
    if |failures| > first {
      WithinBound(failures[..|failures| - 1], from, k, first);
    } else {
      NoneWithin(failures, from, from + LOCKOUT_MS * k);
    }
  }

  lemma {:induction false} NoneWithin(failures: seq<int>, from: int, to: int)
    requires forall i :: 0 <= i < |failures| ==> failures[i] < from
    ensures Within(failures, from, to) == 0
  {
    if failures != [] {
      NoneWithin(failures[..|failures| - 1], from, to);
    }
  }

  lemma {:induction false} FirstAtLeast(failures: seq<int>, from: int, n: nat) returns (first: nat)
    requires Ascending(failures) && n <= |failures| && forall i :: 0 <= i < n ==> failures[i] < from
    ensures n <= first <= |failures| && (forall i :: 0 <= i < first ==> failures[i] < from)
    ensures first < |failures| ==> from <= failures[first]
    decreases |failures| - n
  {
    if n == |failures| || failures[n] >= from {
      first := n;
    } else {
      first := FirstAtLeast(failures, from, n + 1);
    }
  }

  /** After any history, in any stretch of non-overlapping calls with no success and no new PIN, at most 5k
      comparisons fail in any k consecutive lockout periods: five in any one of them. */
  lemma FewFailuresPerWindow(before: seq<Event>, stretch: seq<Event>, from: int, k: nat)
    requires Orderly(stretch) && Uncleared(State(None, before), stretch)
    ensures Within(Failures(State(None, before), stretch), from, from + LOCKOUT_MS * k) <= MAX_ATTEMPTS * k
  {
    var a := State(None, before);
    CounterStaysSmall(None, before);
    HistoryIsPaced(a, stretch);
    var failures := Failures(a, stretch);
    var base, last := Counter(a).count, LastEnd(stretch);
    forall i, j | 0 <= i <= j < |failures|
      ensures failures[i] <= failures[j]
    {
      StepsAscend(failures, i, j);
    }
    forall m | 0 <= m && m + MAX_ATTEMPTS < |failures|
      ensures failures[m] + LOCKOUT_MS <= failures[m + MAX_ATTEMPTS]
    {
      SixSpanALockout(base, failures, State(a, stretch), last, m);
    }
    var first := FirstAtLeast(failures, from, 0);
    if first + MAX_ATTEMPTS * k < |failures| {
      SpansAddUp(failures, first, k);
    }
    WithinBound(failures, from, k, first);
  }

  /** Wrong guesses, one a millisecond. */
  function Guesses(n: nat): (events: seq<Event>)
    ensures |events| == n
  {
    seq(n, i => Verify(Call(i, i, i, true, true, false)))
  }

  function UpTo(n: nat): (times: seq<int>)
    ensures |times| == n
  {
    seq(n, i => i)
  }

  lemma {:induction false} GuessesFail(n: nat)
    requires n <= MAX_ATTEMPTS
    ensures Failures(None, Guesses(n)) == UpTo(n)
    ensures n < MAX_ATTEMPTS ==> Counter(State(None, Guesses(n))) == Attempts(n, None)
  {
    if n > 0 {
      GuessesFail(n - 1);
      assert Guesses(n)[..n - 1] == Guesses(n - 1);
      assert UpTo(n) == UpTo(n - 1) + [n - 1];
    }
  }

  lemma GuessesNeverClear()
    ensures Uncleared(None, Guesses(MAX_ATTEMPTS))
  {
    var e := Guesses(MAX_ATTEMPTS);
    forall i | 0 <= i < |e|
      ensures !Clears(State(None, e[..i]), e[i])
    {
      GuessesFail(i);
      assert e[..i] == Guesses(i);
    }
  }

  lemma {:induction false} AllWithin(n: nat, to: int)
    requires n <= to
    ensures Within(UpTo(n), 0, to) == n
  {
    if n > 0 {
      AllWithin(n - 1, to);
      assert UpTo(n)[..n - 1] == UpTo(n - 1);
    }
  }

  /** The bound is reached: five wrong guesses fit in one lockout period. */
  lemma FiveFailuresFit()
    ensures exists stretch: seq<Event> ::
              Orderly(stretch) && Uncleared(None, stretch) && Within(Failures(None, stretch), 0, LOCKOUT_MS) == MAX_ATTEMPTS
  {
    GuessesFail(MAX_ATTEMPTS);
    GuessesNeverClear();
    AllWithin(MAX_ATTEMPTS, LOCKOUT_MS);
    assert Orderly(Guesses(MAX_ATTEMPTS));
  }
}
