/** Recurring transfers: schedules, scans that read due rows, firings in flight, edits and crashes. */
module Recurring {
  import opened Sums
  import opened Calendar
  import opened Iso
  import opened Schedule
  import Bank
  import BankLifecycle

  type Gate = Bank.Gate

  datatype Row = Row(active: bool, frequency: Frequency, dayOf: nat, nextRunAt: Instant, lastRunAt: Option<Instant>)

  /** A due row a scan has read: `paid` once its transfer exists. */
  datatype Firing = Firing(id: string, row: Row, now: Instant, paid: bool)

  /** A transfer made for an occurrence of a schedule, under its idempotency key. */
  datatype Made = Made(id: string, occurrence: Instant, key: string)

  datatype State = State(rows: map<string, Row>, flight: multiset<Firing>, made: seq<Made>, clock: Instant)

  datatype Label =
    | Create(id: string, frequency: Frequency, dayOf: nat, now: Instant)
    | Edit(id: string, newFrequency: Option<Frequency>, newDayOf: Option<nat>, active: Option<bool>, now: Instant)
    | Cancel(id: string)
    | Pick(id: string, now: Instant)
    | Initiate(f: Firing, gate: Gate)
    | Advance(f: Firing)
    | Crash

  /** Identifiers are UUIDs: no colon in them. */
  predicate Plain(id: string) {
    ':' !in id
  }

  function Key(id: string, occurrence: Instant): string
    requires ValidInstant(occurrence)
  {
    "recurring:" + id + ":" + ToIso(occurrence)
  }

  predicate Taken(made: seq<Made>, key: string) {
    exists i :: 0 <= i < |made| && made[i].key == key
  }

  // ----- steps -----

  /** The clock never runs back. */
  predicate OnTime(s: State, now: Instant) {
    ValidInstant(now) && !Before(now, s.clock)
  }

  function ApplyEdit(row: Row, frequency: Option<Frequency>, dayOf: Option<nat>, active: Option<bool>, now: Instant): Row {
    var nextFrequency := if frequency.Some? then frequency.value else row.frequency;
    var nextDayOf := if dayOf.Some? then dayOf.value else row.dayOf;
    var changed := nextFrequency != row.frequency || nextDayOf != row.dayOf;
    Row(if active.Some? then active.value else row.active, nextFrequency, nextDayOf,
        if changed then NextRunAt(now, nextFrequency, nextDayOf) else row.nextRunAt, row.lastRunAt)
  }

  predicate Due(row: Row, now: Instant) {
    row.active && !Before(now, row.nextRunAt)
  }

  /** `toISOString` throws outside the years it can write, and `initiate` throws for a user whose transfers are disabled
      before it looks at the key; then a taken key replays, and otherwise the transfer is made if the service can make
      it. A firing whose transfer fails is dropped. */
  function InitiateStep(s: State, f: Firing, gate: Gate): State {
    var rest := s.flight - multiset{f};
    if f !in s.flight || f.paid then s
    else if !Writable(f.row.nextRunAt) || gate.Locked? then s.(flight := rest)
    else
      var key := Key(f.id, f.row.nextRunAt);
      var flight := rest + multiset{f.(paid := true)};
      if Taken(s.made, key) then s.(flight := flight)
      else if gate.Able? then s.(flight := flight, made := s.made + [Made(f.id, f.row.nextRunAt, key)])
      else s.(flight := rest)
  }

  /** The row update after the transfer, from the values the scan read. */
  function AdvanceStep(s: State, f: Firing): State {
    if f !in s.flight || !f.paid then s
    else
      var flight := s.flight - multiset{f};
      if f.id !in s.rows then s.(flight := flight)
      else s.(flight := flight, rows := s.rows[f.id := Advanced(s.rows[f.id], f)])
  }

  function Advanced(row: Row, f: Firing): Row {
    row.(nextRunAt := NextRunAt(f.now, f.row.frequency, f.row.dayOf), lastRunAt := Some(f.now))
  }

  function Exec(s: State, l: Label): State {
    match l
    case Create(id, frequency, dayOf, now) =>
      if id in s.rows || !Plain(id) || !OnTime(s, now) then s
      else s.(rows := s.rows[id := Row(true, frequency, dayOf, NextRunAt(now, frequency, dayOf), None)], clock := now)
    case Edit(id, frequency, dayOf, active, now) =>
      if id !in s.rows || !OnTime(s, now) then s
      else s.(rows := s.rows[id := ApplyEdit(s.rows[id], frequency, dayOf, active, now)], clock := now)
    case Cancel(id) => s.(rows := s.rows - {id})
    case Pick(id, now) =>
      if id !in s.rows || !OnTime(s, now) || !Due(s.rows[id], now) then s
      else s.(flight := s.flight + multiset{Firing(id, s.rows[id], now, false)}, clock := now)
    case Initiate(f, gate) => InitiateStep(s, f, gate)
    case Advance(f) => AdvanceStep(s, f)
    case Crash => s.(flight := multiset{})
  }

  function Run(s: State, labels: seq<Label>): State {
    if labels == [] then s else Exec(Run(s, labels[..|labels| - 1]), labels[|labels| - 1])
  }

  /** No firing yet; stored occurrences are at nine and identifiers are plain. */
  ghost predicate Starting(s: State) {
    && s.flight == multiset{} && s.made == [] && ValidInstant(s.clock)
    && forall id :: id in s.rows ==> Plain(id) && AtNine(s.rows[id].nextRunAt)
  }

  // ----- the key names the occurrence -----

  lemma {:induction false} SplitAtColon(a: string, x: string, b: string, y: string)
    requires Plain(a) && Plain(b) && a + ":" + x == b + ":" + y
    ensures a == b && x == y
  {
    var s := a + ":" + x;
    assert s[|a|] == ':' && s[|b|] == ':';
    assert forall i :: 0 <= i < |a| ==> s[i] == a[i];
    assert forall i :: 0 <= i < |b| ==> s[i] == b[i];
    assert |a| == |b|;
    assert s[..|a|] == a && s[..|b|] == b;
    assert s[|a| + 1..] == x && s[|b| + 1..] == y;
  }

  lemma AfterPrefix(prefix: string, a: string, x: string, b: string, y: string)
    requires prefix + a + ":" + x == prefix + b + ":" + y
    ensures a + ":" + x == b + ":" + y
  {
    assert (prefix + a + ":" + x)[|prefix|..] == a + ":" + x;
    assert (prefix + b + ":" + y)[|prefix|..] == b + ":" + y;
  }

  /** Two keys are equal only for the same schedule and the same occurrence. */
  lemma KeyNamesOccurrence(id: string, t: Instant, other: string, u: Instant)
    requires Plain(id) && Plain(other) && Writable(t) && Writable(u)
    ensures Key(id, t) == Key(other, u) <==> id == other && t == u
  {
    hide ToIso, Writable;
    if Key(id, t) == Key(other, u) {
      AfterPrefix("recurring:", id, ToIso(t), other, ToIso(u));
      SplitAtColon(id, ToIso(t), other, ToIso(u));
      IsoInjective(t, u);
    }
  }

  // ----- every run -----

  ghost predicate MadeWell(made: seq<Made>) {
    && (forall i :: 0 <= i < |made| ==> Plain(made[i].id) && Writable(made[i].occurrence))
    && (forall i :: 0 <= i < |made| ==> made[i].key == Key(made[i].id, made[i].occurrence))
    && (forall i, j :: 0 <= i < j < |made| ==> made[i].key != made[j].key)
  }

  ghost predicate PaidFor(made: seq<Made>, f: Firing) {
    Writable(f.row.nextRunAt) && Taken(made, Key(f.id, f.row.nextRunAt))
  }

  ghost predicate SoundFiring(f: Firing, made: seq<Made>, clock: Instant) {
    && Plain(f.id) && AtNine(f.row.nextRunAt) && ValidInstant(f.now)
    && !Before(f.now, f.row.nextRunAt) && !Before(clock, f.now)
    && (f.paid ==> PaidFor(made, f))
  }

  ghost predicate SoundRows(rows: map<string, Row>) {
    forall id :: id in rows ==> Plain(id) && AtNine(rows[id].nextRunAt)
  }

  ghost predicate SoundMade(made: seq<Made>, clock: Instant) {
    && MadeWell(made)
    && forall i :: 0 <= i < |made| ==> AtNine(made[i].occurrence) && !Before(clock, made[i].occurrence)
  }

  ghost predicate SoundFlight(flight: multiset<Firing>, made: seq<Made>, clock: Instant) {
    forall f :: f in flight ==> SoundFiring(f, made, clock)
  }

  ghost predicate Sound(s: State) {
    && ValidInstant(s.clock) && SoundRows(s.rows) && SoundMade(s.made, s.clock)
    && SoundFlight(s.flight, s.made, s.clock)
  }

  lemma TakenGrows(made: seq<Made>, more: seq<Made>, key: string)
    requires made <= more && Taken(made, key)
    ensures Taken(more, key)
  {
    var i :| 0 <= i < |made| && made[i].key == key;
    assert more[i].key == key;
  }

  lemma FlightGrowsSound(flight: multiset<Firing>, made: seq<Made>, more: seq<Made>, clock: Instant, later: Instant)
    requires SoundFlight(flight, made, clock) && made <= more && !Before(later, clock)
    ensures SoundFlight(flight, more, later)
  {
    hide Key, Writable;
    forall f | f in flight
      ensures SoundFiring(f, more, later)
    {
      assert SoundFiring(f, made, clock);
      if f.paid {
        TakenGrows(made, more, Key(f.id, f.row.nextRunAt));
      }
    }
  }

  lemma MadeGrowsSound(made: seq<Made>, f: Firing, clock: Instant)
    requires SoundMade(made, clock) && SoundFiring(f, made, clock) && Writable(f.row.nextRunAt)
    requires !Taken(made, Key(f.id, f.row.nextRunAt))
    ensures SoundMade(made + [Made(f.id, f.row.nextRunAt, Key(f.id, f.row.nextRunAt))], clock)
  {
    hide Key, Writable;
  }

  lemma PaidIsSound(made: seq<Made>, f: Firing, clock: Instant)
    requires SoundFiring(f, made, clock) && PaidFor(made, f)
    ensures SoundFiring(f.(paid := true), made, clock)
  {
    hide Key, Writable;
  }

  lemma InitiateKeepsSound(s: State, f: Firing, gate: Gate)
    requires Sound(s)
    ensures Sound(InitiateStep(s, f, gate))
  {
    hide Key, Writable, SoundMade, SoundFiring, SoundRows;
    var c := InitiateStep(s, f, gate);
    if f in s.flight && !f.paid && Writable(f.row.nextRunAt) {
      if |c.made| > |s.made| {
        MadeGrowsSound(s.made, f, s.clock);
        assert c.made[|s.made|].key == Key(f.id, f.row.nextRunAt);
      }
      FlightGrowsSound(s.flight, s.made, c.made, s.clock, s.clock);
      if PaidFor(c.made, f) {
        PaidIsSound(c.made, f, s.clock);
      }
    }
  }

  lemma ClockMovesSound(s: State, now: Instant)
    requires Sound(s) && OnTime(s, now)
    ensures Sound(s.(clock := now))
  {
    hide Key, Writable;
    FlightGrowsSound(s.flight, s.made, s.made, s.clock, now);
  }

  lemma RewriteKeepsSound(s: State, l: Label)
    requires Sound(s) && (l.Create? || l.Edit? || l.Pick?)
    ensures Sound(Exec(s, l))
  {
    hide Key, Writable, NextRunAt, SoundMade, PaidFor;
    if OnTime(s, l.now) {
      ClockMovesSound(s, l.now);
    }
  }

  lemma StepKeepsSound(s: State, l: Label)
    requires Sound(s)
    ensures Sound(Exec(s, l))
  {
    hide NextRunAt, InitiateStep, SoundMade, SoundFiring;
    if l.Initiate? {
      InitiateKeepsSound(s, l.f, l.gate);
    } else if l.Create? || l.Edit? || l.Pick? {
      RewriteKeepsSound(s, l);
    }
  }

  lemma {:induction false} RunStaysSound(s: State, labels: seq<Label>)
    requires Sound(s)
    ensures Sound(Run(s, labels))
  {
    if labels != [] {
      RunStaysSound(s, labels[..|labels| - 1]);
      StepKeepsSound(Run(s, labels[..|labels| - 1]), labels[|labels| - 1]);
    }
  }

  lemma RunIsSound(s: State, labels: seq<Label>)
    requires Starting(s)
    ensures Sound(Run(s, labels))
  {
    RunStaysSound(s, labels);
  }

  /** Over every interleaving of scans, failures, edits, cancellations and crashes: no occurrence of a schedule
      has two transfers, none fires early, and no schedule is waiting to advance past an occurrence that was not
      paid. */
  lemma AtMostOncePerOccurrence(s: State, labels: seq<Label>)
    requires Starting(s)
    ensures var c := Run(s, labels);
            && (forall i, j :: 0 <= i < j < |c.made| ==>
                  c.made[i].id != c.made[j].id || c.made[i].occurrence != c.made[j].occurrence)
            && (forall i :: 0 <= i < |c.made| ==> !Before(c.clock, c.made[i].occurrence))
            && (forall f :: f in c.flight && f.paid ==>
                  exists i :: 0 <= i < |c.made| && c.made[i].id == f.id && c.made[i].occurrence == f.row.nextRunAt)
  {
    hide Key, Run, Starting, SoundRows;
    RunIsSound(s, labels);
    var c := Run(s, labels);
    forall f | f in c.flight && f.paid
      ensures exists i :: 0 <= i < |c.made| && c.made[i].id == f.id && c.made[i].occurrence == f.row.nextRunAt
    {
      assert PaidFor(c.made, f);
      var i :| 0 <= i < |c.made| && c.made[i].key == Key(f.id, f.row.nextRunAt);
      KeyNamesOccurrence(c.made[i].id, c.made[i].occurrence, f.id, f.row.nextRunAt);
    }
  }

  /** An accepted firing makes its transfer unless that very occurrence already has one: no other occurrence's
      transfer is ever taken for it. */
  lemma NoOccurrenceIsSwallowed(s: State, labels: seq<Label>, f: Firing)
    requires Starting(s) && f in Run(s, labels).flight && !f.paid && Writable(f.row.nextRunAt)
    ensures var b := Run(s, labels);
            var c := Exec(b, Initiate(f, Bank.Able));
            var unpaid := forall i :: 0 <= i < |b.made| ==> b.made[i].id != f.id || b.made[i].occurrence != f.row.nextRunAt;
            c.made == if unpaid then b.made + [Made(f.id, f.row.nextRunAt, Key(f.id, f.row.nextRunAt))] else b.made
  {
    hide Key, Writable, Run, Starting, SoundRows;
    RunIsSound(s, labels);
    var b := Run(s, labels);
    forall i | 0 <= i < |b.made|
      ensures b.made[i].key == Key(f.id, f.row.nextRunAt) <==>
              b.made[i].id == f.id && b.made[i].occurrence == f.row.nextRunAt
    {
      KeyNamesOccurrence(b.made[i].id, b.made[i].occurrence, f.id, f.row.nextRunAt);
    }
  }

  /** The bank's side of the same promise, over every run of the bank: the transfers table holds at most one row
      under an occurrence's key, and rows of different occurrences are different rows. */
  lemma OneBankTransferPerOccurrence(start: Bank.Bank, labels: seq<Bank.Label>, i: nat, j: nat,
                                     id: string, t: Instant, other: string, u: Instant)
    requires Bank.Opening(start) && Plain(id) && Plain(other) && Writable(t) && Writable(u)
    requires var b := Bank.Run(start, labels);
             && i < |b.transfers| && b.transfers[i].key == Key(id, t)
             && j < |b.transfers| && b.transfers[j].key == Key(other, u)
    ensures i == j <==> id == other && t == u
  {
    BankLifecycle.OneTransferPerKey(start, labels);
    KeyNamesOccurrence(id, t, other, u);
  }

  // ----- firings that find the row as the scan read it -----

  /** The row a step writes from is still the row the scan read. */
  ghost predicate Steady(s: State, l: Label) {
    && (l.Initiate? && l.f in s.flight ==> l.f.id in s.rows && s.rows[l.f.id] == l.f.row)
    && (l.Advance? && l.f in s.flight ==> l.f.id in s.rows && s.rows[l.f.id] == l.f.row)
  }

  ghost predicate SteadyRun(s: State, labels: seq<Label>) {
    forall k :: 0 <= k < |labels| ==> Steady(Run(s, labels[..k]), labels[k])
  }

  /** Transfers of one schedule are made in the order of their occurrences, and no row goes back before one. */
  ghost predicate Ordered(s: State) {
    && (forall i, j :: 0 <= i < j < |s.made| && s.made[i].id == s.made[j].id ==>
          Before(s.made[i].occurrence, s.made[j].occurrence))
    && (forall i :: 0 <= i < |s.made| && s.made[i].id in s.rows ==>
          !Before(s.rows[s.made[i].id].nextRunAt, s.made[i].occurrence))
  }

  lemma RecomputedRowIsOrdered(s: State, i: nat, now: Instant, frequency: Frequency, dayOf: nat)
    requires Sound(s) && i < |s.made| && ValidInstant(now) && !Before(now, s.made[i].occurrence)
    ensures !Before(NextRunAt(now, frequency, dayOf), s.made[i].occurrence)
  {
    NeverBeforeDueOccurrence(now, frequency, dayOf, s.made[i].occurrence);
  }

  lemma InitiateKeepsOrdered(s: State, f: Firing, gate: Gate)
    requires Sound(s) && Ordered(s) && Steady(s, Initiate(f, gate))
    ensures Ordered(InitiateStep(s, f, gate))
  {
    hide Key, Writable, SoundRows;
    var c := InitiateStep(s, f, gate);
    if |c.made| > |s.made| {
      forall i | 0 <= i < |s.made| && s.made[i].id == f.id
        ensures Before(s.made[i].occurrence, f.row.nextRunAt)
      {
        KeyNamesOccurrence(s.made[i].id, s.made[i].occurrence, f.id, f.row.nextRunAt);
      }
    }
  }

  lemma AdvanceKeepsOrdered(s: State, f: Firing)
    requires Sound(s) && Ordered(s) && Steady(s, Advance(f))
    ensures Ordered(AdvanceStep(s, f))
  {
    if f in s.flight && f.paid {
      forall i | 0 <= i < |s.made| && s.made[i].id == f.id
        ensures !Before(NextRunAt(f.now, f.row.frequency, f.row.dayOf), s.made[i].occurrence)
      {
        RecomputedRowIsOrdered(s, i, f.now, f.row.frequency, f.row.dayOf);
      }
    }
  }

  lemma RewriteKeepsOrdered(s: State, l: Label)
    requires Sound(s) && Ordered(s) && (l.Create? || l.Edit?)
    ensures Ordered(Exec(s, l))
  {
    var c := Exec(s, l);
    if OnTime(s, l.now) {
      forall i, frequency, dayOf | 0 <= i < |s.made|
        ensures !Before(NextRunAt(l.now, frequency, dayOf), s.made[i].occurrence)
      {
        RecomputedRowIsOrdered(s, i, l.now, frequency, dayOf);
      }
    }
  }

  lemma StepKeepsOrdered(s: State, l: Label)
    requires Sound(s) && Ordered(s) && Steady(s, l)
    ensures Ordered(Exec(s, l))
  {
    match l
    case Initiate(f, gate) => InitiateKeepsOrdered(s, f, gate);
    case Advance(f) => AdvanceKeepsOrdered(s, f);
    case Create(_, _, _, _) => RewriteKeepsOrdered(s, l);
    case Edit(_, _, _, _, _) => RewriteKeepsOrdered(s, l);
    case _ =>
  }

  lemma {:induction false} RunIsOrdered(s: State, labels: seq<Label>)
    requires Starting(s) && SteadyRun(s, labels)
    ensures Ordered(Run(s, labels))
  {
    if labels != [] {
      var n := |labels| - 1;
      forall k | 0 <= k < n
        ensures Steady(Run(s, labels[..n][..k]), labels[..n][k])
      {
        assert labels[..n][..k] == labels[..k];
      }
      RunIsOrdered(s, labels[..n]);
      RunIsSound(s, labels[..n]);
      StepKeepsOrdered(Run(s, labels[..n]), labels[n]);
    }
  }

  /** When every firing finds its row as the scan read it, the occurrences paid for a schedule only move forward in
      time, whatever failed, crashed or was edited between them. */
  lemma OccurrencesMoveForward(s: State, labels: seq<Label>)
    requires Starting(s) && SteadyRun(s, labels)
    ensures var c := Run(s, labels);
            forall i, j :: 0 <= i < j < |c.made| && c.made[i].id == c.made[j].id ==>
              Before(c.made[i].occurrence, c.made[j].occurrence)
  {
    RunIsOrdered(s, labels);
  }

  // ----- the scan -----

  /** Whether the `initiate` call of a firing returns. */
  predicate Returns(s: State, f: Firing, gate: Gate) {
    && Writable(f.row.nextRunAt)
    && !gate.Locked?
    && (Taken(s.made, Key(f.id, f.row.nextRunAt)) || gate.Able?)
  }

  /** One pass of the scan's loop: the transfer, then the row, or neither. */
  function Fire(s: State, f: Firing, gate: Gate): State {
    var c := InitiateStep(s, f, gate);
    if Returns(s, f, gate) then AdvanceStep(c, f.(paid := true)) else c
  }

  function Found(rows: map<string, Row>, ids: seq<string>, now: Instant): (work: seq<Firing>)
    requires forall i :: 0 <= i < |ids| ==> ids[i] in rows
    ensures |work| == |ids|
    ensures forall i :: 0 <= i < |ids| ==> work[i] == Firing(ids[i], rows[ids[i]], now, false)
  {
    if ids == [] then [] else
      Found(rows, ids[..|ids| - 1], now) + [Firing(ids[|ids| - 1], rows[ids[|ids| - 1]], now, false)]
  }

  /** The first `n` passes of the loop. */
  function FireAll(s: State, work: seq<Firing>, gates: seq<Gate>, n: nat): State
    requires n <= |work| == |gates|
  {
    if n == 0 then s else Fire(FireAll(s, work, gates, n - 1), work[n - 1], gates[n - 1])
  }

  /** How many of them returned. */
  function Returned(s: State, work: seq<Firing>, gates: seq<Gate>, n: nat): nat
    requires n <= |work| == |gates|
  {
    if n == 0 then 0
    else Returned(s, work, gates, n - 1) +
         if Returns(FireAll(s, work, gates, n - 1), work[n - 1], gates[n - 1]) then 1 else 0
  }

  lemma FireOneMore(s: State, work: seq<Firing>, gates: seq<Gate>, i: nat)
    requires i < |work| == |gates|
    ensures var before := FireAll(s, work, gates, i);
            && FireAll(s, work, gates, i + 1) == Fire(before, work[i], gates[i])
            && Returned(s, work, gates, i + 1) ==
               Returned(s, work, gates, i) + if Returns(before, work[i], gates[i]) then 1 else 0
  {
    hide Fire, Returns;
  }

  lemma NothingFired(s: State, work: seq<Firing>, gates: seq<Gate>)
    requires |work| == |gates|
    ensures FireAll(s, work, gates, 0) == s && Returned(s, work, gates, 0) == 0
  {
  }

  function Started(s: State, work: seq<Firing>, now: Instant): State {
    s.(flight := s.flight + multiset(work), clock := if work == [] then s.clock else now)
  }

  /** The steps a scan takes in the state machine. */
  function PickLabels(ids: seq<string>, now: Instant): seq<Label> {
    if ids == [] then [] else PickLabels(ids[..|ids| - 1], now) + [Pick(ids[|ids| - 1], now)]
  }

  function FireLabels(s: State, work: seq<Firing>, gates: seq<Gate>, n: nat): seq<Label>
    requires n <= |work| == |gates|
  {
    if n == 0 then []
    else
      var f, gate := work[n - 1], gates[n - 1];
      FireLabels(s, work, gates, n - 1) +
      if Returns(FireAll(s, work, gates, n - 1), f, gate) then [Initiate(f, gate), Advance(f.(paid := true))]
      else [Initiate(f, gate)]
  }

  lemma RunOneMore(s: State, labels: seq<Label>, l: Label)
    ensures Run(s, labels + [l]) == Exec(Run(s, labels), l)
  {
    assert (labels + [l])[..|labels|] == labels;
  }

  /** A pass of the loop is one or two steps. */
  lemma FireIsSteps(s: State, f: Firing, gate: Gate)
    ensures Fire(s, f, gate) ==
            if Returns(s, f, gate) then Exec(Exec(s, Initiate(f, gate)), Advance(f.(paid := true)))
            else Exec(s, Initiate(f, gate))
  {
    hide Returns, InitiateStep, AdvanceStep;
  }

  lemma {:induction false} FireAllIsRun(s: State, work: seq<Firing>, gates: seq<Gate>, n: nat)
    requires n <= |work| == |gates|
    ensures FireAll(s, work, gates, n) == Run(s, FireLabels(s, work, gates, n))
  {
    hide Returns, Exec, Fire, FireAll;
    NothingFired(s, work, gates);
    if n > 0 {
      FireIsSteps(FireAll(s, work, gates, n - 1), work[n - 1], gates[n - 1]);
      FireOneMore(s, work, gates, n - 1);
      FireAllIsRun(s, work, gates, n - 1);
      var labels, l := FireLabels(s, work, gates, n - 1), Initiate(work[n - 1], gates[n - 1]);
      var m := Advance(work[n - 1].(paid := true));
      RunOneMore(s, labels, l);
      RunOneMore(s, labels + [l], m);
      assert labels + [l, m] == labels + [l] + [m];
    }
  }

  lemma PickOneMore(s: State, work: seq<Firing>, id: string, now: Instant)
    requires OnTime(s, now) && id in s.rows && Due(s.rows[id], now)
    ensures var f := Firing(id, s.rows[id], now, false);
            Exec(Started(s, work, now), Pick(id, now)) == Started(s, work + [f], now)
  {
    var f := Firing(id, s.rows[id], now, false);
    assert multiset(work + [f]) == multiset(work) + multiset{f};
  }

  lemma {:induction false} PicksAreRun(s: State, ids: seq<string>, now: Instant)
    requires OnTime(s, now) && forall i :: 0 <= i < |ids| ==> ids[i] in s.rows && Due(s.rows[ids[i]], now)
    ensures Started(s, Found(s.rows, ids, now), now) == Run(s, PickLabels(ids, now))
  {
    hide OnTime, Due, Exec;
    if ids != [] {
      var n := |ids| - 1;
      PicksAreRun(s, ids[..n], now);
      PickOneMore(s, Found(s.rows, ids[..n], now), ids[n], now);
      RunOneMore(s, PickLabels(ids[..n], now), Pick(ids[n], now));
    }
  }

  /** A whole scan is a run of the state machine, so everything proved of runs holds through scans. */
  lemma ScanIsRun(s: State, ids: seq<string>, gates: seq<Gate>, now: Instant)
    requires |ids| == |gates| && OnTime(s, now)
    requires forall i :: 0 <= i < |ids| ==> ids[i] in s.rows && Due(s.rows[ids[i]], now)
    ensures var work := Found(s.rows, ids, now);
            var t := Started(s, work, now);
            && t == Run(s, PickLabels(ids, now))
            && FireAll(t, work, gates, |work|) == Run(t, FireLabels(t, work, gates, |work|))
  {
    PicksAreRun(s, ids, now);
    var work := Found(s.rows, ids, now);
    FireAllIsRun(Started(s, work, now), work, gates, |work|);
  }

  /** The row was run at `now` and waits for its schedule's next occurrence from there. */
  ghost predicate MovedOn(was: Row, row: Row, now: Instant) {
    && row.lastRunAt == Some(now)
    && row.nextRunAt == NextRunAt(now, was.frequency, was.dayOf)
    && row.active == was.active && row.frequency == was.frequency && row.dayOf == was.dayOf
  }

  /** A scanned row moved on exactly when its occurrence now has a transfer and its owner's transfers were not disabled. */
  ghost predicate Concluded(rows: map<string, Row>, c: State, f: Firing, gate: Gate) {
    && f.id in rows && f.id in c.rows
    && if !gate.Locked? && PaidFor(c.made, f) then MovedOn(rows[f.id], c.rows[f.id], f.now)
       else c.rows[f.id] == rows[f.id]
  }

  lemma FireConcludes(s: State, f: Firing, gate: Gate)
    requires f in s.flight && !f.paid && f.id in s.rows && s.rows[f.id] == f.row
    ensures Concluded(s.rows, Fire(s, f, gate), f, gate)
    ensures var c := Fire(s, f, gate);
            forall id :: id in s.rows && id != f.id ==> id in c.rows && c.rows[id] == s.rows[id]
    ensures Fire(s, f, gate).flight == s.flight - multiset{f}
    ensures s.made <= Fire(s, f, gate).made
    ensures forall key :: Taken(Fire(s, f, gate).made, key) && !Taken(s.made, key) ==>
              Writable(f.row.nextRunAt) && key == Key(f.id, f.row.nextRunAt)
  {
    hide Key, Writable, NextRunAt, InitiateStep, Taken;
    InitiateConcludes(s, f, gate);
  }

  lemma InitiateConcludes(s: State, f: Firing, gate: Gate)
    requires f in s.flight && !f.paid
    ensures var c := InitiateStep(s, f, gate);
            && c.rows == s.rows && s.made <= c.made
            && c.flight == s.flight - multiset{f} + (if Returns(s, f, gate) then multiset{f.(paid := true)} else multiset{})
            && (forall key :: Taken(c.made, key) && !Taken(s.made, key) ==>
                  Writable(f.row.nextRunAt) && key == Key(f.id, f.row.nextRunAt))
            && (!gate.Locked? ==> (Returns(s, f, gate) <==> PaidFor(c.made, f)))
            && (gate.Locked? ==> !Returns(s, f, gate))
  {
    hide Key, Writable;
    var c := InitiateStep(s, f, gate);
    if |c.made| > |s.made| {
      assert c.made[|s.made|].key == Key(f.id, f.row.nextRunAt);
    }
  }

  lemma StaysConcluded(rows: map<string, Row>, s: State, f: Firing, gate: Gate, g: Firing, other: Gate)
    requires f in s.flight && !f.paid && f.id in s.rows && s.rows[f.id] == f.row && g.id != f.id && Plain(f.id) && Plain(g.id)
    requires Concluded(rows, s, g, other)
    ensures Concluded(rows, Fire(s, f, gate), g, other)
  {
    hide Key, Writable, NextRunAt, Fire;
    FireConcludes(s, f, gate);
    var c := Fire(s, f, gate);
    if Writable(g.row.nextRunAt) {
      var key := Key(g.id, g.row.nextRunAt);
      if Taken(s.made, key) {
        TakenGrows(s.made, c.made, key);
      } else if Writable(f.row.nextRunAt) {
        KeyNamesOccurrence(g.id, g.row.nextRunAt, f.id, f.row.nextRunAt);
      }
    }
  }

  ghost predicate Separate(work: seq<Firing>) {
    && (forall j :: 0 <= j < |work| ==> !work[j].paid && Plain(work[j].id))
    && (forall j, k :: 0 <= j < k < |work| ==> work[j].id != work[k].id)
  }

  lemma {:induction false} FireAllConcludes(s: State, work: seq<Firing>, gates: seq<Gate>, n: nat)
    requires n <= |work| == |gates| && Separate(work)
    requires forall j :: 0 <= j < |work| ==>
                           work[j] in s.flight && work[j].id in s.rows && s.rows[work[j].id] == work[j].row
    ensures var c := FireAll(s, work, gates, n);
            && (forall j :: 0 <= j < n ==> Concluded(s.rows, c, work[j], gates[j]))
            && (forall id :: id in s.rows && (forall j :: 0 <= j < n ==> work[j].id != id) ==>
                  id in c.rows && c.rows[id] == s.rows[id])
            && (forall j :: n <= j < |work| ==> work[j] in c.flight)
  {
    hide Fire, Concluded;
    if n > 0 {
      FireAllConcludes(s, work, gates, n - 1);
      var b := FireAll(s, work, gates, n - 1);
      var f, gate := work[n - 1], gates[n - 1];
      assert b.rows[f.id] == s.rows[f.id];
      FireConcludes(b, f, gate);
      ConcludedFrom(b.rows, s.rows, Fire(b, f, gate), f, gate);
      forall j | 0 <= j < n - 1
        ensures Concluded(s.rows, Fire(b, f, gate), work[j], gates[j])
      {
        StaysConcluded(s.rows, b, f, gate, work[j], gates[j]);
      }
    }
  }

  lemma ConcludedFrom(rows: map<string, Row>, others: map<string, Row>, c: State, f: Firing, gate: Gate)
    requires Concluded(rows, c, f, gate) && f.id in others && others[f.id] == rows[f.id]
    ensures Concluded(others, c, f, gate)
  {
  }

  lemma FoundSeparately(s: State, ids: seq<string>, now: Instant)
    requires Distinct(ids) && forall i :: 0 <= i < |ids| ==> ids[i] in s.rows && Plain(ids[i])
    ensures var work := Found(s.rows, ids, now);
            && Separate(work)
            && Started(s, work, now).rows == s.rows
            && forall j :: 0 <= j < |work| ==>
                 work[j] in Started(s, work, now).flight && s.rows[work[j].id] == work[j].row
  {
    hide Found;
  }

  /** After a scan, a row the scan read has moved on if and only if its occurrence now has a transfer and its owner's
      transfers were not disabled when its turn came; a row it did not read is as it was. In particular a row never moves
      past an occurrence without a transfer. */
  lemma ScanMovesPaidRowsOnly(s: State, ids: seq<string>, gates: seq<Gate>, now: Instant)
    requires |ids| == |gates| && Distinct(ids)
    requires forall i :: 0 <= i < |ids| ==> ids[i] in s.rows && Plain(ids[i])
    ensures var work := Found(s.rows, ids, now);
            var c := FireAll(Started(s, work, now), work, gates, |work|);
            && (forall j :: 0 <= j < |work| ==> Concluded(s.rows, c, work[j], gates[j]))
            && (forall id :: id in s.rows && id !in ids ==> id in c.rows && c.rows[id] == s.rows[id])
  {
    hide *;
    var work := Found(s.rows, ids, now);
    FoundSeparately(s, ids, now);
    FireAllConcludes(Started(s, work, now), work, gates, |work|);
    forall id | id in s.rows && id !in ids
      ensures forall j :: 0 <= j < |work| ==> work[j].id != id
    {
    }
  }

  /** `runDueNow` on the tables. */
  class Scheduler {
    var rows: map<string, Row>
    var flight: multiset<Firing>
    var made: seq<Made>
    var clock: Instant

    ghost function Tables(): State
      reads this
    {
      State(rows, flight, made, clock)
    }

    /** `transfers.initiate` under the occurrence's key; false is an exception. */
    method MakeTransfer(f: Firing, gate: Gate) returns (returned: bool)
      requires f in flight && !f.paid
      modifies this`flight, this`made
      ensures Tables() == InitiateStep(old(Tables()), f, gate)
      ensures returned == Returns(old(Tables()), f, gate)
      ensures flight == old(flight) - multiset{f} + if returned then multiset{f.(paid := true)} else multiset{}
    {
      flight := flight - multiset{f};
      if !Writable(f.row.nextRunAt) || gate.Locked? {
        return false;
      }
      var key := Key(f.id, f.row.nextRunAt);
      if !Taken(made, key) {
        if !gate.Able? {
          return false;
        }
        made := made + [Made(f.id, f.row.nextRunAt, key)];
      }
      flight := flight + multiset{f.(paid := true)};
      return true;
    }

    /** One pass of the loop: an exception leaves the row as it was. */
    method FireRow(f: Firing, gate: Gate) returns (returned: bool)
      requires f in flight && !f.paid
      modifies this`flight, this`made, this`rows
      ensures Tables() == Fire(old(Tables()), f, gate)
      ensures flight == old(flight) - multiset{f}
      ensures returned == Returns(old(Tables()), f, gate)
    {
      hide Returns, InitiateStep, AdvanceStep;
      returned := MakeTransfer(f, gate);
      if returned {
        MoveOn(f.(paid := true));
      }
    }

    /** The update of the row after its transfer. */
    method MoveOn(g: Firing)
      requires g in flight && g.paid
      modifies this`flight, this`rows
      ensures Tables() == AdvanceStep(old(Tables()), g)
      ensures flight == old(flight) - multiset{g}
    {
      hide Advanced;
      flight := flight - multiset{g};
      if g.id in rows {
        rows := rows[g.id := Advanced(rows[g.id], g)];
      }
    }

    /** The loop over the rows a scan read. */
    method FireEach(work: seq<Firing>, gates: seq<Gate>) returns (count: nat)
      requires |work| == |gates|
      requires forall j :: 0 <= j < |work| ==> work[j] in flight && !work[j].paid
      requires forall j, k :: 0 <= j < k < |work| ==> work[j] != work[k]
      modifies this`flight, this`made, this`rows
      ensures Tables() == FireAll(old(Tables()), work, gates, |work|)
      ensures count == Returned(old(Tables()), work, gates, |work|)
    {
      hide *;
      count := 0;
      var i := 0;
      NothingFired(Tables(), work, gates);
      while i < |work|
        invariant 0 <= i <= |work|
        invariant Tables() == FireAll(old(Tables()), work, gates, i)
        invariant count == Returned(old(Tables()), work, gates, i)
        invariant forall j :: i <= j < |work| ==> work[j] in flight
      {
        FireOneMore(old(Tables()), work, gates, i);
        var returned := FireRow(work[i], gates[i]);
        count := count + if returned then 1 else 0;
        i := i + 1;
      }
    }

    /** The rows `findMany` returned, at most a hundred of the due ones, then one firing for each. */
    method RunDueNow(now: Instant, ids: seq<string>, gates: seq<Gate>) returns (count: nat)
      requires |ids| == |gates| <= 100 && Distinct(ids) && OnTime(Tables(), now)
      requires forall i :: 0 <= i < |ids| ==> ids[i] in rows && Due(rows[ids[i]], now) && Plain(ids[i])
      modifies this
      ensures forall i :: 0 <= i < |ids| ==>
                ids[i] in rows &&
                var was := old(rows)[ids[i]];
                if !gates[i].Locked? && PaidFor(made, Firing(ids[i], was, now, false)) then MovedOn(was, rows[ids[i]], now)
                else rows[ids[i]] == was
      ensures forall id :: id in old(rows) && id !in ids ==> id in rows && rows[id] == old(rows)[id]
      ensures var work := Found(old(rows), ids, now);
              var begun := Started(old(Tables()), work, now);
              Tables() == FireAll(begun, work, gates, |work|) && count == Returned(begun, work, gates, |work|)
    {
      hide FireAll, Returned, Due, OnTime, Found, MovedOn, PaidFor;
      var work := Found(rows, ids, now);
      flight := flight + multiset(work);
      if work != [] {
        clock := now;
      }
      count := FireEach(work, gates);
      ScanMovesPaidRowsOnly(old(Tables()), ids, gates, now);
    }
  }
}
