/** Recurring transfers over time: where a scan leaves each schedule, that the schedule is then paid again, and that a
    paused or cancelled one is not. */
module Occurrences {
  import opened Sums
  import opened Calendar
  import opened Iso
  import opened Schedule
  import opened Recurring
  import Bank

  /** The clock has come to `t`. */
  ghost predicate Reached(now: Instant, t: Instant) {
    t.day < now.day || (t.day == now.day && t.time <= now.time)
  }

  /** Some transfer was made for this occurrence of the schedule. */
  ghost predicate Paid(made: seq<Made>, id: string, occurrence: Instant) {
    exists i :: 0 <= i < |made| && made[i].id == id && made[i].occurrence == occurrence
  }

  // ----- where a schedule goes -----

  /** `t` is on the chosen weekday, one to seven days after `now`, or `skip` days more. */
  ghost predicate NextWeekday(now: Instant, t: Instant, dayOf: nat, skip: int) {
    1 + skip <= t.day - now.day <= 7 + skip && WeekDay(t.day) == dayOf % 7
  }

  /** The chosen day, or the last one, of the month after `c`'s; of the month after that when `c`'s own day number does
      not exist in it. */
  ghost predicate NextMonthly(c: Civil, d: Civil, dayOf: nat)
    requires ValidCivil(c) && ValidCivil(d)
  {
    var (y, m) := if c.month == 11 then (c.year + 1, 0) else (c.year, c.month + 1);
    var (z, n) := if m == 11 then (y + 1, 0) else (y, m + 1);
    if c.day <= DaysInMonth(y, m) then
      d.year == y && d.month == m && d.day == Min(dayOf, DaysInMonth(y, m))
    else
      d.year == z && d.month == n && d.day == Min(dayOf, DaysInMonth(z, n))
  }

  /** A schedule asked at `now` goes to nine o'clock of the day its frequency names. Day 0 of a month, and the year 0, for
      which the code asks 1900 how long February is, are left open. */
  ghost predicate GoesTo(now: Instant, frequency: Frequency, dayOf: nat, t: Instant) {
    && t.time == 9 * 60 * 60 * 1000
    && match frequency
       case Weekly => NextWeekday(now, t, dayOf, 0)
       case Biweekly => NextWeekday(now, t, dayOf, 7)
       case Monthly =>
         var c, d := FromDay(now.day), FromDay(t.day);
         && ValidCivil(c) && ValidCivil(d)
         && (dayOf >= 1 && d.year != 0 ==> NextMonthly(c, d, dayOf))
  }

  lemma NextRunGoes(now: Instant, frequency: Frequency, dayOf: nat)
    ensures GoesTo(now, frequency, dayOf, NextRunAt(now, frequency, dayOf))
  {
    hide NextRunDay, FromDay;
    var t := NextRunAt(now, frequency, dayOf);
    FromDayIsRight(now.day);
    FromDayIsRight(t.day);
    WeeksLandOnWeekday(now, dayOf);
    if frequency.Monthly? && dayOf >= 1 && DateOf(t).year != 0 {
      MonthsLandOnDay(now, dayOf);
      TargetIsNext(DateOf(now), DateOf(t), dayOf);
    }
  }

  lemma TargetIsNext(c: Civil, d: Civil, dayOf: nat)
    requires ValidCivil(c) && ValidCivil(d) && d.year != 0
    requires var (y, m) := TargetMonth(c); d == Civil(y, m, Min(dayOf, LastDay(y, m)))
    ensures NextMonthly(c, d, dayOf)
  {
    hide LastDay;
    var (y, m) := TargetMonth(c);
    LastDayIsMonthLength(y, m);
  }

  /** The one case in which a scan can leave its row due: a monthly schedule on day 0, run on the last day of a month that
      is no longer than the next one's. */
  ghost predicate StaysOnEve(now: Instant, row: Row) {
    var c := FromDay(now.day);
    && ValidCivil(c)
    && row.frequency == Monthly && row.dayOf == 0
    && c.day == DaysInMonth(c.year, c.month)
    && (c.month == 11 || c.day <= DaysInMonth(c.year, c.month + 1))
    && now.time >= 9 * 60 * 60 * 1000
  }

  lemma NextRunIsAhead(now: Instant, row: Row)
    ensures Reached(now, NextRunAt(now, row.frequency, row.dayOf)) <==> StaysOnEve(now, row)
  {
    FromDayIsRight(now.day);
    StrictlyLaterExactly(now, row.frequency, row.dayOf);
    NextRunDayIsLater(now.day, row.frequency, row.dayOf);
  }

  /** The tables after a scan. */
  ghost function AfterScan(s: State, ids: seq<string>, gates: seq<Bank.Gate>, now: Instant): State
    requires |ids| == |gates| && forall i :: 0 <= i < |ids| ==> ids[i] in s.rows
  {
    var work := Found(s.rows, ids, now);
    FireAll(Started(s, work, now), work, gates, |work|)
  }

  /** What a scan may be given: different due rows, and the clock. */
  ghost predicate Scan(s: State, ids: seq<string>, gates: seq<Bank.Gate>, now: Instant) {
    && |ids| == |gates| && Distinct(ids)
    && ValidInstant(now) && Reached(now, s.clock)
    && forall i :: 0 <= i < |ids| ==>
         ids[i] in s.rows && s.rows[ids[i]].active && Reached(now, s.rows[ids[i]].nextRunAt)
  }

  lemma ScanSteps(s: State, ids: seq<string>, gates: seq<Bank.Gate>, now: Instant)
    requires Sound(s) && Scan(s, ids, gates, now)
    ensures Sound(AfterScan(s, ids, gates, now))
    ensures var work := Found(s.rows, ids, now); Sound(Started(s, work, now))
  {
    hide Sound, Found;
    var work := Found(s.rows, ids, now);
    var t := Started(s, work, now);
    ScanIsRun(s, ids, gates, now);
    RunStaysSound(s, PickLabels(ids, now));
    RunStaysSound(t, FireLabels(t, work, gates, |work|));
  }

  /** On sound tables a key is taken exactly by its own schedule and occurrence. */
  lemma PaidExactly(s: State, f: Firing)
    requires Sound(s) && Plain(f.id)
    ensures PaidFor(s.made, f) <==> Paid(s.made, f.id, f.row.nextRunAt)
  {
    hide Key, Writable, SoundRows, SoundFlight;
    forall i | 0 <= i < |s.made| && Writable(f.row.nextRunAt)
      ensures s.made[i].key == Key(f.id, f.row.nextRunAt) <==>
              s.made[i].id == f.id && s.made[i].occurrence == f.row.nextRunAt
    {
      KeyNamesOccurrence(s.made[i].id, s.made[i].occurrence, f.id, f.row.nextRunAt);
    }
  }

  /** A scanned row whose occurrence is paid, its owner not locked out, was run now, waits at the next date of its own
      schedule and is not due any more, outside the day-0 case; any other scanned row is as it was. */
  ghost predicate Advances(was: Row, row: Row, now: Instant) {
    && row.lastRunAt == Some(now)
    && row.active == was.active && row.frequency == was.frequency && row.dayOf == was.dayOf
    && GoesTo(now, was.frequency, was.dayOf, row.nextRunAt)
    && (Reached(now, row.nextRunAt) <==> StaysOnEve(now, was))
  }

  lemma ScanAdvances(s: State, ids: seq<string>, gates: seq<Bank.Gate>, now: Instant, j: nat)
    requires Sound(s) && Scan(s, ids, gates, now) && j < |ids|
    ensures var was, c := s.rows[ids[j]], AfterScan(s, ids, gates, now);
            && ids[j] in c.rows
            && if gates[j] != Bank.Locked && Paid(c.made, ids[j], was.nextRunAt) then Advances(was, c.rows[ids[j]], now)
               else c.rows[ids[j]] == was
  {
    hide Sound, Found, FireAll, GoesTo, StaysOnEve, NextRunAt, PaidFor;
    PlainIds(s, ids);
    ScanMovesPaidRowsOnly(s, ids, gates, now);
    ScanSteps(s, ids, gates, now);
    var was, work := s.rows[ids[j]], Found(s.rows, ids, now);
    assert Concluded(s.rows, AfterScan(s, ids, gates, now), work[j], gates[j]);
    PaidExactly(AfterScan(s, ids, gates, now), work[j]);
    NextRunGoes(now, was.frequency, was.dayOf);
    NextRunIsAhead(now, was);
  }

  lemma PlainIds(s: State, ids: seq<string>)
    requires Sound(s) && forall i :: 0 <= i < |ids| ==> ids[i] in s.rows
    ensures forall i :: 0 <= i < |ids| ==> Plain(ids[i])
  {
  }

  // ----- a due schedule is paid -----

  lemma FirePays(s: State, f: Firing, gate: Bank.Gate)
    requires f in s.flight && !f.paid && Writable(f.row.nextRunAt) && gate == Bank.Able
    ensures PaidFor(Fire(s, f, gate).made, f)
  {
    hide Key, Writable, NextRunAt;
    var c := InitiateStep(s, f, gate);
    if |c.made| > |s.made| {
      assert c.made[|s.made|].key == Key(f.id, f.row.nextRunAt);
    }
  }

  lemma FireKeepsPaid(s: State, f: Firing, gate: Bank.Gate, g: Firing)
    requires f in s.flight && !f.paid && PaidFor(s.made, g)
    ensures PaidFor(Fire(s, f, gate).made, g)
  {
    hide Key, Writable, NextRunAt, InitiateStep;
    InitiateConcludes(s, f, gate);
    TakenGrows(s.made, InitiateStep(s, f, gate).made, Key(g.id, g.row.nextRunAt));
  }

  lemma FireKeepsClock(s: State, f: Firing, gate: Bank.Gate)
    ensures Fire(s, f, gate).clock == s.clock
  {
    hide InitiateStep, AdvanceStep, Returns;
    StepsKeepClock(s, f, gate);
    StepsKeepClock(InitiateStep(s, f, gate), f.(paid := true), gate);
  }

  lemma StepsKeepClock(s: State, f: Firing, gate: Bank.Gate)
    ensures InitiateStep(s, f, gate).clock == s.clock && AdvanceStep(s, f).clock == s.clock
  {
    hide Key, Writable, Advanced, Taken;
  }

  lemma {:induction false} FireAllPays(s: State, work: seq<Firing>, gates: seq<Bank.Gate>, n: nat, j: nat)
    requires j < n <= |work| == |gates| && Separate(work)
    requires forall k :: 0 <= k < |work| ==>
                           work[k] in s.flight && work[k].id in s.rows && s.rows[work[k].id] == work[k].row
    requires gates[j] == Bank.Able && Writable(work[j].row.nextRunAt)
    ensures PaidFor(FireAll(s, work, gates, n).made, work[j])
  {
    hide Fire, PaidFor, Concluded, Writable;
    FireAllConcludes(s, work, gates, n - 1);
    var b := FireAll(s, work, gates, n - 1);
    var f := work[n - 1];
    assert b.rows[f.id] == f.row;
    if j == n - 1 {
      FirePays(b, f, gates[j]);
    } else {
      FireAllPays(s, work, gates, n - 1, j);
      FireKeepsPaid(b, f, gates[n - 1], work[j]);
    }
  }

  /** The years an ISO date can name. */
  ghost predicate HasIsoDate(t: Instant) {
    0 <= t.time < 24 * 60 * 60 * 1000 && -999_999 <= FromDay(t.day).year <= 999_999
  }

  lemma DatedIsWritable(t: Instant)
    ensures Writable(t) <==> HasIsoDate(t)
  {
  }

  /** A scan that reads a due row, and can make its transfer, leaves its occurrence paid. */
  lemma ScanPays(s: State, ids: seq<string>, gates: seq<Bank.Gate>, now: Instant, j: nat)
    requires Sound(s) && Scan(s, ids, gates, now) && j < |ids| && gates[j] == Bank.Able
    requires HasIsoDate(s.rows[ids[j]].nextRunAt)
    ensures Paid(AfterScan(s, ids, gates, now).made, ids[j], s.rows[ids[j]].nextRunAt)
  {
    hide Sound, Found, FireAll, Writable, PaidFor;
    DatedIsWritable(s.rows[ids[j]].nextRunAt);
    var work := Found(s.rows, ids, now);
    PlainIds(s, ids);
    FoundSeparately(s, ids, now);
    FireAllPays(Started(s, work, now), work, gates, |work|, j);
    ScanSteps(s, ids, gates, now);
    PaidExactly(AfterScan(s, ids, gates, now), work[j]);
  }

  /** A scan that reads every due row, and can make every transfer, pays all of them and leaves no row due. */
  lemma FullScanLeavesNothingDue(s: State, ids: seq<string>, gates: seq<Bank.Gate>, now: Instant)
    requires Sound(s) && Scan(s, ids, gates, now)
    requires forall id :: id in s.rows && s.rows[id].active && Reached(now, s.rows[id].nextRunAt) ==> id in ids
    requires forall j :: 0 <= j < |ids| ==>
                           && gates[j] == Bank.Able
                           && HasIsoDate(s.rows[ids[j]].nextRunAt) && !StaysOnEve(now, s.rows[ids[j]])
    ensures var c := AfterScan(s, ids, gates, now);
            && (forall j :: 0 <= j < |ids| ==> Paid(c.made, ids[j], s.rows[ids[j]].nextRunAt))
            && (forall id :: id in s.rows ==>
                  id in c.rows && !(c.rows[id].active && Reached(now, c.rows[id].nextRunAt)))
  {
    hide Sound, AfterScan, HasIsoDate, Paid, GoesTo, StaysOnEve, Reached;
    var c := AfterScan(s, ids, gates, now);
    forall j | 0 <= j < |ids|
      ensures Paid(c.made, ids[j], s.rows[ids[j]].nextRunAt)
    {
      ScanPays(s, ids, gates, now, j);
    }
    forall id | id in s.rows
      ensures id in c.rows && !(c.rows[id].active && Reached(now, c.rows[id].nextRunAt))
    {
      OthersStay(s, ids, gates, now, id);
      if id in ids {
        var j :| 0 <= j < |ids| && ids[j] == id;
        ScanAdvances(s, ids, gates, now, j);
      }
    }
  }

  lemma OthersStay(s: State, ids: seq<string>, gates: seq<Bank.Gate>, now: Instant, id: string)
    requires Sound(s) && Scan(s, ids, gates, now) && id in s.rows
    ensures id !in ids ==> var c := AfterScan(s, ids, gates, now); id in c.rows && c.rows[id] == s.rows[id]
  {
    hide Sound, Found, FireAll;
    PlainIds(s, ids);
    ScanMovesPaidRowsOnly(s, ids, gates, now);
  }

  /** Nothing later than the clock is paid for. */
  lemma NothingAheadIsPaid(s: State, id: string, t: Instant)
    requires Sound(s) && !Reached(s.clock, t)
    ensures !Paid(s.made, id, t)
  {
    hide Key, Writable;
  }

  lemma ScanClock(s: State, ids: seq<string>, gates: seq<Bank.Gate>, now: Instant)
    requires |ids| == |gates| && forall i :: 0 <= i < |ids| ==> ids[i] in s.rows
    ensures ids != [] ==> AfterScan(s, ids, gates, now).clock == now
  {
    FiringKeepsClock(Started(s, Found(s.rows, ids, now), now), Found(s.rows, ids, now), gates, |ids|);
  }

  lemma {:induction false} FiringKeepsClock(s: State, work: seq<Firing>, gates: seq<Bank.Gate>, n: nat)
    requires n <= |work| == |gates|
    ensures FireAll(s, work, gates, n).clock == s.clock
  {
    hide Fire;
    if n > 0 {
      FiringKeepsClock(s, work, gates, n - 1);
      FireKeepsClock(FireAll(s, work, gates, n - 1), work[n - 1], gates[n - 1]);
    }
  }

  /** In every run: once a scan has paid a schedule and moved it on, the next scan at or after the date it waits for
      makes it one more transfer, for that date, which had none. */
  lemma SchedulesKeepPaying(s: State, labels: seq<Label>, ids: seq<string>, gates: seq<Bank.Gate>, now: Instant, j: nat,
                            ids2: seq<string>, gates2: seq<Bank.Gate>, now2: Instant, k: nat)
    requires Starting(s) && Scan(Run(s, labels), ids, gates, now) && j < |ids|
    requires var b, c := Run(s, labels), AfterScan(Run(s, labels), ids, gates, now);
             && gates[j] != Bank.Locked && Paid(c.made, ids[j], b.rows[ids[j]].nextRunAt)
             && !StaysOnEve(now, b.rows[ids[j]])
             && Scan(c, ids2, gates2, now2) && k < |ids2| && ids2[k] == ids[j] && gates2[k] == Bank.Able
             && HasIsoDate(c.rows[ids2[k]].nextRunAt)
    ensures var c := AfterScan(Run(s, labels), ids, gates, now);
            var due := c.rows[ids2[k]].nextRunAt;
            && !Paid(c.made, ids[j], due)
            && Paid(AfterScan(c, ids2, gates2, now2).made, ids[j], due)
  {
    hide Run, Sound, AfterScan, StaysOnEve, Scan, HasIsoDate, Paid, GoesTo;
    RunIsSound(s, labels);
    var b := Run(s, labels);
    TwoScans(b, ids, gates, now, j, ids2, gates2, now2, k);
  }

  lemma TwoScans(b: State, ids: seq<string>, gates: seq<Bank.Gate>, now: Instant, j: nat,
                 ids2: seq<string>, gates2: seq<Bank.Gate>, now2: Instant, k: nat)
    requires Sound(b) && Scan(b, ids, gates, now) && j < |ids|
    requires var c := AfterScan(b, ids, gates, now);
             && gates[j] != Bank.Locked && Paid(c.made, ids[j], b.rows[ids[j]].nextRunAt)
             && !StaysOnEve(now, b.rows[ids[j]])
             && Scan(c, ids2, gates2, now2) && k < |ids2| && ids2[k] == ids[j] && gates2[k] == Bank.Able
             && HasIsoDate(c.rows[ids2[k]].nextRunAt)
    ensures var c := AfterScan(b, ids, gates, now);
            var due := c.rows[ids2[k]].nextRunAt;
            && !Paid(c.made, ids[j], due)
            && Paid(AfterScan(c, ids2, gates2, now2).made, ids[j], due)
  {
    hide Sound, AfterScan, StaysOnEve, HasIsoDate, Paid, GoesTo, Reached;
    ScanAdvances(b, ids, gates, now, j);
    ScanSteps(b, ids, gates, now);
    ScanClock(b, ids, gates, now);
    var c := AfterScan(b, ids, gates, now);
    NothingAheadIsPaid(c, ids[j], c.rows[ids[j]].nextRunAt);
    ScanPays(c, ids2, gates2, now2, k);
  }

  // ----- a stopped schedule is not -----

  /** Paused or cancelled, with no firing of it in flight. */
  ghost predicate Stopped(s: State, id: string) {
    && (id in s.rows ==> !s.rows[id].active)
    && forall f :: f in s.flight ==> f.id != id
  }

  /** Neither creates the schedule anew nor switches it on again. */
  ghost predicate LeavesStopped(l: Label, id: string) {
    && (l.Create? ==> l.id != id)
    && (l.Edit? && l.id == id ==> l.active != Some(true))
  }

  ghost function MadeFor(made: seq<Made>, id: string): seq<Made> {
    if made == [] then []
    else MadeFor(made[..|made| - 1], id) + if made[|made| - 1].id == id then [made[|made| - 1]] else []
  }

  lemma StepStaysStopped(s: State, l: Label, id: string)
    requires Stopped(s, id) && LeavesStopped(l, id)
    ensures Stopped(Exec(s, l), id) && MadeFor(Exec(s, l).made, id) == MadeFor(s.made, id)
  {
    hide InitiateStep, AdvanceStep, NextRunAt, OnTime, MadeFor;
    match l
    case Initiate(f, gate) => InitiateStaysStopped(s, f, gate, id);
    case Advance(f) => AdvanceStaysStopped(s, f, id);
    case _ =>
  }

  lemma InitiateStaysStopped(s: State, f: Firing, gate: Bank.Gate, id: string)
    requires Stopped(s, id)
    ensures Stopped(InitiateStep(s, f, gate), id) && MadeFor(InitiateStep(s, f, gate).made, id) == MadeFor(s.made, id)
  {
    hide Key, Writable, Taken;
  }

  lemma AdvanceStaysStopped(s: State, f: Firing, id: string)
    requires Stopped(s, id)
    ensures Stopped(AdvanceStep(s, f), id) && AdvanceStep(s, f).made == s.made
  {
    hide NextRunAt;
  }

  /** A schedule paused or cancelled outside a scan gets no more transfers until somebody switches it on again. */
  lemma {:induction false} StoppedSchedulesStayStopped(s: State, labels: seq<Label>, id: string)
    requires Stopped(s, id) && forall k :: 0 <= k < |labels| ==> LeavesStopped(labels[k], id)
    ensures Stopped(Run(s, labels), id) && MadeFor(Run(s, labels).made, id) == MadeFor(s.made, id)
  {
    hide Exec, MadeFor, Stopped, LeavesStopped;
    if labels != [] {
      var n := |labels| - 1;
      StoppedSchedulesStayStopped(s, labels[..n], id);
      StepStaysStopped(Run(s, labels[..n]), labels[n], id);
    }
  }

  // ----- single steps -----

  /** An edit in time sets the fields it names, keeps the others, and recomputes the next run from now if and only if it
      changes the schedule. */
  lemma EditsSetWhatTheyName(s: State, id: string, frequency: Option<Frequency>, dayOf: Option<nat>, active: Option<bool>,
                             now: Instant)
    requires id in s.rows && ValidInstant(now) && Reached(now, s.clock)
    ensures var c := Exec(s, Edit(id, frequency, dayOf, active, now));
            && c.rows.Keys == s.rows.Keys && c.flight == s.flight && c.made == s.made && c.clock == now
            && (forall other :: other in s.rows && other != id ==> c.rows[other] == s.rows[other])
            && var was, row := s.rows[id], c.rows[id];
            && (match active case Some(on) => row.active == on case None => row.active == was.active)
            && (match frequency case Some(f) => row.frequency == f case None => row.frequency == was.frequency)
            && (match dayOf case Some(d) => row.dayOf == d case None => row.dayOf == was.dayOf)
            && row.lastRunAt == was.lastRunAt
            && if row.frequency == was.frequency && row.dayOf == was.dayOf then row.nextRunAt == was.nextRunAt
               else GoesTo(now, row.frequency, row.dayOf, row.nextRunAt)
  {
    hide NextRunAt, GoesTo;
    var row := Exec(s, Edit(id, frequency, dayOf, active, now)).rows[id];
    NextRunGoes(now, row.frequency, row.dayOf);
  }

  /** A new schedule is on, never run, and waits for its first date; a cancelled one is gone. */
  lemma CreatedAndCancelled(s: State, id: string, frequency: Frequency, dayOf: nat, now: Instant)
    requires id !in s.rows && Plain(id) && ValidInstant(now) && Reached(now, s.clock)
    ensures var c := Exec(s, Create(id, frequency, dayOf, now));
            && c.rows.Keys == s.rows.Keys + {id}
            && c.rows[id].active && c.rows[id].lastRunAt == None
            && c.rows[id].frequency == frequency && c.rows[id].dayOf == dayOf
            && GoesTo(now, frequency, dayOf, c.rows[id].nextRunAt)
            && Exec(c, Cancel(id)).rows == s.rows
  {
    hide NextRunAt, GoesTo;
    NextRunGoes(now, frequency, dayOf);
    var c := Exec(s, Create(id, frequency, dayOf, now));
    assert Exec(c, Cancel(id)).rows == s.rows;
  }

  /** A scan reads a row if and only if it is on and its date has come. */
  lemma PicksExactlyDueRows(s: State, id: string, now: Instant)
    requires id in s.rows && ValidInstant(now) && Reached(now, s.clock)
    ensures var c := Exec(s, Pick(id, now));
            c.flight == s.flight + if s.rows[id].active && Reached(now, s.rows[id].nextRunAt) then
                                     multiset{Firing(id, s.rows[id], now, false)}
                                   else multiset{}
  {
  }

  /** A firing makes a transfer if and only if its occurrence has a date to name it, none yet, and the service can make it;
      it goes on to the row's update then, and also when there was a transfer already and the owner is not locked out. */
  lemma FiringsExactly(s: State, f: Firing, gate: Bank.Gate)
    requires Sound(s) && f in s.flight && !f.paid
    ensures var c := Exec(s, Initiate(f, gate));
            var dated, paid := HasIsoDate(f.row.nextRunAt), Paid(s.made, f.id, f.row.nextRunAt);
            && |c.made| == |s.made| + (if dated && !paid && gate == Bank.Able then 1 else 0) && s.made <= c.made
            && (|c.made| > |s.made| ==>
                  c.made[|s.made|].id == f.id && c.made[|s.made|].occurrence == f.row.nextRunAt)
            && c.flight == s.flight - multiset{f} +
                 (if dated && gate != Bank.Locked && (paid || gate == Bank.Able) then multiset{f.(paid := true)}
                  else multiset{})
            && c.rows == s.rows && c.clock == s.clock
  {
    hide Key, Writable, HasIsoDate, Sound, Paid;
    FlightIsPlain(s, f);
    PaidExactly(s, f);
    DatedIsWritable(f.row.nextRunAt);
  }

  lemma FlightIsPlain(s: State, f: Firing)
    requires Sound(s) && f in s.flight
    ensures Plain(f.id)
  {
    assert SoundFiring(f, s.made, s.clock);
  }

  /** The update after a transfer writes the dates of the row the scan read and keeps what was edited since. */
  lemma UpdatesKeepEdits(s: State, f: Firing)
    requires f in s.flight && f.paid && f.id in s.rows
    ensures var was, row := s.rows[f.id], Exec(s, Advance(f)).rows[f.id];
            && row.active == was.active && row.frequency == was.frequency && row.dayOf == was.dayOf
            && row.lastRunAt == Some(f.now)
            && GoesTo(f.now, f.row.frequency, f.row.dayOf, row.nextRunAt)
    ensures forall id :: id in s.rows && id != f.id ==> Exec(s, Advance(f)).rows[id] == s.rows[id]
    ensures Exec(s, Advance(f)).rows.Keys == s.rows.Keys && Exec(s, Advance(f)).made == s.made
  {
    hide NextRunAt, GoesTo;
    NextRunGoes(f.now, f.row.frequency, f.row.dayOf);
  }
}
