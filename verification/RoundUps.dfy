/** Round-ups: spare cents recorded per purchase and swept into savings once a day. */
module RoundUps {
  import opened Sums
  import opened Splits
  import Bank

  type Gate = Bank.Gate

  datatype Config = Config(enabled: bool, roundUps: bool, hasSource: bool, hasSavings: bool, splits: seq<Split>)

  datatype Entry = Entry(user: string, tx: string, cents: int, applied: bool)

  /** A sweep's transfer; its idempotency key names the user and the UTC day. `shared` notes that the user had splits then. */
  datatype Swept = Swept(user: string, day: int, cents: int, shared: bool)

  datatype Goal = Goal(id: string, cents: int)

  datatype State = State(configs: Configs, entries: seq<Entry>, swept: seq<Swept>, goals: seq<Goal>)

  datatype Purchase = Purchase(user: string, tx: string, card: bool, cents: int)

  type Configs = map<string, Config>

  datatype Outcome = Skipped | Applied | Threw

  // ----- recording -----

  function RoundUp(amount: nat): int {
    if amount % 100 == 0 then 0 else 100 - amount % 100
  }

  /** The least amount that makes whole dollars. */
  lemma RoundUpIsLeast(amount: nat, spare: nat)
    requires (amount + spare) % 100 == 0
    ensures 0 <= RoundUp(amount) < 100 && (amount + RoundUp(amount)) % 100 == 0 && RoundUp(amount) <= spare
  {
  }

  predicate Enabled(configs: Configs, user: string) {
    user in configs && configs[user].enabled && configs[user].roundUps
  }

  function Record(configs: Configs, entries: seq<Entry>, p: Purchase): seq<Entry> {
    if !p.card || p.cents >= 0 || !Enabled(configs, p.user) || RoundUp(-p.cents) == 0 then entries
    else entries + [Entry(p.user, p.tx, RoundUp(-p.cents), false)]
  }

  // ----- sweeping -----

  function UnappliedOf(user: string): Entry -> int {
    (e: Entry) => if e.user == user && !e.applied then e.cents else 0
  }

  function AppliedOf(user: string): Entry -> int {
    (e: Entry) => if e.user == user && e.applied then e.cents else 0
  }

  function RecordedOf(user: string): Entry -> int {
    (e: Entry) => if e.user == user then e.cents else 0
  }

  function SweptOf(user: string): Swept -> int {
    (t: Swept) => if t.user == user then t.cents else 0
  }

  function GoalCents(): Goal -> int {
    (g: Goal) => g.cents
  }

  function Unapplied(s: State, user: string): int {
    SumBy(s.entries, UnappliedOf(user))
  }

  function Mark(e: Entry, user: string): Entry {
    if e.user == user && !e.applied then e.(applied := true) else e
  }

  function MarkAll(entries: seq<Entry>, user: string): (r: seq<Entry>)
    ensures |r| == |entries|
  {
    seq(|entries|, i requires 0 <= i < |entries| => Mark(entries[i], user))
  }

  predicate KeyUsed(swept: seq<Swept>, user: string, day: int) {
    exists i :: 0 <= i < |swept| && swept[i].user == user && swept[i].day == day
  }

  function FindGoal(goals: seq<Goal>, id: string): (r: Option<nat>)
    ensures r.Some? ==> r.value < |goals| && goals[r.value].id == id
    ensures r.None? ==> forall i :: 0 <= i < |goals| ==> goals[i].id != id
  {
    if goals == [] then None
    else if goals[|goals| - 1].id == id then Some(|goals| - 1)
    else FindGoal(goals[..|goals| - 1], id)
  }

  /** The goal updates of the first `n` shares; a missing goal throws and the rest are not made. */
  function Credit(goals: seq<Goal>, shares: seq<Share>, n: nat): (seq<Goal>, bool)
    requires n <= |shares|
  {
    if n == 0 then (goals, true)
    else
      var (before, ok) := Credit(goals, shares, n - 1);
      var at := FindGoal(before, shares[n - 1].goal);
      if !ok || at.None? then (before, false)
      else (before[at.value := before[at.value].(cents := before[at.value].cents + shares[n - 1].cents)], true)
  }

  predicate CanSweep(configs: Configs, user: string) {
    Enabled(configs, user) && configs[user].hasSource && configs[user].hasSavings
  }

  /** The sweep's call of `initiate` returns, with a new transfer or the replay of the day's first one. */
  predicate Goes(s: State, user: string, day: int, gate: Gate) {
    CanSweep(s.configs, user) && !gate.Locked? && (KeyUsed(s.swept, user, day) || gate.Able?)
  }

  /** `applyForUser` with the total its caller summed: the transfer, or its replay, then the goals, then the marks. */
  function Apply(s: State, user: string, total: int, day: int, gate: Gate): (State, Outcome) {
    if !Goes(s, user, day, gate) then (s, Skipped)
    else
      var splits := s.configs[user].splits;
      var swept := if KeyUsed(s.swept, user, day) then s.swept
                   else s.swept + [Swept(user, day, total, splits != [])];
      var shares := Allocate(total, splits);
      var (goals, ok) := Credit(s.goals, shares, |shares|);
      if !ok then (s.(swept := swept, goals := goals), Threw)
      else (s.(entries := MarkAll(s.entries, user), swept := swept, goals := goals), Applied)
  }

  /** Once an update throws the later ones are not made. */
  lemma {:induction false} CreditStops(goals: seq<Goal>, shares: seq<Share>, m: nat, n: nat)
    requires m <= n <= |shares| && !Credit(goals, shares, m).1
    ensures Credit(goals, shares, n) == (Credit(goals, shares, m).0, false)
  {
    if m < n {
      CreditStops(goals, shares, m, n - 1);
    }
  }

  // ----- one sweep, whatever happened before it -----

  /** The rows marked applied amount to the transfers made. */
  ghost predicate Level(s: State, user: string) {
    SumBy(s.entries, AppliedOf(user)) == SumBy(s.swept, SweptOf(user))
  }

  lemma {:induction false} MarkedTotals(entries: seq<Entry>, user: string, other: string)
    ensures SumBy(MarkAll(entries, user), AppliedOf(other)) ==
            SumBy(entries, AppliedOf(other)) + if other == user then SumBy(entries, UnappliedOf(user)) else 0
    ensures SumBy(MarkAll(entries, user), UnappliedOf(other)) ==
            if other == user then 0 else SumBy(entries, UnappliedOf(other))
    ensures SumBy(MarkAll(entries, user), RecordedOf(other)) == SumBy(entries, RecordedOf(other))
  {
    if entries != [] {
      var n := |entries| - 1;
      MarkedTotals(entries[..n], user, other);
      assert MarkAll(entries, user)[..n] == MarkAll(entries[..n], user);
    }
  }

  lemma SweptGrows(swept: seq<Swept>, t: Swept, user: string)
    ensures SumBy(swept + [t], SweptOf(user)) == SumBy(swept, SweptOf(user)) + if t.user == user then t.cents else 0
  {
    SumAppend(swept, t, SweptOf(user));
  }

  /** What an application does to the two totals. */
  lemma ApplyMoves(s: State, user: string, total: int, day: int, gate: Gate, other: string)
    ensures var (c, outcome) := Apply(s, user, total, day, gate);
            var made := outcome != Skipped && !KeyUsed(s.swept, user, day);
            && SumBy(c.entries, AppliedOf(other)) == SumBy(s.entries, AppliedOf(other)) +
                 (if outcome == Applied && other == user then Unapplied(s, user) else 0)
            && SumBy(c.swept, SweptOf(other)) == SumBy(s.swept, SweptOf(other)) +
                 (if made && other == user then total else 0)
            && Unapplied(c, other) == (if outcome == Applied && other == user then 0 else Unapplied(s, other))
            && SumBy(c.entries, RecordedOf(other)) == SumBy(s.entries, RecordedOf(other))
  {
    hide SumBy, Allocate, Credit;
    MarkedTotals(s.entries, user, other);
    if Goes(s, user, day, gate) {
      SweptGrows(s.swept, Swept(user, day, total, s.configs[user].splits != []), other);
    }
  }

  ghost predicate GoalKnown(goals: seq<Goal>, id: string) {
    exists i :: 0 <= i < |goals| && goals[i].id == id
  }

  ghost predicate SameIds(a: seq<Goal>, b: seq<Goal>) {
    |a| == |b| && forall i :: 0 <= i < |a| ==> a[i].id == b[i].id
  }

  lemma CreditOneMore(goals: seq<Goal>, shares: seq<Share>, n: nat)
    requires n < |shares| && Credit(goals, shares, n).1 && GoalKnown(Credit(goals, shares, n).0, shares[n].goal)
    ensures var before := Credit(goals, shares, n).0;
            var (after, ok) := Credit(goals, shares, n + 1);
            ok && SameIds(before, after) && SumBy(after, GoalCents()) == SumBy(before, GoalCents()) + shares[n].cents
  {
    hide SumBy;
    var before := Credit(goals, shares, n).0;
    var at := FindGoal(before, shares[n].goal);
    SumUpdate(before, at.value, before[at.value].(cents := before[at.value].cents + shares[n].cents), GoalCents());
  }

  lemma KnownById(a: seq<Goal>, b: seq<Goal>, id: string)
    requires GoalKnown(a, id) && SameIds(a, b)
    ensures GoalKnown(b, id)
  {
    var k :| 0 <= k < |a| && a[k].id == id;
    assert b[k].id == id;
  }

  /** The first `n` shares name goals. */
  ghost predicate AllKnown(goals: seq<Goal>, shares: seq<Share>, n: nat)
    requires n <= |shares|
  {
    forall i :: 0 <= i < n ==> GoalKnown(goals, shares[i].goal)
  }

  lemma KnownByIds(a: seq<Goal>, b: seq<Goal>, id: string)
    requires SameIds(a, b)
    ensures GoalKnown(a, id) <==> GoalKnown(b, id)
  {
    if GoalKnown(a, id) {
      KnownById(a, b, id);
    } else if GoalKnown(b, id) {
      KnownById(b, a, id);
    }
  }

  lemma CreditNext(goals: seq<Goal>, shares: seq<Share>, n: nat)
    requires n < |shares| && SameIds(goals, Credit(goals, shares, n).0)
    ensures Credit(goals, shares, n + 1).1 <==> Credit(goals, shares, n).1 && GoalKnown(goals, shares[n].goal)
    ensures SameIds(goals, Credit(goals, shares, n + 1).0)
  {
    var before := Credit(goals, shares, n).0;
    KnownByIds(goals, before, shares[n].goal);
    assert FindGoal(before, shares[n].goal).Some? <==> GoalKnown(before, shares[n].goal);
  }

  lemma AllKnownNext(goals: seq<Goal>, shares: seq<Share>, n: nat)
    requires n < |shares|
    ensures AllKnown(goals, shares, n + 1) <==> AllKnown(goals, shares, n) && GoalKnown(goals, shares[n].goal)
  {
  }

  lemma NothingCredited(goals: seq<Goal>, shares: seq<Share>)
    ensures Credit(goals, shares, 0) == (goals, true) && SameIds(goals, goals) && AllKnown(goals, shares, 0)
  {
  }

  /** The goal updates of a list of shares all succeed if and only if every share names a goal. */
  lemma {:induction false} CreditSucceedsExactly(goals: seq<Goal>, shares: seq<Share>, n: nat)
    requires n <= |shares|
    ensures Credit(goals, shares, n).1 <==> AllKnown(goals, shares, n)
    ensures SameIds(goals, Credit(goals, shares, n).0)
  {
    if n == 0 {
      NothingCredited(goals, shares);
    } else {
      hide Credit, GoalKnown, SameIds, AllKnown;
      AllKnownNext(goals, shares, n - 1);
      CreditSucceedsExactly(goals, shares, n - 1);
      CreditNext(goals, shares, n - 1);
    }
  }

  /** Every split of the user names a goal. */
  ghost predicate SplitsKnown(s: State, user: string) {
    user in s.configs &&
    forall i :: 0 <= i < |s.configs[user].splits| ==> GoalKnown(s.goals, s.configs[user].splits[i].goal)
  }

  lemma OutcomeExactly(s: State, user: string, total: int, day: int, gate: Gate)
    ensures var outcome := Apply(s, user, total, day, gate).1;
            && (outcome == Skipped <==> !Goes(s, user, day, gate))
            && (Goes(s, user, day, gate) ==> (outcome == Applied <==> SplitsKnown(s, user)))
  {
    hide KeyUsed, Credit, GoalKnown;
    if Goes(s, user, day, gate) {
      var splits := s.configs[user].splits;
      var shares := Allocate(total, splits);
      SharesNameGoals(total, splits);
      CreditSucceedsExactly(s.goals, shares, |shares|);
    }
  }

  lemma SharesNameGoals(total: int, splits: seq<Split>)
    ensures forall i :: 0 <= i < |splits| ==> Allocate(total, splits)[i].goal == splits[i].goal
  {
    if splits != [] {
      AllocationIsExact(total, splits, LargestIndex(splits));
    }
  }

  /** From level books, a sweep leaves them level if and only if it stops before the transfer, or all the user's splits
      name goals and what it marks is what it moves - the summed total when the day's key is unused, nothing when it is
      used - or a split names no goal and it moves nothing. So a second sweep of a day, purchases recorded between the
      sum and the marks, and a missing goal each unbalance them. All of it is known before the call. */
  lemma ApplyKeepsLevelExactly(s: State, user: string, total: int, day: int, gate: Gate)
    requires Level(s, user)
    ensures var moved := if KeyUsed(s.swept, user, day) then 0 else total;
            Level(Apply(s, user, total, day, gate).0, user) <==>
              (!Goes(s, user, day, gate) || (if SplitsKnown(s, user) then Unapplied(s, user) else 0) == moved)
  {
    hide SumBy, Apply, Unapplied, Goes, SplitsKnown, KeyUsed;
    ApplyMoves(s, user, total, day, gate, user);
    OutcomeExactly(s, user, total, day, gate);
  }

  // ----- runs of purchases and daily sweeps -----

  datatype Label =
    | Settle(p: Purchase)
    | Configure(user: string, config: Config)
    | Sweep(user: string, day: int, gate: Gate)

  /** One user's part of `applyDaily`: the sum and its application. */
  function SweepUser(s: State, user: string, day: int, gate: Gate): State {
    if Unapplied(s, user) <= 0 then s else Apply(s, user, Unapplied(s, user), day, gate).0
  }

  function Exec(s: State, l: Label): State {
    match l
    case Settle(p) => s.(entries := Record(s.configs, s.entries, p))
    case Configure(user, config) => s.(configs := s.configs[user := config])
    case Sweep(user, day, gate) => SweepUser(s, user, day, gate)
  }

  function Run(s: State, labels: seq<Label>): State {
    if labels == [] then s else Exec(Run(s, labels[..|labels| - 1]), labels[|labels| - 1])
  }

  /** At most one sweep of a user on a day. */
  ghost predicate OncePerDay(labels: seq<Label>) {
    forall i, j :: 0 <= i < j < |labels| && labels[i].Sweep? && labels[j].Sweep? && labels[i].user == labels[j].user ==>
      labels[i].day != labels[j].day
  }

  /** Every split names a goal. */
  ghost predicate GoalsKnown(configs: Configs, goals: seq<Goal>) {
    forall u, i :: u in configs && 0 <= i < |configs[u].splits| ==> GoalKnown(goals, configs[u].splits[i].goal)
  }

  /** Known goals take every cent of the shares. */
  lemma {:induction false} CreditIsExact(goals: seq<Goal>, shares: seq<Share>, n: nat)
    requires n <= |shares| && forall i :: 0 <= i < |shares| ==> GoalKnown(goals, shares[i].goal)
    ensures var (after, ok) := Credit(goals, shares, n);
            ok && SameIds(goals, after) && SumBy(after, GoalCents()) == SumBy(goals, GoalCents()) + SumBy(shares[..n], CentsOf())
  {
    if n > 0 {
      hide GoalKnown, SumBy;
      CreditIsExact(goals, shares, n - 1);
      KnownById(goals, Credit(goals, shares, n - 1).0, shares[n - 1].goal);
      CreditOneMore(goals, shares, n - 1);
      assert shares[..n] == shares[..n - 1] + [shares[n - 1]];
      SumAppend(shares[..n - 1], shares[n - 1], CentsOf());
    }
  }

  /** What a user's sweep gives the goals. */
  function ToGoals(): Swept -> int {
    (t: Swept) => if t.shared then t.cents else 0
  }

  lemma SharesAreExact(configs: Configs, goals: seq<Goal>, user: string, total: int)
    requires user in configs && GoalsKnown(configs, goals)
    ensures var splits := configs[user].splits;
            var shares := Allocate(total, splits);
            var (after, ok) := Credit(goals, shares, |shares|);
            && ok && SameIds(goals, after)
            && SumBy(after, GoalCents()) == SumBy(goals, GoalCents()) + if splits != [] then total else 0
  {
    var splits := configs[user].splits;
    var shares := Allocate(total, splits);
    if splits != [] {
      AllocationIsExact(total, splits, LargestIndex(splits));
    }
    forall i | 0 <= i < |shares|
      ensures GoalKnown(goals, shares[i].goal)
    {
      assert GoalKnown(goals, splits[i].goal);
    }
    CreditIsExact(goals, shares, |shares|);
    assert shares[..|shares|] == shares;
  }

  lemma KnownCarries(configs: Configs, a: seq<Goal>, b: seq<Goal>)
    requires GoalsKnown(configs, a) && SameIds(a, b)
    ensures GoalsKnown(configs, b)
  {
    forall u, i | u in configs && 0 <= i < |configs[u].splits|
      ensures GoalKnown(b, configs[u].splits[i].goal)
    {
      KnownById(a, b, configs[u].splits[i].goal);
    }
  }

  /** Books level for every user, goals fed exactly by the sweeps since `s`. */
  ghost predicate InStep(s: State, c: State) {
    && (forall user :: Level(c, user))
    && GoalsKnown(c.configs, c.goals) && SameIds(s.goals, c.goals)
    && SumBy(c.goals, GoalCents()) - SumBy(s.goals, GoalCents()) ==
       SumBy(c.swept, ToGoals()) - SumBy(s.swept, ToGoals())
  }

  lemma RecordedUnapplied(configs: Configs, entries: seq<Entry>, p: Purchase, user: string)
    ensures SumBy(Record(configs, entries, p), AppliedOf(user)) == SumBy(entries, AppliedOf(user))
  {
    SumAppend(entries, Entry(p.user, p.tx, RoundUp(if p.cents < 0 then -p.cents else 0), false), AppliedOf(user));
  }

  lemma SweepKeepsStep(s: State, c: State, user: string, day: int, gate: Gate)
    requires InStep(s, c) && !KeyUsed(c.swept, user, day)
    ensures InStep(s, SweepUser(c, user, day, gate))
    ensures var d := SweepUser(c, user, day, gate);
            d.swept == c.swept || exists shared :: d.swept == c.swept + [Swept(user, day, Unapplied(c, user), shared)]
  {
    hide SumBy, Allocate, Credit, Level, MarkAll, GoalsKnown;
    var total := Unapplied(c, user);
    var (d, outcome) := Apply(c, user, total, day, gate);
    if total > 0 && outcome != Skipped {
      SharesAreExact(c.configs, c.goals, user, total);
      KnownCarries(c.configs, c.goals, d.goals);
      var t := Swept(user, day, total, c.configs[user].splits != []);
      assert d.swept == c.swept + [t];
      SumAppend(c.swept, t, ToGoals());
      forall other
        ensures Level(d, other)
      {
        LevelAfter(c, user, total, day, gate, other);
      }
    }
  }

  lemma LevelAfter(c: State, user: string, total: int, day: int, gate: Gate, other: string)
    requires Level(c, other) && total == Unapplied(c, user) && !KeyUsed(c.swept, user, day)
    requires Apply(c, user, total, day, gate).1 == Applied
    ensures Level(Apply(c, user, total, day, gate).0, other)
  {
    hide SumBy, Apply, Unapplied;
    ApplyMoves(c, user, total, day, gate, other);
  }

  ghost predicate Asked(labels: seq<Label>, user: string, day: int) {
    exists k :: 0 <= k < |labels| && labels[k].Sweep? && labels[k].user == user && labels[k].day == day
  }

  /** The sweeps on record are those the run made, on the days it made them. */
  ghost predicate FromLabels(swept: seq<Swept>, labels: seq<Label>) {
    forall i :: 0 <= i < |swept| ==> Asked(labels, swept[i].user, swept[i].day)
  }

  lemma FromMoreLabels(swept: seq<Swept>, labels: seq<Label>, n: nat)
    requires n <= |labels| && FromLabels(swept, labels[..n])
    ensures FromLabels(swept, labels)
  {
    forall i | 0 <= i < |swept|
      ensures Asked(labels, swept[i].user, swept[i].day)
    {
      assert Asked(labels[..n], swept[i].user, swept[i].day);
      var k :| 0 <= k < n && labels[..n][k].Sweep? && labels[..n][k].user == swept[i].user && labels[..n][k].day == swept[i].day;
      assert labels[k] == labels[..n][k];
    }
  }

  lemma FreshKey(swept: seq<Swept>, labels: seq<Label>)
    requires labels != [] && OncePerDay(labels) && FromLabels(swept, labels[..|labels| - 1]) && labels[|labels| - 1].Sweep?
    ensures !KeyUsed(swept, labels[|labels| - 1].user, labels[|labels| - 1].day)
  {
    var n := |labels| - 1;
    forall i | 0 <= i < |swept|
      ensures !(swept[i].user == labels[n].user && swept[i].day == labels[n].day)
    {
      assert Asked(labels[..n], swept[i].user, swept[i].day);
      var k :| 0 <= k < n && labels[..n][k].Sweep? && labels[..n][k].user == swept[i].user && labels[..n][k].day == swept[i].day;
      assert labels[k] == labels[..n][k];
    }
  }

  /** Settings saved during the run name goals that exist. */
  ghost predicate ConfigsKnown(labels: seq<Label>, goals: seq<Goal>) {
    forall k, i :: 0 <= k < |labels| && labels[k].Configure? && 0 <= i < |labels[k].config.splits| ==>
      GoalKnown(goals, labels[k].config.splits[i].goal)
  }

  lemma ConfigureKeepsStep(s: State, c: State, user: string, config: Config)
    requires InStep(s, c) && forall i :: 0 <= i < |config.splits| ==> GoalKnown(s.goals, config.splits[i].goal)
    ensures InStep(s, Exec(c, Configure(user, config)))
  {
    hide SumBy, GoalKnown, Level;
    var d := Exec(c, Configure(user, config));
    forall other
      ensures Level(d, other)
    {
      SameLevel(c, d, other);
    }
    forall i | 0 <= i < |config.splits|
      ensures GoalKnown(c.goals, config.splits[i].goal)
    {
      KnownById(s.goals, c.goals, config.splits[i].goal);
    }
  }

  lemma SameLevel(c: State, d: State, user: string)
    requires Level(c, user) && d.swept == c.swept && SumBy(d.entries, AppliedOf(user)) == SumBy(c.entries, AppliedOf(user))
    ensures Level(d, user)
  {
  }

  lemma SettleKeepsStep(s: State, c: State, p: Purchase)
    requires InStep(s, c)
    ensures InStep(s, Exec(c, Settle(p)))
  {
    hide SumBy, GoalsKnown, Level, Record;
    var d := Exec(c, Settle(p));
    forall user
      ensures Level(d, user)
    {
      RecordedUnapplied(c.configs, c.entries, p, user);
      SameLevel(c, d, user);
    }
  }

  lemma {:induction false} RunStaysInStep(s: State, labels: seq<Label>)
    requires s.entries == [] && s.swept == [] && GoalsKnown(s.configs, s.goals)
    requires OncePerDay(labels) && ConfigsKnown(labels, s.goals)
    ensures InStep(s, Run(s, labels)) && FromLabels(Run(s, labels).swept, labels)
  {
    hide GoalsKnown, SweepUser, Record, SumBy, InStep, Asked;
    if labels == [] {
      StartsInStep(s);
    } else {
      var n := |labels| - 1;
      var l := labels[n];
      RunStaysInStep(s, labels[..n]);
      var c := Run(s, labels[..n]);
      FromMoreLabels(c.swept, labels, n);
      match l
      case Settle(p) => SettleKeepsStep(s, c, p);
      case Configure(user, config) => ConfigureKeepsStep(s, c, user, config);
      case Sweep(user, day, gate) =>
        FreshKey(c.swept, labels);
        SweepKeepsStep(s, c, user, day, gate);
        LastAsked(labels);
    }
  }

  lemma LastAsked(labels: seq<Label>)
    requires labels != [] && labels[|labels| - 1].Sweep?
    ensures Asked(labels, labels[|labels| - 1].user, labels[|labels| - 1].day)
  {
    assert labels[|labels| - 1].Sweep?;
  }

  lemma StartsInStep(s: State)
    requires s.entries == [] && s.swept == [] && GoalsKnown(s.configs, s.goals)
    ensures InStep(s, s)
  {
    EmptyLevel(s);
  }

  lemma EmptyLevel(s: State)
    requires s.entries == [] && s.swept == []
    ensures forall user :: Level(s, user)
  {
  }

  lemma {:induction false} PartsOfRecorded(entries: seq<Entry>, user: string)
    ensures SumBy(entries, RecordedOf(user)) == SumBy(entries, AppliedOf(user)) + SumBy(entries, UnappliedOf(user))
  {
    if entries != [] {
      PartsOfRecorded(entries[..|entries| - 1], user);
    }
  }

  /** Over any run of purchases, changes of settings and sweeps, one a user a day: every recorded cent of every user is
      either in a transfer or still waiting, whatever sweeps failed, and the goals have grown by exactly what was swept
      for users who had splits then. */
  lemma EveryCentIsSweptOrWaiting(s: State, labels: seq<Label>, user: string)
    requires s.entries == [] && s.swept == [] && GoalsKnown(s.configs, s.goals)
    requires OncePerDay(labels) && ConfigsKnown(labels, s.goals)
    ensures var c := Run(s, labels);
            && SumBy(c.entries, AppliedOf(user)) == SumBy(c.swept, SweptOf(user))
            && SumBy(c.entries, RecordedOf(user)) == SumBy(c.swept, SweptOf(user)) + Unapplied(c, user)
            && SumBy(c.goals, GoalCents()) - SumBy(s.goals, GoalCents()) == SumBy(c.swept, ToGoals())
  {
    hide GoalsKnown, Run;
    RunStaysInStep(s, labels);
    var c := Run(s, labels);
    assert Level(c, user);
    PartsOfRecorded(c.entries, user);
  }

  // ----- one row for each event -----

  function RowFor(tx: string): Entry -> int {
    (e: Entry) => if e.tx == tx then 1 else 0
  }

  /** The event of a purchase leaves a row. */
  predicate Records(configs: Configs, p: Purchase) {
    p.card && p.cents < 0 && Enabled(configs, p.user) && RoundUp(-p.cents) != 0
  }

  /** How often the event of a purchase arrived while its user's round-ups were on. */
  function Arrivals(s: State, labels: seq<Label>, tx: string): nat {
    if labels == [] then 0
    else
      var n := |labels| - 1;
      Arrivals(s, labels[..n], tx) +
      if labels[n].Settle? && labels[n].p.tx == tx && Records(Run(s, labels[..n]).configs, labels[n].p) then 1 else 0
  }

  lemma {:induction false} MarkedRows(entries: seq<Entry>, user: string, tx: string)
    ensures SumBy(MarkAll(entries, user), RowFor(tx)) == SumBy(entries, RowFor(tx))
  {
    if entries != [] {
      var n := |entries| - 1;
      MarkedRows(entries[..n], user, tx);
      assert MarkAll(entries, user)[..n] == MarkAll(entries[..n], user);
    }
  }

  lemma ExecRows(c: State, l: Label, tx: string)
    ensures SumBy(Exec(c, l).entries, RowFor(tx)) ==
            SumBy(c.entries, RowFor(tx)) + if l.Settle? && l.p.tx == tx && Records(c.configs, l.p) then 1 else 0
  {
    hide SumBy, Allocate, Credit, KeyUsed;
    match l
    case Settle(p) =>
      if Records(c.configs, p) {
        SumAppend(c.entries, Entry(p.user, p.tx, RoundUp(-p.cents), false), RowFor(tx));
      }
    case Configure(_, _) =>
    case Sweep(user, _, _) => MarkedRows(c.entries, user, tx);
  }

  /** A purchase has exactly one row for each time its event arrived while round-ups were on: recorded at most once if
      and only if the event arrived at most once then. Nothing in the table prevents the second row. */
  lemma {:induction false} OneRowPerArrival(s: State, labels: seq<Label>, tx: string)
    ensures SumBy(Run(s, labels).entries, RowFor(tx)) == SumBy(s.entries, RowFor(tx)) + Arrivals(s, labels, tx)
  {
    hide SumBy, Exec, Records;
    if labels != [] {
      var n := |labels| - 1;
      OneRowPerArrival(s, labels[..n], tx);
      ExecRows(Run(s, labels[..n]), labels[n], tx);
    }
  }

  // ----- a failed sweep -----

  function Recorded(s: State, user: string): int {
    SumBy(s.entries, RecordedOf(user))
  }

  lemma ExecKeepsWaiting(c: State, l: Label, user: string)
    requires !(l.Sweep? && l.user == user)
    ensures Unapplied(Exec(c, l), user) - Recorded(Exec(c, l), user) == Unapplied(c, user) - Recorded(c, user)
  {
    hide SumBy, Apply;
    match l
    case Settle(p) =>
      if Records(c.configs, p) {
        var e := Entry(p.user, p.tx, RoundUp(-p.cents), false);
        SumAppend(c.entries, e, UnappliedOf(user));
        SumAppend(c.entries, e, RecordedOf(user));
      }
    case Configure(_, _) =>
    case Sweep(other, day, gate) => ApplyMoves(c, other, Unapplied(c, other), day, gate, user);
  }

  lemma {:induction false} RunKeepsWaiting(s: State, labels: seq<Label>, user: string)
    requires forall k :: 0 <= k < |labels| ==> !(labels[k].Sweep? && labels[k].user == user)
    ensures Unapplied(Run(s, labels), user) - Recorded(Run(s, labels), user) == Unapplied(s, user) - Recorded(s, user)
  {
    hide Unapplied, Recorded, Exec;
    if labels != [] {
      var n := |labels| - 1;
      RunKeepsWaiting(s, labels[..n], user);
      ExecKeepsWaiting(Run(s, labels[..n]), labels[n], user);
    }
  }

  /** One transfer of `moved` cents was made for the user, and nothing of the user's is waiting. */
  ghost predicate Cleared(b: State, c: State, user: string, day: int, moved: int) {
    && (exists shared :: c.swept == b.swept + [Swept(user, day, moved, shared)])
    && Unapplied(c, user) == 0
  }

  lemma NextSweepMoves(b: State, user: string, day: int)
    requires Goes(b, user, day, Bank.Able) && !KeyUsed(b.swept, user, day)
    requires SplitsKnown(b, user) && Unapplied(b, user) > 0
    ensures Cleared(b, SweepUser(b, user, day, Bank.Able), user, day, Unapplied(b, user))
  {
    hide SumBy, KeyUsed, SplitsKnown, Credit, Allocate, MarkAll, Unapplied;
    OutcomeExactly(b, user, Unapplied(b, user), day, Bank.Able);
    ApplyMoves(b, user, Unapplied(b, user), day, Bank.Able, user);
    var shared := b.configs[user].splits != [];
    assert SweepUser(b, user, day, Bank.Able).swept == b.swept + [Swept(user, day, Unapplied(b, user), shared)];
  }

  lemma RefusedSweepChangesNothing(s: State, user: string, day: int, gate: Gate)
    requires !Goes(s, user, day, gate)
    ensures SweepUser(s, user, day, gate) == s
  {
  }

  /** A sweep that stops before its transfer loses nothing: after it, and after any purchases, changes of settings and other
      users' sweeps, the user's next sweep on an unused day moves what was waiting then and all that was recorded since, in
      one transfer, and leaves nothing waiting. */
  lemma FailedSweepCarriesOver(s: State, user: string, day: int, failed: Gate, between: seq<Label>, later: int)
    requires !Goes(s, user, day, failed)
    requires forall k :: 0 <= k < |between| ==> !(between[k].Sweep? && between[k].user == user)
    requires var b := Run(SweepUser(s, user, day, failed), between);
             && Goes(b, user, later, Bank.Able) && !KeyUsed(b.swept, user, later)
             && SplitsKnown(b, user) && Unapplied(b, user) > 0
    ensures var b := Run(SweepUser(s, user, day, failed), between);
            Cleared(b, SweepUser(b, user, later, Bank.Able), user, later,
                    Unapplied(s, user) + Recorded(b, user) - Recorded(s, user))
  {
    hide *;
    RefusedSweepChangesNothing(s, user, day, failed);
    RunKeepsWaiting(s, between, user);
    NextSweepMoves(Run(s, between), user, later);
  }

  /** What the user's transfers have moved beyond the rows marked applied. */
  function Excess(s: State, user: string): int {
    SumBy(s.swept, SweptOf(user)) - SumBy(s.entries, AppliedOf(user))
  }

  lemma ExecKeepsExcess(c: State, l: Label, user: string)
    requires !(l.Sweep? && l.user == user)
    ensures Excess(Exec(c, l), user) == Excess(c, user)
  {
    hide SumBy, Apply;
    match l
    case Settle(p) => RecordedUnapplied(c.configs, c.entries, p, user);
    case Configure(_, _) =>
    case Sweep(other, day, gate) => ApplyMoves(c, other, Unapplied(c, other), day, gate, user);
  }

  lemma {:induction false} RunKeepsExcess(s: State, labels: seq<Label>, user: string)
    requires forall k :: 0 <= k < |labels| ==> !(labels[k].Sweep? && labels[k].user == user)
    ensures Excess(Run(s, labels), user) == Excess(s, user)
  {
    hide Excess, Exec;
    if labels != [] {
      var n := |labels| - 1;
      RunKeepsExcess(s, labels[..n], user);
      ExecKeepsExcess(Run(s, labels[..n]), labels[n], user);
    }
  }

  lemma ThrownSweep(s: State, user: string, day: int, gate: Gate)
    requires Goes(s, user, day, gate) && !KeyUsed(s.swept, user, day) && !SplitsKnown(s, user) && Unapplied(s, user) > 0
    ensures var c := SweepUser(s, user, day, gate);
            && Unapplied(c, user) == Unapplied(s, user) && Recorded(c, user) == Recorded(s, user)
            && Excess(c, user) == Excess(s, user) + Unapplied(s, user)
  {
    hide SumBy, Apply, Goes, SplitsKnown, KeyUsed;
    OutcomeExactly(s, user, Unapplied(s, user), day, gate);
    ApplyMoves(s, user, Unapplied(s, user), day, gate, user);
  }

  lemma ClearedExcess(b: State, c: State, user: string, day: int)
    requires Goes(b, user, day, Bank.Able) && !KeyUsed(b.swept, user, day)
    requires SplitsKnown(b, user) && Unapplied(b, user) > 0
    requires c == SweepUser(b, user, day, Bank.Able)
    ensures Excess(c, user) == Excess(b, user)
  {
    hide SumBy, Apply, Goes, SplitsKnown, KeyUsed;
    OutcomeExactly(b, user, Unapplied(b, user), day, Bank.Able);
    ApplyMoves(b, user, Unapplied(b, user), day, Bank.Able, user);
  }

  /** A sweep that throws at a goal that is gone has moved the money and marked nothing: the user's next sweep on an unused
      day, once the splits name goals again, moves the same cents once more with all recorded since, and from then on the
      transfers exceed the marked rows by exactly what the thrown sweep had moved. */
  lemma ThrownSweepMovesTwice(s: State, user: string, day: int, gate: Gate, between: seq<Label>, later: int)
    requires Goes(s, user, day, gate) && !KeyUsed(s.swept, user, day) && !SplitsKnown(s, user) && Unapplied(s, user) > 0
    requires forall k :: 0 <= k < |between| ==> !(between[k].Sweep? && between[k].user == user)
    requires var b := Run(SweepUser(s, user, day, gate), between);
             && Goes(b, user, later, Bank.Able) && !KeyUsed(b.swept, user, later)
             && SplitsKnown(b, user) && Unapplied(b, user) > 0
    ensures var b := Run(SweepUser(s, user, day, gate), between);
            var c := SweepUser(b, user, later, Bank.Able);
            && Cleared(b, c, user, later, Unapplied(s, user) + Recorded(b, user) - Recorded(s, user))
            && Excess(c, user) == Excess(s, user) + Unapplied(s, user)
  {
    hide *;
    ThrownSweep(s, user, day, gate);
    var d := SweepUser(s, user, day, gate);
    RunKeepsWaiting(d, between, user);
    RunKeepsExcess(d, between, user);
    var b := Run(d, between);
    NextSweepMoves(b, user, later);
    ClearedExcess(b, SweepUser(b, user, later, Bank.Able), user, later);
  }

  /** One user's books after a first sweep of five cents today and a later purchase worth seven: sweeping again today
      marks the seven as applied and moves nothing, unless the user's transfers are disabled. */
  lemma SecondSweepTodayMarksWithoutMoving(configs: Configs, user: string, day: int, gate: Gate)
    requires CanSweep(configs, user) && configs[user].splits == [] && !gate.Locked?
    ensures var s := State(configs, [Entry(user, "a", 5, true), Entry(user, "b", 7, false)], [Swept(user, day, 5, false)], []);
            var c := SweepUser(s, user, day, gate);
            Level(s, user) && !Level(c, user) && c.swept == s.swept && Unapplied(c, user) == 0
  {
    var a, b, t := Entry(user, "a", 5, true), Entry(user, "b", 7, false), Swept(user, day, 5, false);
    var s := State(configs, [a, b], [t], []);
    assert [a, b][..1] == [a] && [a][..0] == [] && [t][..0] == [];
    assert SumBy([a], UnappliedOf(user)) == 0 && SumBy([a], AppliedOf(user)) == 5;
    assert s.swept[0].user == user && s.swept[0].day == day;
    ApplyMoves(s, user, 7, day, gate, user);
  }

  // ----- the daily job -----

  /** The first `n` users' sweeps, one after another. */
  function Daily(s: State, groups: seq<string>, day: int, gates: seq<Gate>, n: nat): State
    requires n <= |groups| == |gates|
  {
    if n == 0 then s
    else SweepUser(Daily(s, groups, day, gates, n - 1), groups[n - 1], day, gates[n - 1])
  }

  function DailyLabels(groups: seq<string>, day: int, gates: seq<Gate>, n: nat): seq<Label>
    requires n <= |groups| == |gates|
  {
    if n == 0 then [] else DailyLabels(groups, day, gates, n - 1) + [Sweep(groups[n - 1], day, gates[n - 1])]
  }

  /** The daily job is a run of sweeps, so what is proved of runs holds of it. */
  lemma {:induction false} DailyIsRun(s: State, groups: seq<string>, day: int, gates: seq<Gate>, n: nat)
    requires n <= |groups| == |gates|
    ensures Daily(s, groups, day, gates, n) == Run(s, DailyLabels(groups, day, gates, n))
  {
    hide SweepUser;
    if n > 0 {
      DailyIsRun(s, groups, day, gates, n - 1);
      var labels := DailyLabels(groups, day, gates, n - 1);
      assert DailyLabels(groups, day, gates, n)[..|labels|] == labels;
    }
  }

  /** How many users were swept, and how many cents. */
  function DailyCount(s: State, groups: seq<string>, day: int, gates: seq<Gate>, n: nat): (nat, int)
    requires n <= |groups| == |gates|
  {
    if n == 0 then (0, 0)
    else
      var (users, cents) := DailyCount(s, groups, day, gates, n - 1);
      var b := Daily(s, groups, day, gates, n - 1);
      var sum := Unapplied(b, groups[n - 1]);
      if sum > 0 && Apply(b, groups[n - 1], sum, day, gates[n - 1]).1 == Applied then (users + 1, cents + sum)
      else (users, cents)
  }

  /** The job threw in the sweep of `groups[n]`: the users before it are done, its own transfer and some of its goals are
      made and its rows unmarked, and the users after it are untouched. */
  ghost predicate DailyStopsAt(s: State, c: State, groups: seq<string>, day: int, gates: seq<Gate>, n: nat,
                               users: nat, cents: int) {
    && n < |groups| == |gates|
    && var b := Daily(s, groups, day, gates, n);
       && (c, Threw) == Apply(b, groups[n], Unapplied(b, groups[n]), day, gates[n])
       && (users, cents) == DailyCount(s, groups, day, gates, n)
  }

  lemma SumsAreUnapplied(s: State, groups: seq<string>, sums: seq<int>)
    requires |sums| == |groups| && forall i :: 0 <= i < |groups| ==> sums[i] == SumBy(s.entries, UnappliedOf(groups[i]))
    ensures forall i :: 0 <= i < |groups| ==> sums[i] == Unapplied(s, groups[i])
  {
  }

  lemma DailyStart(s: State, groups: seq<string>, day: int, gates: seq<Gate>)
    requires |groups| == |gates|
    ensures Daily(s, groups, day, gates, 0) == s
    ensures DailyCount(s, groups, day, gates, 0) == (0, 0)
  {
  }

  lemma DailyNext(s: State, groups: seq<string>, day: int, gates: seq<Gate>, n: nat)
    requires n < |groups| == |gates|
    ensures var b := Daily(s, groups, day, gates, n);
            var sum := Unapplied(b, groups[n]);
            var (users, cents) := DailyCount(s, groups, day, gates, n);
            var (c, outcome) := Apply(b, groups[n], sum, day, gates[n]);
            && Daily(s, groups, day, gates, n + 1) == (if sum > 0 then c else b)
            && DailyCount(s, groups, day, gates, n + 1) ==
                 if sum > 0 && outcome == Applied then (users + 1, cents + sum) else (users, cents)
  {
    hide Apply, Unapplied;
  }

  /** The sums read at the start are still right when their turn comes. */
  lemma {:induction false} DailyLeavesOthers(s: State, groups: seq<string>, day: int, gates: seq<Gate>,
                                            n: nat, m: nat)
    requires n <= m < |groups| == |gates| && Distinct(groups)
    ensures Unapplied(Daily(s, groups, day, gates, n), groups[m]) == Unapplied(s, groups[m])
  {
    hide Apply, Unapplied;
    if n > 0 {
      DailyLeavesOthers(s, groups, day, gates, n - 1, m);
      var b := Daily(s, groups, day, gates, n - 1);
      ApplyMoves(b, groups[n - 1], Unapplied(b, groups[n - 1]), day, gates[n - 1], groups[m]);
    }
  }

  lemma {:induction false} DailyKeepsConfigs(s: State, groups: seq<string>, day: int, gates: seq<Gate>, n: nat)
    requires n <= |groups| == |gates|
    ensures Daily(s, groups, day, gates, n).configs == s.configs
  {
    if n > 0 {
      DailyKeepsConfigs(s, groups, day, gates, n - 1);
    }
  }

  lemma {:induction false} DailyKnows(s: State, groups: seq<string>, day: int, gates: seq<Gate>, n: nat)
    requires n <= |groups| == |gates|
    ensures GoalsKnown(s.configs, s.goals) ==> GoalsKnown(s.configs, Daily(s, groups, day, gates, n).goals)
    ensures GoalsKnown(s.configs, s.goals) && n < |groups| ==>
              var b := Daily(s, groups, day, gates, n);
              forall sum :: Apply(b, groups[n], sum, day, gates[n]).1 != Threw
  {
    hide GoalsKnown, Unapplied, Allocate, Credit;
    DailyKeepsConfigs(s, groups, day, gates, n);
    if GoalsKnown(s.configs, s.goals) {
      if n > 0 {
        DailyKeepsConfigs(s, groups, day, gates, n - 1);
        DailyKnows(s, groups, day, gates, n - 1);
        var b := Daily(s, groups, day, gates, n - 1);
        SweepKnows(b, groups[n - 1], Unapplied(b, groups[n - 1]), day, gates[n - 1]);
      }
      if n < |groups| {
        forall sum
          ensures Apply(Daily(s, groups, day, gates, n), groups[n], sum, day, gates[n]).1 != Threw
        {
          SweepKnows(Daily(s, groups, day, gates, n), groups[n], sum, day, gates[n]);
        }
      }
    }
  }

  lemma SweepKnows(s: State, user: string, total: int, day: int, gate: Gate)
    requires GoalsKnown(s.configs, s.goals)
    ensures var (c, outcome) := Apply(s, user, total, day, gate);
            GoalsKnown(c.configs, c.goals) && outcome != Threw
  {
    hide GoalsKnown, Allocate, Credit;
    var (c, outcome) := Apply(s, user, total, day, gate);
    if outcome != Skipped {
      SharesAreExact(s.configs, s.goals, user, total);
      KnownCarries(s.configs, s.goals, c.goals);
    }
  }

  // ----- where the cents go -----

  /** The cents shares give a goal. */
  function GivenTo(id: string): Share -> int {
    (s: Share) => if s.goal == id then s.cents else 0
  }

  ghost predicate DistinctGoals(goals: seq<Goal>) {
    forall i, j :: 0 <= i < j < |goals| ==> goals[i].id != goals[j].id
  }

  /** Each goal grows by exactly the shares that name it. */
  lemma {:induction false} GoalsGetTheirShares(goals: seq<Goal>, shares: seq<Share>, n: nat, i: nat)
    requires n <= |shares| && i < |goals| && DistinctGoals(goals) && Credit(goals, shares, n).1
    ensures SameIds(goals, Credit(goals, shares, n).0)
    ensures Credit(goals, shares, n).0[i].cents == goals[i].cents + SumBy(shares[..n], GivenTo(goals[i].id))
  {
    hide Credit, SumBy, DistinctGoals;
    CreditSucceedsExactly(goals, shares, n);
    if n == 0 {
      NothingCredited(goals, shares);
      NothingGiven(shares, goals[i].id);
    } else {
      ShareReaches(goals, shares, n - 1, i);
      GoalsGetTheirShares(goals, shares, n - 1, i);
      assert shares[..n] == shares[..n - 1] + [shares[n - 1]];
      SumAppend(shares[..n - 1], shares[n - 1], GivenTo(goals[i].id));
    }
  }

  lemma NothingGiven(shares: seq<Share>, id: string)
    ensures SumBy(shares[..0], GivenTo(id)) == 0
  {
  }

  lemma ShareReaches(goals: seq<Goal>, shares: seq<Share>, n: nat, i: nat)
    requires n < |shares| && i < |goals| && DistinctGoals(goals) && Credit(goals, shares, n + 1).1
    ensures SameIds(goals, Credit(goals, shares, n).0) && SameIds(goals, Credit(goals, shares, n + 1).0)
    ensures Credit(goals, shares, n).1
    ensures Credit(goals, shares, n + 1).0[i].cents ==
            Credit(goals, shares, n).0[i].cents + if shares[n].goal == goals[i].id then shares[n].cents else 0
  {
    CreditSucceedsExactly(goals, shares, n);
    CreditSucceedsExactly(goals, shares, n + 1);
    var before := Credit(goals, shares, n).0;
    var at := FindGoal(before, shares[n].goal);
    assert before[at.value].id == goals[at.value].id && before[i].id == goals[i].id;
  }

  lemma SharesReachGoals(goals: seq<Goal>, shares: seq<Share>)
    requires Credit(goals, shares, |shares|).1
    ensures var after := Credit(goals, shares, |shares|).0;
            && |after| == |goals|
            && (DistinctGoals(goals) ==> forall i :: 0 <= i < |goals| ==>
                  after[i].id == goals[i].id && after[i].cents == goals[i].cents + SumBy(shares, GivenTo(goals[i].id)))
  {
    hide Credit, SumBy;
    CreditSucceedsExactly(goals, shares, |shares|);
    assert shares[..|shares|] == shares;
    if DistinctGoals(goals) {
      forall i | 0 <= i < |goals|
        ensures Credit(goals, shares, |shares|).0[i].cents == goals[i].cents + SumBy(shares, GivenTo(goals[i].id))
      {
        GoalsGetTheirShares(goals, shares, |shares|, i);
      }
    }
  }

  // ----- the service -----

  class RoundUpStore {
    var configs: Configs
    var entries: seq<Entry>
    var swept: seq<Swept>
    var goals: seq<Goal>

    ghost function Tables(): State
      reads this
    {
      State(configs, entries, swept, goals)
    }

    method Configure(user: string, config: Config)
      modifies this`configs
      ensures Tables() == Exec(old(Tables()), Label.Configure(user, config))
    {
      configs := configs[user := config];
    }

    method OnSettled(p: Purchase)
      modifies this`entries
      ensures entries == Record(configs, old(entries), p)
      ensures entries ==
              if p.card && p.cents < 0 && p.user in configs && configs[p.user].enabled && configs[p.user].roundUps
                 && -p.cents % 100 != 0
              then old(entries) + [Entry(p.user, p.tx, 100 - -p.cents % 100, false)]
              else old(entries)
    {
      if !p.card || p.cents >= 0 {
        return;
      }
      if p.user !in configs || !configs[p.user].enabled || !configs[p.user].roundUps {
        return;
      }
      var spare := RoundUp(-p.cents);
      if spare == 0 {
        return;
      }
      entries := entries + [Entry(p.user, p.tx, spare, false)];
    }

    method ApplyForUser(user: string, total: int, day: int, gate: Gate) returns (outcome: Outcome)
      modifies this
      ensures (Tables(), outcome) == Apply(old(Tables()), user, total, day, gate)
      ensures var used := exists i :: 0 <= i < |old(swept)| && old(swept)[i].user == user && old(swept)[i].day == day;
              && (outcome == Skipped <==>
                    !(user in configs && configs[user].enabled && configs[user].roundUps
                      && configs[user].hasSource && configs[user].hasSavings
                      && gate != Bank.Locked && (used || gate == Bank.Able)))
              && swept == if outcome == Skipped || used then old(swept)
                          else old(swept) + [Swept(user, day, total, configs[user].splits != [])]
      ensures outcome == Skipped ==> goals == old(goals)
      ensures |entries| == |old(entries)| && configs == old(configs)
      ensures forall i :: 0 <= i < |entries| ==>
                entries[i] == if outcome == Applied && old(entries)[i].user == user then old(entries)[i].(applied := true)
                              else old(entries)[i]
      ensures outcome == Applied && DistinctGoals(old(goals)) ==>
                && |goals| == |old(goals)|
                && forall i :: 0 <= i < |goals| ==>
                     && goals[i].id == old(goals)[i].id
                     && goals[i].cents == old(goals)[i].cents
                          + SumBy(Allocate(total, configs[user].splits), GivenTo(goals[i].id))
    {
      hide Allocate, FindGoal;
      if !CanSweep(configs, user) || gate.Locked? {
        return Skipped;
      }
      if !KeyUsed(swept, user, day) {
        if !gate.Able? {
          return Skipped;
        }
        swept := swept + [Swept(user, day, total, configs[user].splits != [])];
      }
      var shares := Allocate(total, configs[user].splits);
      ghost var before := goals;
      ghost var others := (configs, entries, swept);
      var i := 0;
      while i < |shares|
        invariant 0 <= i <= |shares|
        invariant (configs, entries, swept) == others
        invariant Credit(before, shares, i) == (goals, true)
      {
        var at := FindGoal(goals, shares[i].goal);
        if at.None? {
          CreditStops(before, shares, i + 1, |shares|);
          return Threw;
        }
        goals := goals[at.value := goals[at.value].(cents := goals[at.value].cents + shares[i].cents)];
        i := i + 1;
      }
      entries := MarkAll(entries, user);
      SharesReachGoals(before, shares);
      return Applied;
    }

    /** The sums are read for everyone first; a throw ends the run. */
    method ApplyDaily(groups: seq<string>, day: int, gates: seq<Gate>) returns (users: nat, cents: int, threw: bool)
      requires |groups| == |gates| && Distinct(groups)
      modifies this
      ensures !threw ==> Tables() == Daily(old(Tables()), groups, day, gates, |groups|)
      ensures !threw ==> (users, cents) == DailyCount(old(Tables()), groups, day, gates, |groups|)
      ensures threw ==> exists n :: DailyStopsAt(old(Tables()), Tables(), groups, day, gates, n, users, cents)
      ensures GoalsKnown(old(configs), old(goals)) ==> !threw
    {
      hide SweepUser, Unapplied, Daily, DailyCount, GoalsKnown, Apply, Distinct;
      ghost var start := Tables();
      var rows := entries;
      var sums := seq(|groups|, i requires 0 <= i < |groups| => SumBy(rows, UnappliedOf(groups[i])));
      SumsAreUnapplied(start, groups, sums);
      DailyStart(start, groups, day, gates);
      users, cents := 0, 0;
      var i := 0;
      while i < |groups|
        invariant 0 <= i <= |groups|
        invariant Tables() == Daily(start, groups, day, gates, i)
        invariant (users, cents) == DailyCount(start, groups, day, gates, i)
      {
        DailyNext(start, groups, day, gates, i);
        DailyLeavesOthers(start, groups, day, gates, i, i);
        DailyKnows(start, groups, day, gates, i);
        if sums[i] > 0 {
          var outcome := ApplyForUser(groups[i], sums[i], day, gates[i]);
          if outcome == Threw {
            assert DailyStopsAt(start, Tables(), groups, day, gates, i, users, cents);
            return users, cents, true;
          }
          if outcome == Applied {
            users, cents := users + 1, cents + sums[i];
          }
        }
        i := i + 1;
      }
      return users, cents, false;
    }
  }
}
