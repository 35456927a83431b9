/** The life of a transfer: idempotency keys, the suspense account, admin review, and once-only effects. */
module BankLifecycle {
  import opened Sums
  import opened Ledger
  import opened Quote
  import opened Bank
  import opened BankShape
  import opened BankAgreement
  import Fx

  // ----- counting -----

  function EntryOf(phase: Phase, id: nat): Journal -> int {
    (j: Journal) => if j.phase == phase && j.ref == id then 1 else 0
  }

  /** Journal entries of one phase that name a transfer. */
  function Entries(js: seq<Journal>, phase: Phase, id: nat): int {
    SumBy(js, EntryOf(phase, id))
  }

  function HeldOf(id: nat): Journal -> int {
    (j: Journal) => if j.ref == id then Net(j.postings, PENDING_OUT) else 0
  }

  /** Net PENDING_OUT credit over the journals that name a transfer. */
  function Held(js: seq<Journal>, id: nat): int {
    SumBy(js, HeldOf(id))
  }

  ghost function Times(log: seq<Event>, e: Event): nat {
    multiset(log)[e]
  }

  /** How often a transfer's money left the suspense account. */
  ghost function Drains(log: seq<Event>, kind: Kind, id: nat): nat {
    Times(log, RejectedBy(id)) + if Inflow(kind) then 0 else Times(log, Settled(id))
  }

  function EventId(e: Event): Option<nat> {
    match e
    case Initiated(id) => Some(id)
    case Settled(id) => Some(id)
    case ApprovedBy(id) => Some(id)
    case RejectedBy(id) => Some(id)
    case Failed(id) => Some(id)
    case Reopened(id) => Some(id)
    case Credited(_) => None
    case Overwrote(_, _) => None
  }

  ghost predicate Accounted(b: Bank, id: nat)
    requires id < |b.transfers|
  {
    var t := b.transfers[id];
    && Entries(b.journals, PendingPhase, id) == Times(b.log, Initiated(id)) == 1
    && Entries(b.journals, SettlePhase, id) == Times(b.log, Settled(id))
    && Entries(b.journals, RejectPhase, id) == Times(b.log, RejectedBy(id))
    && Held(b.journals, id) == t.cents * (1 - Drains(b.log, t.kind, id))
  }

  ghost predicate Ledgered(b: Bank) {
    && (forall i :: 0 <= i < |b.log| ==> EventId(b.log[i]).Some? ==> EventId(b.log[i]).value < |b.transfers|)
    && (forall id :: 0 <= id < |b.transfers| ==> Accounted(b, id))
    && (forall i, j :: 0 <= i < j < |b.transfers| ==> b.transfers[i].key != b.transfers[j].key)
  }

  // ----- steps keep the account of every transfer -----

  lemma {:induction false} UnreferencedHoldsNothing(js: seq<Journal>, id: nat)
    requires forall i :: 0 <= i < |js| ==> js[i].ref < id
    ensures Held(js, id) == 0
    ensures forall phase :: Entries(js, phase, id) == 0
  {
    if js != [] {
      UnreferencedHoldsNothing(js[..|js| - 1], id);
      assert js == js[..|js| - 1] + [js[|js| - 1]];
      forall phase
        ensures Entries(js, phase, id) == 0
      {
        assert Entries(js[..|js| - 1], phase, id) == 0;
      }
    }
  }

  lemma AppendEntry(js: seq<Journal>, j: Journal, phase: Phase, id: nat)
    ensures Entries(js + [j], phase, id) == Entries(js, phase, id) + if j.phase == phase && j.ref == id then 1 else 0
    ensures Held(js + [j], id) == Held(js, id) + if j.ref == id then Net(j.postings, PENDING_OUT) else 0
  {
    SumAppend(js, j, EntryOf(phase, id));
    SumAppend(js, j, HeldOf(id));
  }

  lemma AppendEvents(log: seq<Event>, note: seq<Event>, e: Event, x: Event)
    requires x !in note
    ensures Times(log + note + [e], x) == Times(log, x) + if e == x then 1 else 0
  {
    assert multiset(log + note + [e]) == multiset(log) + multiset(note) + multiset{e};
    assert multiset(note)[x] == 0;
  }

  /** A journal and a log entry about `id` leave every other transfer's account alone. */
  lemma OtherAccounted(b: Bank, c: Bank, j: Journal, note: seq<Event>, e: Event, id: nat)
    requires id < |b.transfers| <= |c.transfers| && Accounted(b, id)
    requires c.journals == b.journals + [j] && c.log == b.log + note + [e]
    requires forall k :: 0 <= k < |note| ==> note[k].Overwrote?
    requires j.ref != id && EventId(e) == Some(j.ref) && SameTerms(b.transfers[id], c.transfers[id])
    ensures Accounted(c, id)
  {
    AppendEntry(b.journals, j, PendingPhase, id);
    AppendEntry(b.journals, j, SettlePhase, id);
    AppendEntry(b.journals, j, RejectPhase, id);
    AppendEvents(b.log, note, e, Initiated(id));
    AppendEvents(b.log, note, e, Settled(id));
    AppendEvents(b.log, note, e, RejectedBy(id));
  }

  lemma InitiateAccounted(b: Bank, r: Request)
    requires Shape(b) && Ledgered(b) && r.InitiateReq? && RequestShape(b, r) && CommitInitiate(b, r).Some?
    ensures Ledgered(CommitInitiate(b, r).value)
  {
    hide Accounted, Net, PendingPostings, PostOutcome, InitiateCodes;
    var c := CommitInitiate(b, r).value;
    var n := |b.transfers|;
    var j, e := c.journals[|b.journals|], Initiated(n);
    assert c.log == b.log + [] + [e];
    forall id | 0 <= id < n
      ensures Accounted(c, id)
    {
      OtherAccounted(b, c, j, [], e, id);
    }
    PendingHolds(b, r);
    JournalsNameTransfers(b);
    NewAccounted(b, c, j);
  }

  lemma PendingHolds(b: Bank, r: Request)
    requires Shape(b) && r.InitiateReq? && RequestShape(b, r)
    ensures Net(PendingPostings(r.from, r.cents, r.fee), PENDING_OUT) == r.cents
  {
    hide Shape, PendingPostings;
    PendingNets(b, r);
    AccountCodesAreSeparate(r.from, r.from);
    assert SYSTEM_CODES[1] == PENDING_OUT;
  }

  lemma JournalsNameTransfers(b: Bank)
    requires Shape(b)
    ensures forall i :: 0 <= i < |b.journals| ==> b.journals[i].ref < |b.transfers|
  {
    forall i | 0 <= i < |b.journals|
      ensures b.journals[i].ref < |b.transfers|
    {
      assert JournalShape(b, b.journals[i]);
    }
  }

  /** A transfer just initiated has one entry, one event and its amount in suspense. */
  lemma NewAccounted(b: Bank, c: Bank, j: Journal)
    requires Ledgered(b) && forall i :: 0 <= i < |b.journals| ==> b.journals[i].ref < |b.transfers|
    requires |c.transfers| == |b.transfers| + 1 && j.phase.PendingPhase? && j.ref == |b.transfers|
    requires c.journals == b.journals + [j] && c.log == b.log + [Initiated(|b.transfers|)]
    requires Net(j.postings, PENDING_OUT) == c.transfers[|b.transfers|].cents
    ensures Accounted(c, |b.transfers|)
  {
    hide Net;
    var n := |b.transfers|;
    var e := Initiated(n);
    assert c.log == b.log + [] + [e];
    UnreferencedHoldsNothing(b.journals, n);
    AppendEntry(b.journals, j, PendingPhase, n);
    AppendEntry(b.journals, j, SettlePhase, n);
    AppendEntry(b.journals, j, RejectPhase, n);
    NothingLogged(b, n);
    AppendEvents(b.log, [], e, Initiated(n));
    AppendEvents(b.log, [], e, Settled(n));
    AppendEvents(b.log, [], e, RejectedBy(n));
  }

  lemma NothingLogged(b: Bank, n: nat)
    requires Ledgered(b) && |b.transfers| <= n
    ensures Times(b.log, Initiated(n)) == Times(b.log, Settled(n)) == Times(b.log, RejectedBy(n)) == 0
  {
    forall e | EventId(e) == Some(n)
      ensures e !in b.log
    {
    }
    assert EventId(Initiated(n)) == EventId(Settled(n)) == EventId(RejectedBy(n)) == Some(n);
  }

  lemma DrainAccounted(b: Bank, c: Bank, id: nat, j: Journal, note: seq<Event>, e: Event)
    requires Ledgered(b) && id < |b.transfers|
    requires c.journals == b.journals + [j] && c.log == b.log + note + [e]
    requires forall k :: 0 <= k < |note| ==> note[k].Overwrote?
    requires |c.transfers| == |b.transfers| && j.ref == id
    requires forall i :: 0 <= i < |b.transfers| ==> SameTerms(b.transfers[i], c.transfers[i])
    requires (j.phase.SettlePhase? && e == Settled(id)) || (j.phase.RejectPhase? && e == RejectedBy(id))
    requires Net(j.postings, PENDING_OUT) ==
             if j.phase.SettlePhase? && Inflow(b.transfers[id].kind) then 0 else -b.transfers[id].cents
    ensures Ledgered(c)
  {
    forall i | 0 <= i < |c.transfers|
      ensures Accounted(c, i)
    {
      assert Accounted(b, i);
      if i != id {
        OtherAccounted(b, c, j, note, e, i);
      } else {
        DrainedAccounted(b, c, id, j, note, e);
      }
    }
    forall i | 0 <= i < |c.transfers|
      ensures c.transfers[i].key == b.transfers[i].key
    {
      assert SameTerms(b.transfers[i], c.transfers[i]);
    }
  }

  lemma DrainedAccounted(b: Bank, c: Bank, id: nat, j: Journal, note: seq<Event>, e: Event)
    requires id < |b.transfers| == |c.transfers| && Accounted(b, id)
    requires c.journals == b.journals + [j] && c.log == b.log + note + [e]
    requires forall k :: 0 <= k < |note| ==> note[k].Overwrote?
    requires j.ref == id && SameTerms(b.transfers[id], c.transfers[id])
    requires (j.phase.SettlePhase? && e == Settled(id)) || (j.phase.RejectPhase? && e == RejectedBy(id))
    requires Net(j.postings, PENDING_OUT) ==
             if j.phase.SettlePhase? && Inflow(b.transfers[id].kind) then 0 else -b.transfers[id].cents
    ensures Accounted(c, id)
  {
    AppendEntry(b.journals, j, PendingPhase, id);
    AppendEntry(b.journals, j, SettlePhase, id);
    AppendEntry(b.journals, j, RejectPhase, id);
    AppendEvents(b.log, note, e, Initiated(id));
    AppendEvents(b.log, note, e, Settled(id));
    AppendEvents(b.log, note, e, RejectedBy(id));
    var t := b.transfers[id];
    OneMoreDrain(t.cents, Drains(b.log, t.kind, id));
  }

  lemma OneMoreDrain(cents: int, n: int)
    ensures cents * (1 - (n + 1)) == cents * (1 - n) - cents
  {
  }

  lemma SettleAccounted(b: Bank, id: nat, t: Transfer)
    requires Shape(b) && Ledgered(b) && RequestShape(b, SettleReq(id, t)) && CommitSettle(b, id, t).Some?
    ensures Ledgered(CommitSettle(b, id, t).value)
  {
    SettleTables(b, id, t);
    SettleNets(b, t);
    AccountCodesAreSeparate(t.from, t.from);
    assert SYSTEM_CODES[1] == PENDING_OUT;
    if PaysAccount(t) {
      AccountCodesAreSeparate(t.to.value, t.to.value);
    }
    DrainAccounted(b, CommitSettle(b, id, t).value, id, Journal(SettlePhase, id, SettlePostings(t)),
                   OverwriteNote(b.rows[t.pendingRow], t), Settled(id));
  }

  lemma RejectAccounted(b: Bank, id: nat, t: Transfer)
    requires Shape(b) && Ledgered(b) && RequestShape(b, RejectReq(id, t)) && CommitReject(b, id, t).Some?
    ensures Ledgered(CommitReject(b, id, t).value)
  {
    assert TransferShape(b, b.transfers[id]);
    RejectNets(b, t);
    AccountCodesAreSeparate(t.from, t.from);
    assert SYSTEM_CODES[1] == PENDING_OUT;
    DrainAccounted(b, CommitReject(b, id, t).value, id, Journal(RejectPhase, id, RejectPostings(t)),
                   OverwriteNote(b.rows[t.pendingRow], t), RejectedBy(id));
  }

  /** Steps that post nothing and log at most one event that is none of the counted three. */
  lemma QuietLedgered(b: Bank, c: Bank, e: Event)
    requires Ledgered(b) && c.journals == b.journals && |c.transfers| == |b.transfers|
    requires forall i :: 0 <= i < |b.transfers| ==> SameTerms(b.transfers[i], c.transfers[i])
    requires c.log == b.log || c.log == b.log + [e]
    requires !e.Initiated? && !e.Settled? && !e.RejectedBy?
    requires EventId(e).Some? && c.log != b.log ==> EventId(e).value < |b.transfers|
    ensures Ledgered(c)
  {
    assert multiset(b.log + [e]) == multiset(b.log) + multiset{e};
    forall id | 0 <= id < |c.transfers|
      ensures Accounted(c, id) && c.transfers[id].key == b.transfers[id].key
    {
      assert Accounted(b, id) && SameTerms(b.transfers[id], c.transfers[id]);
    }
  }

  lemma TransactLedgered(b: Bank, r: Request)
    requires Shape(b) && Ledgered(b) && RequestShape(b, r) && Transact(b, r).Some?
    ensures Ledgered(Transact(b, r).value)
  {
    match r
    case InitiateReq(_, _, _, _, _, _, _, _) => InitiateAccounted(b, r);
    case SettleReq(id, t) => SettleAccounted(b, id, t);
    case RejectReq(id, t) => RejectAccounted(b, id, t);
    case ApproveReq(id, t) => QuietLedgered(b, CommitApprove(b, id).value, ApprovedBy(id));
    case CreditReq(id, k) => QuietLedgered(b, CommitCredit(b, id, k).value, Credited(id));
    case DenyReq(id, k) => QuietLedgered(b, CommitDeny(b, id).value, Credited(id));
  }

  lemma FailIsQuiet(b: Bank, r: Request)
    ensures var c := Exec(b, FailJob(r));
            && |c.transfers| == |b.transfers|
            && (forall i :: 0 <= i < |b.transfers| ==>
                  SameTerms(b.transfers[i], c.transfers[i]) && c.transfers[i].decision == b.transfers[i].decision)
            && (c.log != b.log ==> r.SettleReq? && r.id < |b.transfers|)
  {
    hide MarkFailed;
    if r in b.inflight && r.SettleReq? {
      MarkFailedTerms(b, r.id);
    }
  }

  lemma MarkFailedTerms(b: Bank, id: nat)
    ensures var c := MarkFailed(b, id);
            && |c.transfers| == |b.transfers|
            && (forall i :: 0 <= i < |b.transfers| ==>
                  SameTerms(b.transfers[i], c.transfers[i]) && c.transfers[i].decision == b.transfers[i].decision)
            && (c.log != b.log ==> id < |b.transfers|)
  {
  }

  lemma ReopenIsQuiet(b: Bank, id: nat)
    ensures var c := Exec(b, ForceSettle(id));
            && |c.transfers| == |b.transfers|
            && (forall i :: 0 <= i < |b.transfers| ==>
                  SameTerms(b.transfers[i], c.transfers[i]) && c.transfers[i].decision == b.transfers[i].decision)
            && (c.log != b.log ==> id < |b.transfers|)
  {
    hide Transact, Started;
  }

  lemma OthersAreQuiet(b: Bank, l: Label)
    requires !Commits(b, l) && !l.FailJob? && !l.FailUnread? && !l.ForceSettle?
    ensures Exec(b, l).transfers == b.transfers && Exec(b, l).log == b.log
  {
    hide Precheck, Transact, Started;
  }

  lemma QuietTransfers(b: Bank, l: Label)
    requires !Commits(b, l)
    ensures var c := Exec(b, l);
            && |c.transfers| == |b.transfers|
            && (forall i :: 0 <= i < |b.transfers| ==>
                  SameTerms(b.transfers[i], c.transfers[i]) && c.transfers[i].decision == b.transfers[i].decision)
            && (c.log != b.log ==> EventId(QuietEvent(l)).Some? && EventId(QuietEvent(l)).value < |b.transfers|)
            && !QuietEvent(l).Initiated? && !QuietEvent(l).Settled? && !QuietEvent(l).RejectedBy?
            && !QuietEvent(l).ApprovedBy?
  {
    hide Precheck, Transact, Started, MarkFailed, Reopen;
    match l
    case FailJob(r) => FailIsQuiet(b, r);
    case FailUnread(id) => MarkFailedTerms(b, id);
    case ForceSettle(id) => ReopenIsQuiet(b, id);
    case _ => OthersAreQuiet(b, l);
  }

  lemma StepLedgered(b: Bank, l: Label)
    requires Shape(b) && Ledgered(b)
    ensures Ledgered(Exec(b, l))
  {
    if Commits(b, l) {
      TransactLedgered(b, l.req);
      QuietLedgered(Transact(b, l.req).value, Exec(b, l), Credited(0));
    } else {
      QuietStep(b, l);
      QuietTransfers(b, l);
      QuietLedgered(b, Exec(b, l), QuietEvent(l));
    }
  }

  lemma {:induction false} RunLedgered(b: Bank, labels: seq<Label>)
    requires Shape(b) && Ledgered(b)
    ensures Shape(Run(b, labels)) && Ledgered(Run(b, labels))
    decreases |labels|
  {
    if labels != [] {
      StepKeepsShape(b, labels[0]);
      StepLedgered(b, labels[0]);
      RunLedgered(Exec(b, labels[0]), labels[1..]);
    }
  }

  // ----- idempotency -----

  /** Under every interleaving - also of two requests with the same key that both passed the pre-check -
      a key belongs to at most one transfer, and that transfer has exactly one initiation entry. */
  lemma OneTransferPerKey(start: Bank, labels: seq<Label>)
    requires Opening(start)
    ensures var b := Run(start, labels);
            && (forall i, j :: 0 <= i < |b.transfers| && 0 <= j < |b.transfers| && b.transfers[i].key == b.transfers[j].key
                               ==> i == j)
            && (forall i :: 0 <= i < |b.transfers| ==>
                  && Entries(b.journals, PendingPhase, i) == 1
                  && Times(b.log, Initiated(i)) == 1)
            && (forall i :: 0 <= i < |b.journals| ==> b.journals[i].ref < |b.transfers|)
            && (forall i, j :: 0 <= i < j < |b.transfers| ==> b.transfers[i].pendingRow != b.transfers[j].pendingRow)
  {
    OpeningHasShape(start);
    RunLedgered(start, labels);
    var b := Run(start, labels);
    forall i | 0 <= i < |b.transfers|
      ensures Entries(b.journals, PendingPhase, i) == 1 && Times(b.log, Initiated(i)) == 1
    {
      assert Accounted(b, i);
    }
    forall i | 0 <= i < |b.journals|
      ensures b.journals[i].ref < |b.transfers|
    {
      assert JournalShape(b, b.journals[i]);
    }
  }

  ghost predicate TermsPersist(b: Bank, c: Bank) {
    && |b.transfers| <= |c.transfers|
    && forall i :: 0 <= i < |b.transfers| ==> SameTerms(b.transfers[i], c.transfers[i])
  }

  lemma TransactPersists(b: Bank, r: Request)
    requires Transact(b, r).Some?
    ensures TermsPersist(b, Transact(b, r).value)
  {
  }

  lemma StepPersists(b: Bank, l: Label)
    ensures TermsPersist(b, Exec(b, l))
  {
    if Commits(b, l) {
      TransactPersists(b, l.req);
    } else {
      QuietTransfers(b, l);
    }
  }

  lemma {:induction false} RunPersists(b: Bank, labels: seq<Label>)
    ensures TermsPersist(b, Run(b, labels))
    decreases |labels|
  {
    if labels != [] {
      var c := Exec(b, labels[0]);
      StepPersists(b, labels[0]);
      RunPersists(c, labels[1..]);
      forall i | 0 <= i < |b.transfers|
        ensures SameTerms(b.transfers[i], Run(b, labels).transfers[i])
      {
        assert SameTerms(b.transfers[i], c.transfers[i]);
        assert SameTerms(c.transfers[i], Run(c, labels[1..]).transfers[i]);
      }
    }
  }

  /** Once a transfer exists, submitting its key again - whatever the request says, however much later -
      answers its owner with that transfer, refuses everyone else and everyone whose transfers are disabled by then,
      and changes nothing. */
  lemma ReplayIsStable(start: Bank, before: seq<Label>, after: seq<Label>, id: nat, user: UserId, dto: Dto, table: Fx.RateTable)
    requires Opening(start) && id < |Run(start, before).transfers|
    ensures var b := Run(start, before);
            var c := Run(b, after);
            var key := b.transfers[id].key;
            && (key != "" ==>
                  Precheck(c, user, key, dto, table) ==
                  if user in c.disabled then Refuse(TransfersDisabled)
                  else if user == b.transfers[id].user then Replay(id)
                  else Refuse(KeyTaken))
            && Exec(c, Submit(user, key, dto, table)) == c
  {
    OpeningHasShape(start);
    RunLedgered(start, before);
    var b := Run(start, before);
    RunPersists(start, before);
    RunLedgered(b, after);
    RunPersists(b, after);
    var c := Run(b, after);
    var key := b.transfers[id].key;
    assert SameTerms(b.transfers[id], c.transfers[id]);
    var found := FindByKey(c.transfers, key);
    assert found.Some? && c.transfers[found.value].key == key;
    assert found.value == id;
  }

  // ----- the suspense account -----

  /** Under every interleaving, the suspense account holds for each transfer its amount minus its amount
      once per settlement (outbound kinds) and once per rejection; the journals show exactly those. */
  lemma SuspenseLaw(start: Bank, labels: seq<Label>, id: nat)
    requires Opening(start) && id < |Run(start, labels).transfers|
    ensures var b := Run(start, labels);
            var t := b.transfers[id];
            && Held(b.journals, id) == t.cents * (1 - Drains(b.log, t.kind, id))
            && Entries(b.journals, SettlePhase, id) == Times(b.log, Settled(id))
            && Entries(b.journals, RejectPhase, id) == Times(b.log, RejectedBy(id))
  {
    hide Run, Exec, Shape;
    OpeningHasShape(start);
    RunLedgered(start, labels);
    assert Accounted(Run(start, labels), id);
  }

  // ----- review -----

  ghost predicate LoggedBefore(log: seq<Event>, i: int, e: Event) {
    exists k :: 0 <= k < i && k < |log| && log[k] == e
  }

  ghost predicate ReviewOrdered(b: Bank) {
    && (forall i :: 0 <= i < |b.log| ==> b.log[i].Settled? ==>
          b.log[i].id < |b.transfers|
          && (b.transfers[b.log[i].id].requiresReview ==> LoggedBefore(b.log, i, ApprovedBy(b.log[i].id))))
    && (forall id :: 0 <= id < |b.transfers| ==> b.transfers[id].decision.Approved? ==> ApprovedBy(id) in b.log)
    && (forall r :: r in b.inflight ==> r.SettleReq? ==> r.seen.requiresReview ==> ApprovedBy(r.id) in b.log)
  }

  lemma LongerLogOrdered(b: Bank, c: Bank)
    requires ReviewOrdered(b) && b.log <= c.log && TermsPersist(b, c)
    ensures forall i :: 0 <= i < |b.log| ==> c.log[i].Settled? ==>
              c.log[i].id < |c.transfers|
              && (c.transfers[c.log[i].id].requiresReview ==> LoggedBefore(c.log, i, ApprovedBy(c.log[i].id)))
    ensures forall e :: e in b.log ==> e in c.log
  {
    forall i | 0 <= i < |b.log| && c.log[i].Settled?
      ensures c.log[i].id < |c.transfers|
              && (c.transfers[c.log[i].id].requiresReview ==> LoggedBefore(c.log, i, ApprovedBy(c.log[i].id)))
    {
      assert b.log[i] == c.log[i];
      var id := b.log[i].id;
      assert SameTerms(b.transfers[id], c.transfers[id]);
      if b.transfers[id].requiresReview {
        var k :| 0 <= k < i && k < |b.log| && b.log[k] == ApprovedBy(id);
        assert c.log[k] == ApprovedBy(id);
      }
    }
    forall e | e in b.log
      ensures e in c.log
    {
      var i :| 0 <= i < |b.log| && b.log[i] == e;
      assert c.log[i] == e;
    }
  }

  lemma SettleOrdered(b: Bank, id: nat, t: Transfer)
    requires Shape(b) && ReviewOrdered(b) && SettleReq(id, t) in b.inflight && CommitSettle(b, id, t).Some?
    ensures ReviewOrdered(CommitSettle(b, id, t).value)
  {
    var c := CommitSettle(b, id, t).value;
    SettleTables(b, id, t);
    TransactPersists(b, SettleReq(id, t));
    assert RequestShape(b, SettleReq(id, t));
    assert b.log <= c.log;
    LongerLogOrdered(b, c);
    forall i | 0 <= i < |c.log| && c.log[i].Settled?
      ensures c.log[i].id < |c.transfers|
              && (c.transfers[c.log[i].id].requiresReview ==> LoggedBefore(c.log, i, ApprovedBy(c.log[i].id)))
    {
      if i >= |b.log| {
        assert c.log[i] == Settled(id);
        if c.transfers[id].requiresReview {
          assert ApprovedBy(id) in b.log;
          var k :| 0 <= k < |b.log| && b.log[k] == ApprovedBy(id);
          assert c.log[k] == ApprovedBy(id);
        }
      }
    }
  }

  /** Other steps log no settlement and approve only with an approval entry. */
  lemma OtherOrdered(b: Bank, c: Bank)
    requires ReviewOrdered(b) && b.log <= c.log && TermsPersist(b, c)
    requires forall i :: |b.log| <= i < |c.log| ==> !c.log[i].Settled?
    requires forall id :: 0 <= id < |c.transfers| ==> c.transfers[id].decision.Approved? ==>
                            ApprovedBy(id) in c.log || (id < |b.transfers| && b.transfers[id].decision.Approved?)
    requires forall r :: r in c.inflight ==> r.SettleReq? && r.seen.requiresReview ==>
                           r in b.inflight || ApprovedBy(r.id) in b.log
    ensures ReviewOrdered(c)
  {
    LongerLogOrdered(b, c);
  }

  lemma TransactOrdered(b: Bank, r: Request)
    requires Shape(b) && ReviewOrdered(b) && r in b.inflight && Transact(b, r).Some?
    ensures ReviewOrdered(Transact(b, r).value)
  {
    if r.SettleReq? {
      SettleOrdered(b, r.id, r.seen);
    } else {
      TransactPersists(b, r);
      NonSettleLog(b, r);
      OtherOrdered(b, Transact(b, r).value);
    }
  }

  lemma NonSettleLog(b: Bank, r: Request)
    requires Transact(b, r).Some? && !r.SettleReq?
    ensures var c := Transact(b, r).value;
            && c.inflight == b.inflight
            && b.log <= c.log
            && (forall i :: |b.log| <= i < |c.log| ==> !c.log[i].Settled?)
            && (forall id :: 0 <= id < |c.transfers| ==> c.transfers[id].decision.Approved? ==>
                  ApprovedBy(id) in c.log || (id < |b.transfers| && b.transfers[id].decision.Approved?))
  {
    var c := Transact(b, r).value;
    if r.ApproveReq? {
      assert c.log[|b.log|] == ApprovedBy(r.id);
    }
  }

  lemma StepOrdered(b: Bank, l: Label)
    requires Shape(b) && ReviewOrdered(b)
    ensures ReviewOrdered(Exec(b, l))
  {
    if Commits(b, l) {
      TransactOrdered(b, l.req);
      OtherOrdered(Transact(b, l.req).value, Exec(b, l));
    } else {
      QuietStep(b, l);
      QuietTransfers(b, l);
      QuietInflight(b, l);
      OtherOrdered(b, Exec(b, l));
    }
  }

  lemma QuietInflight(b: Bank, l: Label)
    requires !Commits(b, l) && ReviewOrdered(b)
    ensures forall r :: r in Exec(b, l).inflight ==> r.SettleReq? && r.seen.requiresReview ==>
                          r in b.inflight || ApprovedBy(r.id) in b.log
  {
    hide Transact, Started;
    if Started(b, l).Some? {
      StartedSettlement(b, l);
    }
  }

  lemma StartedSettlement(b: Bank, l: Label)
    requires Started(b, l).Some?
    ensures var r := Started(b, l).value;
            r.SettleReq? && r.seen.requiresReview ==> r.id < |b.transfers| && b.transfers[r.id].decision.Approved?
  {
  }

  lemma {:induction false} RunOrdered(b: Bank, labels: seq<Label>)
    requires Shape(b) && ReviewOrdered(b)
    ensures ReviewOrdered(Run(b, labels))
    decreases |labels|
  {
    if labels != [] {
      StepKeepsShape(b, labels[0]);
      StepOrdered(b, labels[0]);
      RunOrdered(Exec(b, labels[0]), labels[1..]);
    }
  }

  /** In every run, an outbound wire, a linked-account transfer or a payment from the threshold up settles
      only after an admin approved it. */
  lemma SettlementFollowsApproval(start: Bank, labels: seq<Label>, i: nat)
    requires Opening(start) && i < |Run(start, labels).log| && Run(start, labels).log[i].Settled?
    ensures var b := Run(start, labels);
            var id := b.log[i].id;
            && id < |b.transfers|
            && (var t := b.transfers[id];
                t.kind == WireOut || t.kind == AchOut
                || (t.kind == P2p && t.cents >= start.limits.reviewThresholdCents) ==>
                  LoggedBefore(b.log, i, ApprovedBy(id)))
  {
    var b := Run(start, labels);
    OpeningHasShape(start);
    RunOrdered(start, labels);
    RunKeepsShape(start, labels);
    RunKeepsLimits(start, labels);
    var id := b.log[i].id;
    assert TransferShape(b, b.transfers[id]);
  }

  /** In every reachable state, the transfers held for review are the outbound wires, the linked-account transfers and the
      payments from the threshold up, and only those carry a decision. */
  lemma HeldExactly(start: Bank, labels: seq<Label>, id: nat)
    requires Opening(start) && id < |Run(start, labels).transfers|
    ensures var t := Run(start, labels).transfers[id];
            && (t.requiresReview <==>
                  t.kind == WireOut || t.kind == AchOut
                  || (t.kind == P2p && t.cents >= start.limits.reviewThresholdCents))
            && (t.decision != Undecided ==> t.requiresReview)
  {
    hide Run;
    OpeningHasShape(start);
    RunKeepsShape(start, labels);
    RunKeepsLimits(start, labels);
    assert TransferShape(Run(start, labels), Run(start, labels).transfers[id]);
  }

  lemma StepKeepsLimits(b: Bank, l: Label)
    ensures Exec(b, l).limits == b.limits
  {
  }

  lemma {:induction false} RunKeepsLimits(b: Bank, labels: seq<Label>)
    ensures Run(b, labels).limits == b.limits
    decreases |labels|
  {
    if labels != [] {
      StepKeepsLimits(b, labels[0]);
      RunKeepsLimits(Exec(b, labels[0]), labels[1..]);
    }
  }
}
