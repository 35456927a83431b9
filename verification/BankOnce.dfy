/** Runs in which transactions find the rows they read: what the status of a transfer then says, and how the three records
    agree. `BankRaces` shows what goes wrong in other runs, and `BankAgreement`, `BankDecisions`, `BankClosing` and
    `BankDeposits` say exactly when. */
module BankOnce {
  import opened Sums
  import opened Ledger
  import opened Quote
  import opened Bank
  import opened BankShape
  import opened BankAgreement
  import opened BankLifecycle
  import opened BankDecisions
  import opened BankClosing

  ghost predicate FreshAt(b: Bank, l: Label) {
    (l.Commit? || l.FailJob?) && l.req in b.inflight ==> FreshRequest(b, l.req)
  }

  ghost predicate Serialised(b: Bank, labels: seq<Label>)
    decreases |labels|
  {
    labels != [] ==> FreshAt(b, labels[0]) && Serialised(Exec(b, labels[0]), labels[1..])
  }

  // ----- one transfer at a time -----

  predicate Names(r: Request, id: nat) {
    (r.SettleReq? || r.ApproveReq? || r.RejectReq?) && r.id == id
  }

  /** A request on transfer `id` finds the row it read; others may be as stale as they like. */
  ghost predicate FreshFor(b: Bank, l: Label, id: nat) {
    (l.Commit? || l.FailJob?) && l.req in b.inflight && Names(l.req, id) ==> FreshRequest(b, l.req)
  }

  /** Once `id` has settled, neither `forceSettle` nor a job that never read it rewrites its status. */
  ghost predicate CalmFor(b: Bank, l: Label, id: nat) {
    (l.ForceSettle? || l.FailUnread?) && l.id == id ==> Settled(id) !in b.log
  }

  ghost predicate SteadyFor(b: Bank, labels: seq<Label>, id: nat)
    decreases |labels|
  {
    labels != [] ==>
      FreshFor(b, labels[0], id) && CalmFor(b, labels[0], id) && SteadyFor(Exec(b, labels[0]), labels[1..], id)
  }

  /** Status and decision tell which journal there is. */
  ghost predicate Told(b: Bank, id: nat) {
    id < |b.transfers| ==>
      var t := b.transfers[id];
      && Times(b.log, Settled(id)) == (if t.status.Posted? then 1 else 0)
      && Times(b.log, RejectedBy(id)) == (if t.decision.Rejected? then 1 else 0)
      && (Reviewable(t) || t.decision.Rejected? ==> !t.status.Posted?)
  }

  /** The step left `id` and its counts alone. */
  lemma StaysTold(b: Bank, c: Bank, note: seq<Event>, e: Event, id: nat)
    requires Told(b, id) && |b.transfers| <= |c.transfers|
    requires id < |b.transfers| ==> c.transfers[id] == b.transfers[id]
    requires |b.transfers| <= id < |c.transfers| ==>
               c.transfers[id].status.Pending? && c.transfers[id].decision.Undecided? && Closings(b.log, id) == 0
    requires forall k :: 0 <= k < |note| ==> note[k].Overwrote?
    requires c.log == b.log || c.log == b.log + note + [e]
    requires e != Settled(id) && e != RejectedBy(id)
    ensures Told(c, id)
  {
    AppendEvents(b.log, note, e, Settled(id));
    AppendEvents(b.log, note, e, RejectedBy(id));
  }

  /** The step wrote status and decision of `id` and logged `e` about it. */
  lemma RewrittenTold(b: Bank, c: Bank, note: seq<Event>, e: Event, id: nat)
    requires Told(b, id) && id < |b.transfers| == |c.transfers|
    requires forall k :: 0 <= k < |note| ==> note[k].Overwrote?
    requires c.log == b.log + note + [e]
    requires !b.transfers[id].status.Posted?
    requires c.transfers[id].status.Posted? <==> e == Settled(id)
    requires if e == RejectedBy(id) then !b.transfers[id].decision.Rejected? && c.transfers[id].decision.Rejected?
             else c.transfers[id].decision.Rejected? <==> b.transfers[id].decision.Rejected?
    requires Reviewable(c.transfers[id]) || c.transfers[id].decision.Rejected? ==> !c.transfers[id].status.Posted?
    ensures Told(c, id)
  {
    AppendEvents(b.log, note, e, Settled(id));
    AppendEvents(b.log, note, e, RejectedBy(id));
  }

  lemma SettleTold(b: Bank, k: nat, t: Transfer, id: nat)
    requires Shape(b) && Told(b, id) && RequestShape(b, SettleReq(k, t)) && CommitSettle(b, k, t).Some?
    requires k == id ==> b.transfers[id] == t
    ensures Told(CommitSettle(b, k, t).value, id)
  {
    hide Shape, CommitSettle, Told;
    var c := CommitSettle(b, k, t).value;
    SettleTables(b, k, t);
    var note := OverwriteNote(b.rows[t.pendingRow], t);
    if k == id {
      NoReviewNoRejection(b, id);
      RewrittenTold(b, c, note, Settled(id), id);
    } else {
      StaysTold(b, c, note, Settled(k), id);
    }
  }

  lemma NoReviewNoRejection(b: Bank, id: nat)
    requires Shape(b) && id < |b.transfers|
    ensures !b.transfers[id].decision.Undecided? ==> b.transfers[id].requiresReview
  {
    assert TransferShape(b, b.transfers[id]);
  }

  lemma RejectTold(b: Bank, k: nat, t: Transfer, id: nat)
    requires Shape(b) && Told(b, id) && RequestShape(b, RejectReq(k, t)) && CommitReject(b, k, t).Some?
    requires k == id ==> b.transfers[id] == t
    ensures Told(CommitReject(b, k, t).value, id)
  {
    hide Shape, PostOutcome, RejectPostings;
    var c := CommitReject(b, k, t).value;
    var note := OverwriteNote(b.rows[t.pendingRow], t);
    if k == id {
      RewrittenTold(b, c, note, RejectedBy(id), id);
    } else {
      StaysTold(b, c, note, RejectedBy(k), id);
    }
  }

  lemma ApproveTold(b: Bank, k: nat, t: Transfer, id: nat)
    requires Told(b, id) && RequestShape(b, ApproveReq(k, t)) && (k == id ==> b.transfers[id] == t)
    ensures Told(CommitApprove(b, k).value, id)
  {
    var c := CommitApprove(b, k).value;
    assert c.log == b.log + [] + [ApprovedBy(k)];
    if k == id {
      RewrittenTold(b, c, [], ApprovedBy(id), id);
    } else {
      StaysTold(b, c, [], ApprovedBy(k), id);
    }
  }

  lemma TransactTold(b: Bank, r: Request, id: nat)
    requires Shape(b) && Told(b, id) && RowTallied(b, id) && RequestShape(b, r) && Transact(b, r).Some?
    requires Names(r, id) ==> FreshRequest(b, r)
    ensures Told(Transact(b, r).value, id)
  {
    hide Shape, Told, CommitSettle, CommitReject, PostOutcome, PendingPostings, InitiateCodes;
    var c := Transact(b, r).value;
    match r
    case InitiateReq(_, _, _, _, _, _, _, _) =>
      assert c.log == b.log + [] + [Initiated(|b.transfers|)];
      StaysTold(b, c, [], Initiated(|b.transfers|), id);
    case SettleReq(k, t) => SettleTold(b, k, t, id);
    case RejectReq(k, t) => RejectTold(b, k, t, id);
    case ApproveReq(k, t) => ApproveTold(b, k, t, id);
    case CreditReq(k, _) =>
      assert c.log == b.log + [] + [Credited(k)];
      StaysTold(b, c, [], Credited(k), id);
    case DenyReq(k, _) => StaysTold(b, c, [], Credited(k), id);
  }

  lemma NotSettled(b: Bank, id: nat)
    requires Told(b, id) && id < |b.transfers| && Settled(id) !in b.log
    ensures !b.transfers[id].status.Posted?
  {
    assert Settled(id) !in multiset(b.log);
  }

  lemma MarkFailedTold(b: Bank, k: nat, id: nat)
    requires Told(b, id) && RowTallied(b, id) && (k == id && id < |b.transfers| ==> !b.transfers[id].status.Posted?)
    ensures Told(MarkFailed(b, k), id)
  {
    hide Told;
    var c := MarkFailed(b, k);
    if k < |b.transfers| {
      assert c.log == b.log + [] + [Failed(k)];
      if k == id {
        RewrittenTold(b, c, [], Failed(id), id);
      } else {
        StaysTold(b, c, [], Failed(k), id);
      }
    }
  }

  lemma ReopenTold(b: Bank, k: nat, id: nat)
    requires Told(b, id) && RowTallied(b, id) && (k == id && id < |b.transfers| ==> !b.transfers[id].status.Posted?)
    ensures Told(Reopen(b, k), id)
  {
    hide Told;
    var c := Reopen(b, k);
    if c.log != b.log {
      assert c.log == b.log + [] + [Reopened(k)];
      if k == id {
        RewrittenTold(b, c, [], Reopened(id), id);
      } else {
        StaysTold(b, c, [], Reopened(k), id);
      }
    }
  }

  lemma SameTold(b: Bank, c: Bank, id: nat)
    requires Told(b, id) && c.transfers == b.transfers && c.log == b.log
    ensures Told(c, id)
  {
  }

  lemma StepTold(b: Bank, l: Label, id: nat)
    requires Shape(b) && Told(b, id) && RowTallied(b, id) && FreshFor(b, l, id) && CalmFor(b, l, id)
    ensures Told(Exec(b, l), id)
  {
    hide Shape, Told, RequestShape, Transact, Started, MarkFailed, Reopen, RowTallied;
    match l
    case Commit(r) =>
      if Commits(b, l) {
        RequestIsShaped(b, r);
        TransactTold(b, r, id);
        SameTold(Transact(b, r).value, Exec(b, l), id);
      } else {
        SameTold(b, Exec(b, l), id);
      }
    case FailJob(r) =>
      if r in b.inflight && r.SettleReq? {
        JobIsPending(b, r);
        MarkFailedTold(b, r.id, id);
        SameTold(MarkFailed(b, r.id), Exec(b, l), id);
      }
    case FailUnread(k) =>
      if k == id && id < |b.transfers| {
        NotSettled(b, id);
      }
      MarkFailedTold(b, k, id);
    case ForceSettle(k) =>
      if k == id && id < |b.transfers| {
        NotSettled(b, id);
      }
      ReopenTold(b, k, id);
    case _ =>
      OthersAreQuiet(b, l);
      SameTold(b, Exec(b, l), id);
  }

  lemma RequestIsShaped(b: Bank, r: Request)
    requires Shape(b) && r in b.inflight
    ensures RequestShape(b, r)
  {
  }

  lemma JobIsPending(b: Bank, r: Request)
    requires Shape(b) && r in b.inflight && r.SettleReq?
    ensures r.seen.status.Pending?
  {
    assert RequestShape(b, r);
  }

  lemma {:induction false} RunTold(b: Bank, labels: seq<Label>, id: nat)
    requires Shape(b) && Told(b, id) && RowTallied(b, id) && SteadyFor(b, labels, id)
    ensures Told(Run(b, labels), id)
    decreases |labels|
  {
    hide Shape, Told, Exec, RowTallied, FreshFor, CalmFor;
    if labels != [] {
      StepKeepsShape(b, labels[0]);
      StepTold(b, labels[0], id);
      StepTallied(b, labels[0], id);
      RunTold(Exec(b, labels[0]), labels[1..], id);
    }
  }

  lemma StepTallied(b: Bank, l: Label, id: nat)
    requires Shape(b) && RowTallied(b, id)
    ensures RowTallied(Exec(b, l), id)
  {
    hide Shape, Exec, Closings, RowPending, ClosesAt;
    StepCloses(b, l, id);
  }

  /** What the suspense account owes for a transfer, read off its status. */
  function Outstanding(t: Transfer): int {
    if t.decision.Rejected? then 0
    else if t.status.Posted? && !Inflow(t.kind) then 0
    else t.cents
  }

  /** When the requests on one transfer find the row they read and its status is left alone once it settled - whatever
      happens to the others - it is closed at most once, `posted` says that it has a settlement journal and a rejected
      decision that it has a refund journal, and the suspense account holds its amount exactly while it is neither. */
  lemma SuspenseIsExact(start: Bank, labels: seq<Label>, id: nat)
    requires Opening(start) && id < |Run(start, labels).transfers| && SteadyFor(start, labels, id)
    ensures ClosedOnce(start, labels, id)
    ensures var b := Run(start, labels);
            var t := b.transfers[id];
            && Entries(b.journals, SettlePhase, id) + Entries(b.journals, RejectPhase, id) <= 1
            && Entries(b.journals, SettlePhase, id) == (if t.status.Posted? then 1 else 0)
            && Entries(b.journals, RejectPhase, id) == (if t.decision.Rejected? then 1 else 0)
            && Held(b.journals, id) == Outstanding(t)
  {
    hide Run, Exec, SteadyFor, ClosedOnce, Held, Entries, RowPending;
    OpeningHasShape(start);
    OpeningIsTallied(start, id);
    RunTold(start, labels, id);
    RunIsTallied(start, labels, id);
    SuspenseLaw(start, labels, id);
    TellsHeld(Run(start, labels), id);
  }

  lemma TellsHeld(b: Bank, id: nat)
    requires Shape(b) && Tallied(b, id) && Told(b, id) && id < |b.transfers|
    ensures Closings(b.log, id) <= 1
    ensures b.transfers[id].cents * (1 - Drains(b.log, b.transfers[id].kind, id)) == Outstanding(b.transfers[id])
  {
    var t := b.transfers[id];
    if Inflow(t.kind) {
      InflowIsNeverRejected(b, id);
    }
    var n := Drains(b.log, t.kind, id);
    assert n == 0 ==> t.cents * (1 - n) == t.cents;
    assert n == 1 ==> t.cents * (1 - n) == 0;
  }

  function OutstandingOf(): Transfer -> int {
    (t: Transfer) => Outstanding(t)
  }

  lemma {:induction false} HeldUpToTotal(js: seq<Journal>, ts: seq<Transfer>, n: nat)
    requires n <= |ts| && forall i :: 0 <= i < |ts| ==> Held(js, i) == Outstanding(ts[i])
    ensures HeldUpTo(js, n) == SumBy(ts[..n], OutstandingOf())
  {
    hide Held, Outstanding;
    HeldUpToBound(js, ts, OutstandingOf(), n);
  }

  /** The suspense account's balance is the total of the outstanding transfers, to the cent, when every transfer is steady
      in this sense; checks and their decisions do not matter. */
  lemma SuspenseBalanceIsOutstandingTotal(start: Bank, labels: seq<Label>)
    requires Opening(start)
    requires forall id :: 0 <= id < |Run(start, labels).transfers| ==> SteadyFor(start, labels, id)
    ensures var b := Run(start, labels); LedgerNet(b.journals, PENDING_OUT) == SumBy(b.transfers, OutstandingOf())
  {
    hide Run, Exec, SteadyFor, Held, Outstanding, SumBy, LedgerNet;
    var b := Run(start, labels);
    RunIsTallied(start, labels, 0);
    JournalsNameTransfers(b);
    SuspenseSplitsByTransfer(b.journals, |b.transfers|);
    forall id | 0 <= id < |b.transfers|
      ensures Held(b.journals, id) == Outstanding(b.transfers[id])
    {
      SuspenseIsExact(start, labels, id);
    }
    HeldUpToTotal(b.journals, b.transfers, |b.transfers|);
    assert b.transfers[..|b.transfers|] == b.transfers;
  }

  // ----- all records, in serialised runs -----

  /** A row taken out of the balance belongs to a rejected transfer. */
  ghost predicate Reversal(b: Bank, id: nat) {
    id < |b.transfers| ==>
      && b.transfers[id].pendingRow < |b.rows|
      && (!Live(b.rows[b.transfers[id].pendingRow].status) ==> b.transfers[id].decision.Rejected?)
  }

  ghost predicate Reversals(b: Bank) {
    forall id :: 0 <= id < |b.transfers| ==> Reversal(b, id)
  }

  lemma RowKept(b: Bank, c: Bank, id: nat)
    requires Shape(b) && Reversal(b, id) && id < |b.transfers| <= |c.transfers| && |b.rows| <= |c.rows|
    requires SameTerms(b.transfers[id], c.transfers[id])
    requires c.transfers[id].decision == b.transfers[id].decision || !b.transfers[id].decision.Rejected?
    requires var p := b.transfers[id].pendingRow;
             p < |b.rows| ==> c.rows[p].status == b.rows[p].status || Live(c.rows[p].status)
    ensures Reversal(c, id)
  {
  }

  lemma SettleReversal(b: Bank, k: nat, t: Transfer, id: nat)
    requires Shape(b) && Reversal(b, id) && id < |b.transfers| && RequestShape(b, SettleReq(k, t)) && CommitSettle(b, k, t).Some?
    ensures Reversal(CommitSettle(b, k, t).value, id)
  {
    hide Shape, CommitSettle;
    SettleTables(b, k, t);
    RowKept(b, CommitSettle(b, k, t).value, id);
  }

  lemma RejectReversal(b: Bank, k: nat, t: Transfer, id: nat)
    requires Shape(b) && Reversal(b, id) && id < |b.transfers| && RequestShape(b, RejectReq(k, t)) && CommitReject(b, k, t).Some?
    ensures Reversal(CommitReject(b, k, t).value, id)
  {
    hide PostOutcome, RejectPostings;
    var c := CommitReject(b, k, t).value;
    if k != id {
      assert b.transfers[id].pendingRow != b.transfers[k].pendingRow;
      RowKept(b, c, id);
    }
  }

  lemma TransactReversals(b: Bank, r: Request)
    requires Shape(b) && Reversals(b) && RequestShape(b, r) && FreshRequest(b, r) && Transact(b, r).Some?
    ensures Reversals(Transact(b, r).value)
  {
    hide Shape, Reversal;
    var c := Transact(b, r).value;
    forall id | 0 <= id < |c.transfers|
      ensures Reversal(c, id)
    {
      TransactReversal(b, r, id);
    }
  }

  lemma InitiateReversal(b: Bank, r: Request, id: nat)
    requires Shape(b) && Reversals(b) && r.InitiateReq? && CommitInitiate(b, r).Some?
    ensures Reversal(CommitInitiate(b, r).value, id)
  {
    hide Shape, PostOutcome, PendingPostings, InitiateCodes;
    var c := CommitInitiate(b, r).value;
    if id < |b.transfers| {
      assert Reversal(b, id);
      RowKept(b, c, id);
    }
  }

  lemma TransactReversal(b: Bank, r: Request, id: nat)
    requires Shape(b) && Reversals(b) && RequestShape(b, r) && FreshRequest(b, r) && Transact(b, r).Some?
    ensures Reversal(Transact(b, r).value, id)
  {
    hide Shape, CommitInitiate, PostOutcome, SettlePostings, RejectPostings;
    var c := Transact(b, r).value;
    assert id < |b.transfers| ==> Reversal(b, id);
    match r
    case InitiateReq(_, _, _, _, _, _, _, _) => InitiateReversal(b, r, id);
    case SettleReq(k, t) =>
      if id < |b.transfers| {
        SettleReversal(b, k, t, id);
      }
    case RejectReq(k, t) =>
      if id < |b.transfers| {
        RejectReversal(b, k, t, id);
      }
    case _ =>
      if id < |b.transfers| {
        RowKept(b, c, id);
      }
  }

  lemma StepReversals(b: Bank, l: Label)
    requires Shape(b) && Reversals(b) && FreshAt(b, l)
    ensures Reversals(Exec(b, l))
  {
    hide Shape, Reversal, Transact, Started, RequestShape;
    var c := Exec(b, l);
    if Commits(b, l) {
      RequestIsShaped(b, l.req);
      TransactReversals(b, l.req);
      SameReversals(Transact(b, l.req).value, c);
    } else {
      QuietStep(b, l);
      QuietTransfers(b, l);
      forall id | 0 <= id < |c.transfers|
        ensures Reversal(c, id)
      {
        RowKept(b, c, id);
      }
    }
  }

  lemma SameReversals(b: Bank, c: Bank)
    requires Reversals(b) && c.transfers == b.transfers && c.rows == b.rows
    ensures Reversals(c)
  {
    forall id | 0 <= id < |c.transfers|
      ensures Reversal(c, id)
    {
      assert Reversal(b, id);
    }
  }

  lemma FreshIsLive(b: Bank, l: Label)
    requires Shape(b) && Reversals(b) && FreshAt(b, l)
    ensures LiveAt(b, l)
  {
    hide Transact;
    if Commits(b, l) && (l.req.SettleReq? || l.req.RejectReq?) {
      assert RequestShape(b, l.req);
      NoReviewNoRejection(b, l.req.id);
      assert Reversal(b, l.req.id);
    }
  }

  lemma {:induction false} SerialisedIsLive(b: Bank, labels: seq<Label>)
    requires Shape(b) && Reversals(b) && Serialised(b, labels)
    ensures LiveRun(b, labels)
    decreases |labels|
  {
    hide Shape, Reversals, Exec, FreshAt, LiveAt;
    if labels != [] {
      FreshIsLive(b, labels[0]);
      StepKeepsShape(b, labels[0]);
      StepReversals(b, labels[0]);
      SerialisedIsLive(Exec(b, labels[0]), labels[1..]);
    }
  }

  /** In every serialised run all three records agree: each balance is its opening value plus its pending
      and posted feed rows, and its opening value plus deposits plus net sub-ledger credits. */
  lemma AllRecordsAgree(start: Bank, labels: seq<Label>)
    requires Opening(start) && Serialised(start, labels)
    ensures var b := Run(start, labels);
            && b.accounts.Keys == start.accounts.Keys
            && forall a :: a in start.accounts ==>
                 && b.accounts[a].balance == start.accounts[a].balance + LiveTotal(b.rows, a)
                 && b.accounts[a].balance
                    == start.accounts[a].balance + Deposits(b.rows, a) + LedgerNet(b.journals, AccountCode(a))
  {
    hide Run, Exec, Serialised, LiveRun, LiveTotal, Deposits, LedgerNet;
    OpeningHasShape(start);
    SerialisedIsLive(start, labels);
    BalancesAgreeWithLedger(start, labels);
    FeedAgreesExactlyOnLiveRows(start, labels);
  }
}
