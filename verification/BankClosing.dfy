/** Settlements and refunds close a transfer: how often, exactly, and what the suspense account then holds. */
module BankClosing {
  import opened Sums
  import opened Ledger
  import opened Quote
  import opened Bank
  import opened BankShape
  import opened BankAgreement
  import opened BankLifecycle
  import opened BankDecisions

  /** The settlements and refunds recorded for a transfer. */
  ghost function Closings(log: seq<Event>, id: nat): nat {
    Times(log, Settled(id)) + Times(log, RejectedBy(id))
  }

  /** The step commits a settlement or a refund of `id`. */
  ghost predicate ClosesAt(b: Bank, l: Label, id: nat) {
    Commits(b, l) && (l.req.SettleReq? || l.req.RejectReq?) && l.req.id == id
  }

  /** The transfer's own feed row is still pending; `forceSettle` never makes it so again. */
  ghost predicate RowPending(b: Bank, id: nat) {
    id < |b.transfers| && b.transfers[id].pendingRow < |b.rows| && b.rows[b.transfers[id].pendingRow].status.Pending?
  }

  /** A settlement or refund that commits finds the feed row pending. */
  ghost predicate OpenAt(b: Bank, l: Label, id: nat) {
    ClosesAt(b, l, id) ==> RowPending(b, id)
  }

  ghost predicate ClosedOnce(b: Bank, labels: seq<Label>, id: nat)
    decreases |labels|
  {
    labels != [] ==> OpenAt(b, labels[0], id) && ClosedOnce(Exec(b, labels[0]), labels[1..], id)
  }

  /** The feed row is pending until the first settlement or refund, and from then on never. */
  ghost predicate RowTallied(b: Bank, id: nat) {
    if id < |b.transfers| then RowPending(b, id) <==> Closings(b.log, id) == 0 else Closings(b.log, id) == 0
  }

  // ----- steps -----

  ghost predicate ClosingMoves(b: Bank, c: Bank, id: nat, closed: bool) {
    && |b.transfers| <= |c.transfers|
    && (closed ==> id < |b.transfers|)
    && Closings(c.log, id) == Closings(b.log, id) + (if closed then 1 else 0)
    && (id < |b.transfers| ==> (RowPending(c, id) <==> RowPending(b, id) && !closed))
    && (|b.transfers| <= id < |c.transfers| ==> RowPending(c, id))
  }

  lemma ClosingLogged(log: seq<Event>, note: seq<Event>, e: Event, id: nat)
    requires forall k :: 0 <= k < |note| ==> note[k].Overwrote?
    ensures Closings(log + note + [e], id) == Closings(log, id) + if e == Settled(id) || e == RejectedBy(id) then 1 else 0
  {
    AppendEvents(log, note, e, Settled(id));
    AppendEvents(log, note, e, RejectedBy(id));
  }

  /** Writing one transfer's feed row leaves the others' as they were. */
  lemma RowWritten(b: Bank, c: Bank, id: nat, k: nat, added: seq<Row>, s: Status)
    requires Shape(b) && k < |b.transfers| && !s.Pending?
    requires |c.transfers| == |b.transfers|
    requires forall i :: 0 <= i < |b.transfers| ==> SameTerms(b.transfers[i], c.transfers[i])
    requires b.transfers[k].pendingRow < |b.rows|
    requires c.rows == (b.rows + added)[b.transfers[k].pendingRow := b.rows[b.transfers[k].pendingRow].(status := s)]
    ensures id < |b.transfers| ==> (RowPending(c, id) <==> RowPending(b, id) && id != k)
  {
    if id < |b.transfers| {
      assert SameTerms(b.transfers[id], c.transfers[id]) && TransferShape(b, b.transfers[id]);
      assert id != k ==> b.transfers[id].pendingRow != b.transfers[k].pendingRow;
    }
  }

  lemma SettleCloses(b: Bank, k: nat, t: Transfer, id: nat)
    requires Shape(b) && RequestShape(b, SettleReq(k, t)) && CommitSettle(b, k, t).Some?
    ensures ClosingMoves(b, CommitSettle(b, k, t).value, id, id == k)
  {
    hide Closings, Shape, CommitSettle;
    var c := CommitSettle(b, k, t).value;
    SettleTables(b, k, t);
    ClosingLogged(b.log, OverwriteNote(b.rows[t.pendingRow], t), Settled(k), id);
    RowWritten(b, c, id, k, SettleRows(t), Posted);
  }

  lemma RejectCloses(b: Bank, k: nat, t: Transfer, id: nat)
    requires Shape(b) && RequestShape(b, RejectReq(k, t)) && CommitReject(b, k, t).Some?
    ensures ClosingMoves(b, CommitReject(b, k, t).value, id, id == k)
  {
    hide Closings, Shape, PostOutcome, RejectPostings;
    var c := CommitReject(b, k, t).value;
    ClosingLogged(b.log, OverwriteNote(b.rows[t.pendingRow], t), RejectedBy(k), id);
    assert b.rows + [] == b.rows;
    RowWritten(b, c, id, k, [], Reversed);
  }

  /** Steps that keep every transfer's row and log neither settlement nor refund. */
  lemma NothingCloses(b: Bank, c: Bank, e: Event, id: nat)
    requires Shape(b) && |c.transfers| == |b.transfers| && b.rows <= c.rows
    requires forall i :: 0 <= i < |b.transfers| ==> SameTerms(b.transfers[i], c.transfers[i])
    requires (c.log == b.log || c.log == b.log + [e]) && !e.Settled? && !e.RejectedBy?
    ensures ClosingMoves(b, c, id, false)
  {
    hide Closings;
    ClosingLogged(b.log, [], e, id);
    assert b.log + [] + [e] == b.log + [e];
    if id < |b.transfers| {
      assert SameTerms(b.transfers[id], c.transfers[id]) && TransferShape(b, b.transfers[id]);
      assert c.rows[b.transfers[id].pendingRow] == b.rows[b.transfers[id].pendingRow];
    }
  }

  lemma InitiateCloses(b: Bank, r: Request, id: nat)
    requires Shape(b) && r.InitiateReq? && CommitInitiate(b, r).Some?
    ensures ClosingMoves(b, CommitInitiate(b, r).value, id, false)
  {
    hide Closings, PostOutcome, PendingPostings, InitiateCodes;
    var c := CommitInitiate(b, r).value;
    ClosingLogged(b.log, [], Initiated(|b.transfers|), id);
    assert c.log == b.log + [] + [Initiated(|b.transfers|)];
    if id < |b.transfers| {
      assert TransferShape(b, b.transfers[id]);
    }
  }

  lemma TransactCloses(b: Bank, l: Label, id: nat)
    requires Shape(b) && Commits(b, l)
    ensures ClosingMoves(b, Transact(b, l.req).value, id, ClosesAt(b, l, id))
  {
    hide ClosingMoves, CommitInitiate, CommitSettle, CommitReject;
    assert RequestShape(b, l.req);
    var c := Transact(b, l.req).value;
    match l.req
    case InitiateReq(_, _, _, _, _, _, _, _) => InitiateCloses(b, l.req, id);
    case SettleReq(k, t) => SettleCloses(b, k, t, id);
    case RejectReq(k, t) => RejectCloses(b, k, t, id);
    case ApproveReq(k, t) => NothingCloses(b, c, ApprovedBy(k), id);
    case CreditReq(k, _) => NothingCloses(b, c, Credited(k), id);
    case DenyReq(k, _) => NothingCloses(b, c, Credited(k), id);
  }

  lemma StepCloses(b: Bank, l: Label, id: nat)
    requires Shape(b)
    ensures ClosingMoves(b, Exec(b, l), id, ClosesAt(b, l, id))
  {
    hide Closings, Shape, Transact, Started;
    if Commits(b, l) {
      TransactCloses(b, l, id);
    } else {
      QuietStep(b, l);
      QuietTransfers(b, l);
      NothingCloses(b, Exec(b, l), QuietEvent(l), id);
    }
  }

  lemma {:induction false} RunCloses(b: Bank, labels: seq<Label>, id: nat)
    requires Shape(b) && RowTallied(b, id)
    ensures RowTallied(Run(b, labels), id)
    ensures Closings(Run(b, labels).log, id) <= 1 <==> Closings(b.log, id) <= 1 && ClosedOnce(b, labels, id)
    ensures Closings(Run(b, labels).log, id) >= Closings(b.log, id)
    decreases |labels|
  {
    hide Closings, Shape, Exec, ClosesAt, RowPending;
    if labels != [] {
      StepKeepsShape(b, labels[0]);
      StepCloses(b, labels[0], id);
      RunCloses(Exec(b, labels[0]), labels[1..], id);
    }
  }

  lemma OpeningIsTallied(start: Bank, id: nat)
    requires Opening(start)
    ensures RowTallied(start, id) && Tallied(start, id)
  {
  }

  // ----- what a transfer owes the suspense account -----

  /** The amount until the feed row leaves the pending state; an inbound transfer's credit is never drained. */
  function Owed(rows: seq<Row>, t: Transfer): int {
    if Inflow(t.kind) || (t.pendingRow < |rows| && rows[t.pendingRow].status.Pending?) then t.cents else 0
  }

  lemma InflowIsNeverRejected(b: Bank, id: nat)
    requires Shape(b) && Tallied(b, id) && id < |b.transfers| && Inflow(b.transfers[id].kind)
    ensures Times(b.log, RejectedBy(id)) == 0
  {
    assert TransferShape(b, b.transfers[id]);
  }

  lemma LeftOver(cents: int, n: nat)
    requires cents >= 0
    ensures cents * (1 - n) <= if n == 0 then cents else 0
    ensures cents * (1 - n) == (if n == 0 then cents else 0) <==> n <= 1 || cents == 0
  {
    if n > 1 && cents > 0 {
      assert cents * (n - 1) > 0;
      assert cents * (1 - n) == -(cents * (n - 1));
    } else if n == 1 || cents == 0 {
      assert cents * (1 - n) == 0;
    } else if n == 0 {
      assert cents * (1 - n) == cents;
    }
  }

  lemma HeldIsOwedExactly(b: Bank, id: nat)
    requires Shape(b) && Ledgered(b) && Tallied(b, id) && RowTallied(b, id) && id < |b.transfers|
    ensures var t := b.transfers[id];
            && Held(b.journals, id) <= Owed(b.rows, t)
            && (Held(b.journals, id) == Owed(b.rows, t) <==>
                  Inflow(t.kind) || t.cents == 0 || Closings(b.log, id) <= 1)
  {
    hide Held, Entries;
    var t := b.transfers[id];
    assert Accounted(b, id) && TransferShape(b, t);
    if Inflow(t.kind) {
      InflowIsNeverRejected(b, id);
      assert t.cents * (1 - 0) == t.cents;
    } else {
      LeftOver(t.cents, Closings(b.log, id));
    }
  }

  /** In every run, under every interleaving and whatever was forced: a transfer has at most one settlement or refund
      journal if and only if each settlement or refund of it found its feed row pending when it committed; and the
      suspense account holds exactly what the transfer owes - its amount while the row is pending, nothing after - if and
      only if that is so, or there is nothing to drain. It never holds more. */
  lemma SuspenseIsOwedExactly(start: Bank, labels: seq<Label>, id: nat)
    requires Opening(start) && id < |Run(start, labels).transfers|
    ensures var b := Run(start, labels);
            var t := b.transfers[id];
            && (Entries(b.journals, SettlePhase, id) + Entries(b.journals, RejectPhase, id) <= 1 <==>
                  ClosedOnce(start, labels, id))
            && (Held(b.journals, id) == Owed(b.rows, t) <==>
                  Inflow(t.kind) || t.cents == 0 || ClosedOnce(start, labels, id))
            && Held(b.journals, id) <= Owed(b.rows, t)
  {
    hide Run, Exec, ClosedOnce, Held, Entries, Owed;
    RunIsTallied(start, labels, id);
    HeldIsOwedExactly(Run(start, labels), id);
    SuspenseLaw(start, labels, id);
  }

  lemma RunIsTallied(start: Bank, labels: seq<Label>, id: nat)
    requires Opening(start)
    ensures var b := Run(start, labels);
            && Shape(b) && Ledgered(b) && Tallied(b, id) && RowTallied(b, id)
            && (Closings(b.log, id) <= 1 <==> ClosedOnce(start, labels, id))
  {
    hide Run, Exec, ClosedOnce, Closings;
    OpeningHasShape(start);
    OpeningIsTallied(start, id);
    RunCloses(start, labels, id);
    RunDecisions(start, labels, id);
    RunLedgered(start, labels);
    NothingClosedAtFirst(start, id);
  }

  lemma NothingClosedAtFirst(start: Bank, id: nat)
    requires Opening(start)
    ensures Closings(start.log, id) == 0
  {
  }

  // ----- the balance of the suspense account -----

  function OwedOf(rows: seq<Row>): Transfer -> int {
    (t: Transfer) => Owed(rows, t)
  }

  function HeldUpTo(js: seq<Journal>, n: nat): int {
    if n == 0 then 0 else HeldUpTo(js, n - 1) + Held(js, n - 1)
  }

  lemma {:induction false} HeldUpToAppend(js: seq<Journal>, j: Journal, n: nat)
    ensures HeldUpTo(js + [j], n) == HeldUpTo(js, n) + if j.ref < n then Net(j.postings, PENDING_OUT) else 0
  {
    if n > 0 {
      HeldUpToAppend(js, j, n - 1);
      AppendEntry(js, j, PendingPhase, n - 1);
    }
  }

  lemma {:induction false} HeldUpToNothing(n: nat)
    ensures HeldUpTo([], n) == 0
  {
    if n > 0 {
      HeldUpToNothing(n - 1);
    }
  }

  /** Every PENDING_OUT posting belongs to a transfer. */
  lemma {:induction false} SuspenseSplitsByTransfer(js: seq<Journal>, n: nat)
    requires forall i :: 0 <= i < |js| ==> js[i].ref < n
    ensures LedgerNet(js, PENDING_OUT) == HeldUpTo(js, n)
  {
    if js == [] {
      HeldUpToNothing(n);
    } else {
      var m := |js| - 1;
      assert js == js[..m] + [js[m]];
      SuspenseSplitsByTransfer(js[..m], n);
      HeldUpToAppend(js[..m], js[m], n);
      SumAppend(js[..m], js[m], JournalNetOf(PENDING_OUT));
    }
  }

  /** A total is reached exactly when each of its parts is. */
  lemma {:induction false} HeldUpToBound(js: seq<Journal>, ts: seq<Transfer>, f: Transfer -> int, n: nat)
    requires n <= |ts| && forall i :: 0 <= i < |ts| ==> Held(js, i) <= f(ts[i])
    ensures HeldUpTo(js, n) <= SumBy(ts[..n], f)
    ensures HeldUpTo(js, n) == SumBy(ts[..n], f) <==> forall i :: 0 <= i < n ==> Held(js, i) == f(ts[i])
  {
    hide Held, SumBy;
    if n == 0 {
      EmptyTotal(ts, f);
    } else {
      HeldUpToBound(js, ts, f, n - 1);
      assert ts[..n] == ts[..n - 1] + [ts[n - 1]];
      SumAppend(ts[..n - 1], ts[n - 1], f);
    }
  }

  lemma EmptyTotal(ts: seq<Transfer>, f: Transfer -> int)
    ensures SumBy(ts[..0], f) == 0
  {
  }

  /** In every run the suspense account's balance is at most what all transfers owe it, and equal to the cent if and only
      if every outbound or internal transfer with money in it was settled or refunded only from a pending feed row. */
  lemma SuspenseBalanceIsOwedExactly(start: Bank, labels: seq<Label>)
    requires Opening(start)
    ensures var b := Run(start, labels);
            && LedgerNet(b.journals, PENDING_OUT) <= SumBy(b.transfers, OwedOf(b.rows))
            && (LedgerNet(b.journals, PENDING_OUT) == SumBy(b.transfers, OwedOf(b.rows)) <==>
                  forall id :: 0 <= id < |b.transfers| && !Inflow(b.transfers[id].kind) && b.transfers[id].cents != 0 ==>
                    ClosedOnce(start, labels, id))
  {
    hide Run, Exec, ClosedOnce, Held, Owed, SumBy, LedgerNet;
    var b := Run(start, labels);
    RunIsTallied(start, labels, 0);
    JournalsNameTransfers(b);
    SuspenseSplitsByTransfer(b.journals, |b.transfers|);
    forall id | 0 <= id < |b.transfers|
      ensures Held(b.journals, id) <= OwedOf(b.rows)(b.transfers[id])
      ensures Held(b.journals, id) == OwedOf(b.rows)(b.transfers[id]) <==>
              Inflow(b.transfers[id].kind) || b.transfers[id].cents == 0 || ClosedOnce(start, labels, id)
    {
      SuspenseIsOwedExactly(start, labels, id);
    }
    HeldUpToBound(b.journals, b.transfers, OwedOf(b.rows), |b.transfers|);
    assert b.transfers[..|b.transfers|] == b.transfers;
  }
}
