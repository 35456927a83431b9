/** What each committed transaction does, table by table and account by account, in every reachable state: who is paid, on
    which ledger codes, with which feed rows. Everything else stays as it was. */
module BankEffects {
  import opened Sums
  import opened Ledger
  import opened Quote
  import opened Bank
  import opened BankShape
  import opened BankAgreement
  import opened BankOwners

  /** One balance moves; owners, states and all other balances stay. */
  ghost predicate OnlyBalance(b: Bank, c: Bank, a: AccountId, delta: int) {
    && c.accounts.Keys == b.accounts.Keys
    && forall x :: x in b.accounts ==>
         && c.accounts[x].owner == b.accounts[x].owner && c.accounts[x].active == b.accounts[x].active
         && c.accounts[x].balance == b.accounts[x].balance + if x == a then delta else 0
  }

  /** Row `p` gets a new status, and at most the given rows are added after the old ones. */
  ghost predicate RowsBecome(b: Bank, c: Bank, p: nat, s: Status, added: seq<Row>) {
    && p < |b.rows|
    && |c.rows| == |b.rows| + |added|
    && c.rows[p] == b.rows[p].(status := s)
    && (forall i :: 0 <= i < |b.rows| && i != p ==> c.rows[i] == b.rows[i])
    && (forall i :: 0 <= i < |added| ==> c.rows[|b.rows| + i] == added[i])
  }

  /** Transfer `id` gets a new status and decision, and the others stay. */
  ghost predicate OnlyTransfer(b: Bank, c: Bank, id: nat, s: Status, d: Decision) {
    && id < |b.transfers| == |c.transfers|
    && c.transfers[id] == b.transfers[id].(status := s, decision := d)
    && forall i :: 0 <= i < |b.transfers| && i != id ==> c.transfers[i] == b.transfers[i]
  }

  /** What a step credits, net, on a ledger code. */
  ghost function Credited(b: Bank, c: Bank, code: string): int {
    LedgerNet(c.journals, code) - LedgerNet(b.journals, code)
  }

  // ----- settlement -----

  lemma SettleMovesCodes(b: Bank, id: nat, t: Transfer, code: string)
    requires Shape(b) && RequestShape(b, SettleReq(id, t)) && CommitSettle(b, id, t).Some?
    ensures Credited(b, CommitSettle(b, id, t).value, code) == SettleNet(t, code)
  {
    hide CommitSettle, SumBy, Shape;
    SettleTables(b, id, t);
    SettleNets(b, t);
    SumAppend(b.journals, Journal(SettlePhase, id, SettlePostings(t)), JournalNetOf(code));
  }

  /** An internal transfer or a payment to an account pays exactly that account, with one posted row on it. */
  ghost predicate PaysPayee(b: Bank, c: Bank, t: Transfer) {
    t.to.Some? &&
    var a := t.to.value;
    && OnlyBalance(b, c, a, t.cents)
    && RowsBecome(b, c, t.pendingRow, Posted, [Row(a, if t.kind == P2p then P2pInRow else Adjustment, Posted, t.cents)])
    && forall code :: Credited(b, c, code) ==
                      (if code == AccountCode(a) then t.cents else 0) - (if code == PENDING_OUT then t.cents else 0)
  }

  /** An inbound transfer pays its own account out of cash. */
  ghost predicate PaysOwner(b: Bank, c: Bank, t: Transfer) {
    && OnlyBalance(b, c, t.from, t.cents)
    && RowsBecome(b, c, t.pendingRow, Posted, [Row(t.from, AchInRow, Posted, t.cents)])
    && forall code :: Credited(b, c, code) ==
                      (if code == AccountCode(t.from) then t.cents else 0) - (if code == CASH then t.cents else 0)
  }

  /** Anything else leaves the bank: no customer balance moves. */
  ghost predicate PaysOut(b: Bank, c: Bank, t: Transfer) {
    && c.accounts == b.accounts
    && RowsBecome(b, c, t.pendingRow, Posted, [])
    && forall code :: Credited(b, c, code) ==
                      (if code == CASH then t.cents else 0) - (if code == PENDING_OUT then t.cents else 0)
  }

  lemma SettleRowsBecome(b: Bank, c: Bank, id: nat, t: Transfer)
    requires CommitSettle(b, id, t).Some? && c == CommitSettle(b, id, t).value
    ensures RowsBecome(b, c, t.pendingRow, Posted, SettleRows(t))
    ensures id < |b.transfers| && OnlyTransfer(b, c, id, Posted, b.transfers[id].decision)
  {
    hide CommitSettle;
    SettleTables(b, id, t);
  }

  lemma SettleAccounts(b: Bank, id: nat, t: Transfer)
    requires CommitSettle(b, id, t).Some?
    ensures SettleCredit(t).None? ==> CommitSettle(b, id, t).value.accounts == b.accounts
  {
    hide PostOutcome, SettleCodes, SettlePostings, OverwriteNote;
  }

  lemma SettleBalance(b: Bank, id: nat, t: Transfer, a: AccountId)
    requires CommitSettle(b, id, t).Some? && SettleCredit(t).Some? && SettleCredit(t).value.0 == a
    ensures OnlyBalance(b, CommitSettle(b, id, t).value, a, t.cents)
  {
    hide CommitSettle;
    SettleTables(b, id, t);
    TransactKeepsOwners(b, SettleReq(id, t));
  }

  lemma SettleEffect(b: Bank, id: nat, t: Transfer)
    requires Shape(b) && RequestShape(b, SettleReq(id, t)) && CommitSettle(b, id, t).Some?
    ensures var c := CommitSettle(b, id, t).value;
            && OnlyTransfer(b, c, id, Posted, b.transfers[id].decision)
            && ((t.kind == Internal || t.kind == P2p) && t.to.Some? ==> PaysPayee(b, c, t))
            && (t.kind == AchIn || t.kind == WireIn ==> PaysOwner(b, c, t))
            && (t.kind == AchOut || t.kind == WireOut || ((t.kind == Internal || t.kind == P2p) && t.to.None?) ==>
                  PaysOut(b, c, t))
  {
    hide CommitSettle, OnlyBalance, RowsBecome, Credited, Shape;
    var c := CommitSettle(b, id, t).value;
    SettleRowsBecome(b, c, id, t);
    SettleAccounts(b, id, t);
    forall code
      ensures Credited(b, c, code) == SettleNet(t, code)
    {
      SettleMovesCodes(b, id, t, code);
    }
    if SettleCredit(t).Some? {
      SettleBalance(b, id, t, SettleCredit(t).value.0);
    }
  }

  /** In every run, each settlement that commits pays by its kind: an internal transfer or a payment with a destination
      raises that account's balance, row and sub-ledger by the amount, out of suspense; an inbound transfer its own
      account's, out of cash; any other kind moves the amount from suspense to cash and no customer's balance. */
  lemma SettlementsPay(start: Bank, labels: seq<Label>, id: nat, t: Transfer)
    requires Opening(start) && Commits(Run(start, labels), Commit(SettleReq(id, t)))
    ensures var b := Run(start, labels);
            var c := Exec(b, Commit(SettleReq(id, t)));
            && id < |b.transfers|
            && OnlyTransfer(b, c, id, Posted, b.transfers[id].decision)
            && ((t.kind == Internal || t.kind == P2p) && t.to.Some? ==> PaysPayee(b, c, t))
            && (t.kind == AchIn || t.kind == WireIn ==> PaysOwner(b, c, t))
            && (t.kind == AchOut || t.kind == WireOut || ((t.kind == Internal || t.kind == P2p) && t.to.None?) ==>
                  PaysOut(b, c, t))
  {
    hide Run, Shape, Transact, OnlyTransfer, RowsBecome, OnlyBalance, Credited, CommitSettle;
    RequestOfRun(start, labels, SettleReq(id, t));
    var b := Run(start, labels);
    Retired(b, Commit(SettleReq(id, t)));
    SettleEffect(b, id, t);
    var c, d := CommitSettle(b, id, t).value, Exec(b, Commit(SettleReq(id, t)));
    SameEffects(b, c, d, id, t);
  }

  /** The request leaving the flight changes none of the tables. */
  lemma Retired(b: Bank, l: Label)
    requires Commits(b, l)
    ensures var c, d := Transact(b, l.req).value, Exec(b, l);
            && d.accounts == c.accounts && d.rows == c.rows && d.transfers == c.transfers
            && d.journals == c.journals && d.codes == c.codes && d.checks == c.checks && d.log == c.log
    ensures l.req.SettleReq? ==> Transact(b, l.req) == CommitSettle(b, l.req.id, l.req.seen)
    ensures l.req.RejectReq? ==> Transact(b, l.req) == CommitReject(b, l.req.id, l.req.seen)
    ensures l.req.InitiateReq? ==> Transact(b, l.req) == CommitInitiate(b, l.req)
  {
    hide CommitInitiate, CommitSettle, CommitReject;
  }

  lemma SameEffects(b: Bank, c: Bank, d: Bank, id: nat, t: Transfer)
    requires d.accounts == c.accounts && d.rows == c.rows && d.transfers == c.transfers && d.journals == c.journals
    ensures forall s, k :: OnlyTransfer(b, c, id, s, k) ==> OnlyTransfer(b, d, id, s, k)
    ensures PaysPayee(b, c, t) ==> PaysPayee(b, d, t)
    ensures PaysOwner(b, c, t) ==> PaysOwner(b, d, t)
    ensures PaysOut(b, c, t) ==> PaysOut(b, d, t)
  {
    hide LedgerNet;
    assert forall code :: Credited(b, d, code) == Credited(b, c, code);
  }

  lemma RequestOfRun(start: Bank, labels: seq<Label>, r: Request)
    requires Opening(start) && r in Run(start, labels).inflight
    ensures Shape(Run(start, labels)) && RequestShape(Run(start, labels), r)
  {
    hide Run, Exec;
    OpeningHasShape(start);
    RunKeepsShape(start, labels);
  }

  // ----- initiation -----

  /** The row a pending transfer shows in its owner's feed. */
  ghost predicate FeedKind(kind: Kind, row: RowKind) {
    match kind
    case Internal => row == Adjustment
    case P2p => row == P2pOutRow
    case AchOut => row == AchOutRow
    case WireOut => row == AchOutRow
    case AchIn => row == AchInRow
    case WireIn => row == AchInRow
  }

  ghost predicate Takes(b: Bank, c: Bank, r: Request)
    requires r.InitiateReq?
  {
    var total := r.cents + r.fee;
    && r.from in b.accounts && b.accounts[r.from].balance >= total
    && OnlyBalance(b, c, r.from, -total)
    && AccountCode(r.from) in c.codes && (r.kind == Internal && r.to.Some? ==> AccountCode(r.to.value) in c.codes)
    && |c.rows| == |b.rows| + 1 && b.rows <= c.rows
    && (var row := c.rows[|b.rows|];
        row.account == r.from && row.status == Pending && row.cents == -total && FeedKind(r.kind, row.kind))
    && |c.transfers| == |b.transfers| + 1 && b.transfers <= c.transfers
    && (var t := c.transfers[|b.transfers|];
        && t.kind == r.kind && t.status == Pending && t.decision == Undecided
        && t.from == r.from && t.to == r.to && t.cents == r.cents && t.fee == r.fee && t.instant == r.instant
        && t.user == r.user && t.key == r.key && t.pendingRow == |b.rows|
        && (t.requiresReview <==>
              r.kind == WireOut || r.kind == AchOut || (r.kind == P2p && r.cents >= b.limits.reviewThresholdCents)))
    && forall code :: Credited(b, c, code) ==
                      (if code == PENDING_OUT then r.cents else 0) + (if code == FEE_REV then r.fee else 0)
                      - (if code == AccountCode(r.from) then total else 0)
  }

  lemma InitiateMovesCodes(b: Bank, r: Request, code: string)
    requires Shape(b) && r.InitiateReq? && RequestShape(b, r) && CommitInitiate(b, r).Some?
    ensures Credited(b, CommitInitiate(b, r).value, code) == Net(PendingPostings(r.from, r.cents, r.fee), code)
  {
    hide SumBy, PendingPostings, PostOutcome, Net, InitiateCodes;
    SumAppend(b.journals, Journal(PendingPhase, |b.transfers|, PendingPostings(r.from, r.cents, r.fee)), JournalNetOf(code));
  }

  lemma InitiateOpens(b: Bank, r: Request)
    requires Shape(b) && r.InitiateReq? && RequestShape(b, r) && CommitInitiate(b, r).Some?
    ensures var c := CommitInitiate(b, r).value;
            && AccountCode(r.from) in c.codes
            && (r.kind == Internal && r.to.Some? ==> AccountCode(r.to.value) in c.codes)
  {
    hide PostOutcome, PendingPostings, Shape;
    InitiatePosts(b, r);
  }

  lemma InitiateEffect(b: Bank, r: Request)
    requires Shape(b) && r.InitiateReq? && RequestShape(b, r) && CommitInitiate(b, r).Some?
    ensures Takes(b, CommitInitiate(b, r).value, r)
  {
    hide PostOutcome, PendingPostings, InitiateCodes, Net, LedgerNet, Shape;
    var c := CommitInitiate(b, r).value;
    InitiateOpens(b, r);
    PendingNets(b, r);
    forall code
      ensures Credited(b, c, code) == Net(PendingPostings(r.from, r.cents, r.fee), code)
    {
      InitiateMovesCodes(b, r, code);
    }
  }

  /** The locked part of `initiate` commits if and only if the funds are there and the key is unused, whatever the
      unlocked part saw; the ledger never refuses it. */
  lemma InitiateCommitsExactly(b: Bank, r: Request)
    requires Shape(b) && r.InitiateReq? && RequestShape(b, r)
    ensures CommitInitiate(b, r).Some? <==>
              r.from in b.accounts && b.accounts[r.from].balance >= r.cents + r.fee
              && forall i :: 0 <= i < |b.transfers| ==> b.transfers[i].key != r.key
  {
    hide PostOutcome, PendingPostings, InitiateCodes, Shape;
    InitiatePosts(b, r);
    var found := FindByKey(b.transfers, r.key);
  }

  /** In every run, each initiation that commits takes the amount and the fee from its account, shows them as one pending
      row, books them to suspense and fee revenue, and records the transfer as asked. */
  lemma InitiationsTake(start: Bank, labels: seq<Label>, r: Request)
    requires Opening(start) && r.InitiateReq? && Commits(Run(start, labels), Commit(r))
    ensures var b := Run(start, labels); Takes(b, Exec(b, Commit(r)), r)
  {
    hide Run, Shape, Transact, CommitInitiate, OnlyBalance, LedgerNet;
    RequestOfRun(start, labels, r);
    var b := Run(start, labels);
    Retired(b, Commit(r));
    InitiateEffect(b, r);
    var c, d := CommitInitiate(b, r).value, Exec(b, Commit(r));
    assert forall code :: Credited(b, d, code) == Credited(b, c, code);
    SameBalances(b, c, d, r.from, -(r.cents + r.fee));
  }

  lemma SameBalances(b: Bank, c: Bank, d: Bank, a: AccountId, delta: int)
    requires OnlyBalance(b, c, a, delta) && d.accounts == c.accounts
    ensures OnlyBalance(b, d, a, delta)
  {
  }

  // ----- decisions -----

  /** A refund gives back the amount and the fee and undoes the entry of the initiation. */
  ghost predicate Refunds(b: Bank, c: Bank, id: nat, t: Transfer) {
    && OnlyTransfer(b, c, id, Reversed, Rejected)
    && OnlyBalance(b, c, t.from, t.cents + t.fee)
    && RowsBecome(b, c, t.pendingRow, Reversed, [])
    && forall code :: Credited(b, c, code) ==
                      (if code == AccountCode(t.from) then t.cents + t.fee else 0)
                      - (if code == PENDING_OUT then t.cents else 0) - (if code == FEE_REV then t.fee else 0)
  }

  lemma RejectMovesCodes(b: Bank, id: nat, t: Transfer, code: string)
    requires Shape(b) && RequestShape(b, RejectReq(id, t)) && CommitReject(b, id, t).Some?
    ensures Credited(b, CommitReject(b, id, t).value, code) == Net(RejectPostings(t), code)
  {
    hide SumBy, RejectPostings, PostOutcome, Net;
    SumAppend(b.journals, Journal(RejectPhase, id, RejectPostings(t)), JournalNetOf(code));
  }

  lemma RejectEffect(b: Bank, id: nat, t: Transfer)
    requires Shape(b) && RequestShape(b, RejectReq(id, t)) && CommitReject(b, id, t).Some?
    ensures Refunds(b, CommitReject(b, id, t).value, id, t)
  {
    hide PostOutcome, RejectPostings, Net, LedgerNet;
    var c := CommitReject(b, id, t).value;
    assert TransferShape(b, b.transfers[id]);
    RejectNets(b, t);
    forall code
      ensures Credited(b, c, code) == Net(RejectPostings(t), code)
    {
      RejectMovesCodes(b, id, t, code);
    }
  }

  /** In every run, each rejection that commits refunds amount and fee to the account it was taken from. */
  lemma RejectionsRefund(start: Bank, labels: seq<Label>, id: nat, t: Transfer)
    requires Opening(start) && Commits(Run(start, labels), Commit(RejectReq(id, t)))
    ensures var b := Run(start, labels); Refunds(b, Exec(b, Commit(RejectReq(id, t))), id, t)
  {
    hide Run, Shape, Transact, CommitReject, OnlyBalance, OnlyTransfer, RowsBecome, LedgerNet;
    RequestOfRun(start, labels, RejectReq(id, t));
    var b := Run(start, labels);
    Retired(b, Commit(RejectReq(id, t)));
    RejectEffect(b, id, t);
    var c, d := CommitReject(b, id, t).value, Exec(b, Commit(RejectReq(id, t)));
    assert forall code :: Credited(b, d, code) == Credited(b, c, code);
    SameBalances(b, c, d, t.from, t.cents + t.fee);
    SameEffects(b, c, d, id, t);
    SameRows(b, c, d, t.pendingRow, Reversed);
  }

  lemma SameRows(b: Bank, c: Bank, d: Bank, p: nat, s: Status)
    requires RowsBecome(b, c, p, s, []) && d.rows == c.rows
    ensures RowsBecome(b, d, p, s, [])
  {
  }

  /** An approval only records itself; the transfer's money and status stay until it settles. */
  lemma ApprovalsOnlyDecide(b: Bank, id: nat, t: Transfer)
    requires Commits(b, Commit(ApproveReq(id, t)))
    ensures var c := Exec(b, Commit(ApproveReq(id, t)));
            && id < |b.transfers|
            && OnlyTransfer(b, c, id, b.transfers[id].status, Approved)
            && c.accounts == b.accounts && c.rows == b.rows && c.journals == b.journals && c.checks == b.checks
  {
  }

  /** Check `id` gets a new status, and the others stay. */
  ghost predicate OnlyCheck(b: Bank, c: Bank, id: nat, s: CheckStatus) {
    && id < |b.checks| == |c.checks|
    && c.checks[id] == b.checks[id].(status := s)
    && forall i :: 0 <= i < |b.checks| && i != id ==> c.checks[i] == b.checks[i]
  }

  /** An approved deposit credits its account with its amount, as one posted deposit row and without a journal. */
  lemma ApprovedChecksCredit(b: Bank, id: nat, k: Check)
    requires Commits(b, Commit(CreditReq(id, k)))
    ensures var c := Exec(b, Commit(CreditReq(id, k)));
            && OnlyCheck(b, c, id, CheckApproved)
            && OnlyBalance(b, c, k.account, k.cents)
            && c.rows == b.rows + [Row(k.account, DepositRow, Posted, k.cents)]
            && c.journals == b.journals && c.transfers == b.transfers
  {
  }

  /** A rejected deposit only changes its own state. */
  lemma RejectedChecksOnlyClose(b: Bank, id: nat, k: Check)
    requires Commits(b, Commit(DenyReq(id, k)))
    ensures var c := Exec(b, Commit(DenyReq(id, k)));
            && OnlyCheck(b, c, id, CheckRejected)
            && c.accounts == b.accounts && c.rows == b.rows && c.journals == b.journals && c.transfers == b.transfers
  {
  }
}
