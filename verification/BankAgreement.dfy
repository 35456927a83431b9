/** The three records of an account's money - cached balance, feed rows, sub-ledger postings - and the
    books as a whole, over every interleaving of every run. */
module BankAgreement {
  import opened Sums
  import opened Ledger
  import opened Bank
  import opened BankShape

  // ----- the records -----

  function LiveOf(a: AccountId): Row -> int {
    (r: Row) => if r.account == a && Live(r.status) then r.cents else 0
  }

  /** The pending and posted feed rows of an account. */
  function LiveTotal(rows: seq<Row>, a: AccountId): int {
    SumBy(rows, LiveOf(a))
  }

  function DepositOf(a: AccountId): Row -> int {
    (r: Row) => if r.account == a && r.kind.DepositRow? then r.cents else 0
  }

  /** The deposit rows of an account's feed. */
  function Deposits(rows: seq<Row>, a: AccountId): int {
    SumBy(rows, DepositOf(a))
  }

  function DriftOf(a: AccountId): Event -> int {
    (e: Event) => if e.Overwrote? && e.account == a then e.cents else 0
  }

  /** Money of transactions that found their feed row already taken out of the balance. */
  function Drift(log: seq<Event>, a: AccountId): int {
    SumBy(log, DriftOf(a))
  }

  ghost predicate LedgerAgrees(openings: map<AccountId, Account>, b: Bank) {
    && b.accounts.Keys == openings.Keys
    && forall a :: a in openings ==>
         b.accounts[a].balance
         == openings[a].balance + Deposits(b.rows, a) + LedgerNet(b.journals, AccountCode(a))
  }

  ghost predicate RowsAgree(openings: map<AccountId, Account>, b: Bank) {
    && b.accounts.Keys == openings.Keys
    && forall a :: a in openings ==>
         b.accounts[a].balance == openings[a].balance + LiveTotal(b.rows, a) + Drift(b.log, a)
  }

  // ----- one transaction moves all three alike -----

  /** From `b` to `c`, the balance of `a` moves by what the ledger and the deposits move, and by what the
      live rows and the drift move. */
  ghost predicate MovesAlike(b: Bank, c: Bank, a: AccountId)
    requires a in b.accounts && a in c.accounts
  {
    LedgerMoves(b, c, a) && FeedMoves(b, c, a)
  }

  ghost predicate LedgerMoves(b: Bank, c: Bank, a: AccountId)
    requires a in b.accounts && a in c.accounts
  {
    c.accounts[a].balance - b.accounts[a].balance
    == Deposits(c.rows, a) - Deposits(b.rows, a)
       + LedgerNet(c.journals, AccountCode(a)) - LedgerNet(b.journals, AccountCode(a))
  }

  ghost predicate FeedMoves(b: Bank, c: Bank, a: AccountId)
    requires a in b.accounts && a in c.accounts
  {
    c.accounts[a].balance - b.accounts[a].balance
    == LiveTotal(c.rows, a) - LiveTotal(b.rows, a) + Drift(c.log, a) - Drift(b.log, a)
  }

  /** A step that only appends an ordinary event moves no money. */
  lemma QuietMovesAlike(b: Bank, c: Bank, e: Event, a: AccountId)
    requires a in b.accounts && c.accounts == b.accounts && c.rows == b.rows && c.journals == b.journals
    requires c.log == b.log || (c.log == b.log + [e] && !e.Overwrote?)
    ensures MovesAlike(b, c, a)
  {
    SumAppend(b.log, e, DriftOf(a));
  }

  lemma NoteDrift(log: seq<Event>, row: Row, t: Transfer, e: Event, a: AccountId)
    requires !e.Overwrote?
    ensures Drift(log + OverwriteNote(row, t) + [e], a) ==
            Drift(log, a) + if !Live(row.status) && t.from == a then t.cents + t.fee else 0
  {
    var noted := log + OverwriteNote(row, t);
    SumAppend(noted, e, DriftOf(a));
    if Live(row.status) {
      assert noted == log;
    } else {
      SumAppend(log, Overwrote(t.from, t.cents + t.fee), DriftOf(a));
    }
  }

  lemma InitiateMovesAlike(b: Bank, r: Request, a: AccountId)
    requires Shape(b) && r.InitiateReq? && RequestShape(b, r) && a in b.accounts
    requires CommitInitiate(b, r).Some?
    ensures MovesAlike(b, CommitInitiate(b, r).value, a)
  {
    hide SumBy, PendingPostings, Net, Shape, PostOutcome;
    var c := CommitInitiate(b, r).value;
    var j, row := c.journals[|b.journals|], c.rows[|b.rows|];
    InitiatePosts(b, r);
    PendingNets(b, r);
    AccountCodesAreSeparate(a, r.from);
    SumAppend(b.journals, j, JournalNetOf(AccountCode(a)));
    SumAppend(b.rows, row, LiveOf(a));
    SumAppend(b.rows, row, DepositOf(a));
    SumAppend(b.log, Initiated(|b.transfers|), DriftOf(a));
  }

  lemma PendingNets(b: Bank, r: Request)
    requires Shape(b) && r.InitiateReq? && RequestShape(b, r)
    ensures forall c :: Net(PendingPostings(r.from, r.cents, r.fee), c) ==
                        On(c, AccountCode(r.from), -(r.cents + r.fee)) + On(c, PENDING_OUT, r.cents) + On(c, FEE_REV, r.fee)
  {
    var codes := EnsureCode(b.codes, AccountCode(r.from));
    EnsureCodeKeeps(b.codes, AccountCode(r.from));
    SeededStays(b.codes, codes);
    PendingPostingsPost(codes, r.from, r.cents, r.fee);
  }

  lemma RowsAfterSettle(rows: seq<Row>, added: seq<Row>, p: nat, f: Row -> int)
    requires p < |rows|
    ensures SumBy((rows + added)[p := rows[p].(status := Posted)], f) ==
            SumBy(rows, f) + SumBy(added, f) - f(rows[p]) + f(rows[p].(status := Posted))
  {
    SumUpdate(rows + added, p, rows[p].(status := Posted), f);
    SumConcat(rows, added, f);
  }

  function SettleRows(t: Transfer): seq<Row> {
    if SettleCredit(t).None? then []
    else [Row(SettleCredit(t).value.0, SettleCredit(t).value.1, Posted, t.cents)]
  }

  /** What a settlement credits to `a`. */
  function SettleGain(t: Transfer, a: AccountId): int {
    if SettleCredit(t).Some? && SettleCredit(t).value.0 == a then t.cents else 0
  }

  lemma SettleRowsTotal(t: Transfer, a: AccountId)
    ensures SumBy(SettleRows(t), LiveOf(a)) == SettleGain(t, a)
    ensures SumBy(SettleRows(t), DepositOf(a)) == 0
  {
    if SettleCredit(t).Some? {
      var row := SettleRows(t)[0];
      SumAppend([], row, LiveOf(a));
      SumAppend([], row, DepositOf(a));
      assert [] + [row] == SettleRows(t);
    }
  }

  lemma SettleNetIsGain(t: Transfer, a: AccountId)
    ensures SettleNet(t, AccountCode(a)) == SettleGain(t, a)
  {
    AccountCodesAreSeparate(a, t.from);
    assert SYSTEM_CODES[0] == CASH && SYSTEM_CODES[1] == PENDING_OUT;
    if PaysAccount(t) {
      AccountCodesAreSeparate(a, t.to.value);
    }
  }

  /** The tables a committed settlement leaves. */
  lemma SettleTables(b: Bank, id: nat, t: Transfer)
    requires CommitSettle(b, id, t).Some?
    ensures var c := CommitSettle(b, id, t).value;
            && t.pendingRow < |b.rows| && id < |b.transfers|
            && c.transfers == b.transfers[id := b.transfers[id].(status := Posted)]
            && c.accounts.Keys == b.accounts.Keys
            && (forall a :: a in b.accounts ==>
                  c.accounts[a].balance == b.accounts[a].balance + SettleGain(t, a))
            && c.journals == b.journals + [Journal(SettlePhase, id, SettlePostings(t))]
            && c.rows == (b.rows + SettleRows(t))[t.pendingRow := b.rows[t.pendingRow].(status := Posted)]
            && c.log == b.log + OverwriteNote(b.rows[t.pendingRow], t) + [Settled(id)]
  {
    assert b.rows + [] == b.rows;
  }

  lemma SettleMovesAlike(b: Bank, id: nat, t: Transfer, a: AccountId)
    requires Shape(b) && RequestShape(b, SettleReq(id, t)) && a in b.accounts
    requires CommitSettle(b, id, t).Some?
    ensures MovesAlike(b, CommitSettle(b, id, t).value, a)
  {
    assert TransferShape(b, b.transfers[id]);
    SettleTables(b, id, t);
    SettleNets(b, t);
    SettleMoves(b, CommitSettle(b, id, t).value, id, t, a);
  }

  lemma SettleMoves(b: Bank, c: Bank, id: nat, t: Transfer, a: AccountId)
    requires a in b.accounts && a in c.accounts && t.pendingRow < |b.rows|
    requires !b.rows[t.pendingRow].kind.DepositRow?
    requires b.rows[t.pendingRow].account == t.from && b.rows[t.pendingRow].cents == -(t.cents + t.fee)
    requires forall k :: Net(SettlePostings(t), k) == SettleNet(t, k)
    requires c.accounts[a].balance == b.accounts[a].balance + SettleGain(t, a)
    requires c.journals == b.journals + [Journal(SettlePhase, id, SettlePostings(t))]
    requires c.rows == (b.rows + SettleRows(t))[t.pendingRow := b.rows[t.pendingRow].(status := Posted)]
    requires c.log == b.log + OverwriteNote(b.rows[t.pendingRow], t) + [Settled(id)]
    ensures MovesAlike(b, c, a)
  {
    SettleRowsTotal(t, a);
    SettleNetIsGain(t, a);
    SumAppend(b.journals, Journal(SettlePhase, id, SettlePostings(t)), JournalNetOf(AccountCode(a)));
    RowsAfterSettle(b.rows, SettleRows(t), t.pendingRow, LiveOf(a));
    RowsAfterSettle(b.rows, SettleRows(t), t.pendingRow, DepositOf(a));
    NoteDrift(b.log, b.rows[t.pendingRow], t, Settled(id), a);
  }

  lemma SettleNets(b: Bank, t: Transfer)
    requires Shape(b)
    ensures forall c :: Net(SettlePostings(t), c) == SettleNet(t, c)
  {
    var codes := EnsureCode(b.codes, AccountCode(t.from));
    EnsureCodeKeeps(b.codes, AccountCode(t.from));
    if t.to.Some? {
      EnsureCodeKeeps(codes, AccountCode(t.to.value));
    }
    SeededStays(b.codes, SettleCodes(b, t));
    assert AccountCode(t.from) in SettleCodes(b, t);
    SettlePostingsPost(SettleCodes(b, t), t);
  }

  lemma RejectMovesAlike(b: Bank, id: nat, t: Transfer, a: AccountId)
    requires Shape(b) && RequestShape(b, RejectReq(id, t)) && a in b.accounts
    requires CommitReject(b, id, t).Some?
    ensures MovesAlike(b, CommitReject(b, id, t).value, a)
  {
    assert TransferShape(b, b.transfers[id]);
    RejectPosts(b, id, t);
    RejectNets(b, t);
    AccountCodesAreSeparate(a, t.from);
    SumAppend(b.journals, Journal(RejectPhase, id, RejectPostings(t)), JournalNetOf(AccountCode(a)));
    var p := t.pendingRow;
    SumUpdate(b.rows, p, b.rows[p].(status := Reversed), LiveOf(a));
    SumUpdate(b.rows, p, b.rows[p].(status := Reversed), DepositOf(a));
    NoteDrift(b.log, b.rows[p], t, RejectedBy(id), a);
  }

  lemma RejectNets(b: Bank, t: Transfer)
    requires Shape(b) && 0 <= t.fee
    ensures forall c :: Net(RejectPostings(t), c) ==
                        On(c, AccountCode(t.from), t.cents + t.fee) + On(c, PENDING_OUT, -t.cents) + On(c, FEE_REV, -t.fee)
  {
    var codes := EnsureCode(b.codes, AccountCode(t.from));
    EnsureCodeKeeps(b.codes, AccountCode(t.from));
    SeededStays(b.codes, codes);
    RejectPostingsPost(codes, t);
    PendingPostingsPost(codes, t.from, t.cents, t.fee);
  }

  lemma CreditMovesAlike(b: Bank, id: nat, k: Check, a: AccountId)
    requires a in b.accounts && CommitCredit(b, id, k).Some?
    ensures MovesAlike(b, CommitCredit(b, id, k).value, a)
  {
    hide SumBy, LedgerNet;
    var row := Row(k.account, DepositRow, Posted, k.cents);
    SumAppend(b.rows, row, LiveOf(a));
    SumAppend(b.rows, row, DepositOf(a));
    SumAppend(b.log, Credited(id), DriftOf(a));
  }

  lemma TransactMovesAlike(b: Bank, r: Request, a: AccountId)
    requires Shape(b) && RequestShape(b, r) && a in b.accounts
    requires Transact(b, r).Some? && a in Transact(b, r).value.accounts
    ensures MovesAlike(b, Transact(b, r).value, a)
  {
    match r
    case InitiateReq(_, _, _, _, _, _, _, _) => InitiateMovesAlike(b, r, a);
    case SettleReq(id, t) => SettleMovesAlike(b, id, t, a);
    case RejectReq(id, t) => RejectMovesAlike(b, id, t, a);
    case ApproveReq(id, t) => QuietMovesAlike(b, CommitApprove(b, id).value, ApprovedBy(id), a);
    case CreditReq(id, c) => CreditMovesAlike(b, id, c, a);
    case DenyReq(id, c) => QuietMovesAlike(b, CommitDeny(b, id).value, Credited(id), a);
  }

  lemma TransactKeepsAccounts(b: Bank, r: Request)
    requires Transact(b, r).Some?
    ensures Transact(b, r).value.accounts.Keys == b.accounts.Keys
  {
    hide PostOutcome, PendingPostings, SettlePostings, RejectPostings, InitiateCodes, SettleCodes, FindByKey, OverwriteNote;
  }

  lemma StepKeepsAccounts(b: Bank, l: Label)
    ensures Exec(b, l).accounts.Keys == b.accounts.Keys
  {
    hide Transact, Started;
    if Commits(b, l) {
      TransactKeepsAccounts(b, l.req);
    }
  }

  ghost predicate Commits(b: Bank, l: Label) {
    l.Commit? && l.req in b.inflight && Transact(b, l.req).Some?
  }

  lemma QuietStep(b: Bank, l: Label)
    requires !Commits(b, l)
    ensures var c := Exec(b, l);
            && c.accounts == b.accounts && c.rows == b.rows && c.journals == b.journals
            && (c.log == b.log || (c.log == b.log + [QuietEvent(l)] && !QuietEvent(l).Overwrote?))
  {
    hide Transact, Started, Exec;
    match l
    case FailJob(r) => FailMovesNothing(b, r);
    case FailUnread(id) => UnreadMovesNothing(b, id);
    case ForceSettle(id) => ReopenMovesNothing(b, id);
    case _ => RestMovesNothing(b, l);
  }

  lemma FailMovesNothing(b: Bank, r: Request)
    ensures var c := Exec(b, FailJob(r));
            && c.accounts == b.accounts && c.rows == b.rows && c.journals == b.journals
            && (c.log == b.log || (r.SettleReq? && c.log == b.log + [Failed(r.id)]))
  {
    hide Transact, Started;
  }

  lemma UnreadMovesNothing(b: Bank, id: nat)
    ensures var c := Exec(b, FailUnread(id));
            && c.accounts == b.accounts && c.rows == b.rows && c.journals == b.journals
            && (c.log == b.log || c.log == b.log + [Failed(id)])
  {
    hide Transact, Started;
  }

  lemma ReopenMovesNothing(b: Bank, id: nat)
    ensures var c := Exec(b, ForceSettle(id));
            && c.accounts == b.accounts && c.rows == b.rows && c.journals == b.journals
            && (c.log == b.log || c.log == b.log + [Reopened(id)])
  {
    hide Transact, Started;
  }

  lemma RestMovesNothing(b: Bank, l: Label)
    requires !Commits(b, l) && !l.FailJob? && !l.FailUnread? && !l.ForceSettle?
    ensures var c := Exec(b, l);
            c.accounts == b.accounts && c.rows == b.rows && c.journals == b.journals && c.log == b.log
  {
    hide Transact, Started;
  }

  lemma RetireMovesNothing(b: Bank, c: Bank, r: Request, a: AccountId)
    requires a in b.accounts && a in c.accounts && MovesAlike(b, c, a)
    ensures MovesAlike(b, Retire(c, r), a)
  {
  }

  lemma StepMovesAlike(b: Bank, l: Label, a: AccountId)
    requires Shape(b) && a in b.accounts && a in Exec(b, l).accounts
    ensures MovesAlike(b, Exec(b, l), a)
  {
    if Commits(b, l) {
      TransactMovesAlike(b, l.req, a);
      RetireMovesNothing(b, Transact(b, l.req).value, l.req, a);
    } else {
      QuietStep(b, l);
      QuietMovesAlike(b, Exec(b, l), QuietEvent(l), a);
    }
  }

  function QuietEvent(l: Label): Event {
    match l
    case FailJob(r) => if r.SettleReq? then Failed(r.id) else Failed(0)
    case FailUnread(id) => Failed(id)
    case ForceSettle(id) => Reopened(id)
    case _ => Failed(0)
  }

  // ----- over whole runs -----

  /** In every reachable state, under every interleaving, each cached balance is its opening value plus the
      deposit rows of its feed plus the net credits on its sub-ledger. */
  lemma {:induction false} BalancesAgreeWithLedger(start: Bank, labels: seq<Label>)
    requires Opening(start)
    ensures LedgerAgrees(start.accounts, Run(start, labels))
  {
    OpeningHasShape(start);
    RunAgrees(start, start.accounts, labels);
  }

  /** ... and its opening value plus its pending and posted feed rows, plus the drift. */
  lemma {:induction false} BalancesAgreeWithRowsAndDrift(start: Bank, labels: seq<Label>)
    requires Opening(start)
    ensures RowsAgree(start.accounts, Run(start, labels))
  {
    OpeningHasShape(start);
    RunAgrees(start, start.accounts, labels);
  }

  lemma {:induction false} RunAgrees(b: Bank, openings: map<AccountId, Account>, labels: seq<Label>)
    requires Shape(b) && LedgerAgrees(openings, b) && RowsAgree(openings, b)
    ensures LedgerAgrees(openings, Run(b, labels)) && RowsAgree(openings, Run(b, labels))
    decreases |labels|
  {
    if labels != [] {
      StepKeepsShape(b, labels[0]);
      var c := Exec(b, labels[0]);
      StepKeepsAccounts(b, labels[0]);
      forall a | a in openings
        ensures MovesAlike(b, c, a)
      {
        StepMovesAlike(b, labels[0], a);
      }
      RunAgrees(c, openings, labels[1..]);
    }
  }

  /** Drift is never negative, so the feed agrees with the balances of all accounts exactly when no
      transaction with money in it overwrote a row that was already out of the balance. */
  lemma FeedAgreesExactlyWithoutOverwrites(start: Bank, labels: seq<Label>)
    requires Opening(start)
    ensures var b := Run(start, labels);
            b.accounts.Keys == start.accounts.Keys &&
            ((forall a :: a in start.accounts ==>
                b.accounts[a].balance == start.accounts[a].balance + LiveTotal(b.rows, a))
             <==>
             (forall i :: 0 <= i < |b.log| ==> b.log[i].Overwrote? ==> b.log[i].cents == 0))
  {
    var b := Run(start, labels);
    BalancesAgreeWithRowsAndDrift(start, labels);
    OverwritesNameAccounts(start, labels);
    if forall i :: 0 <= i < |b.log| ==> b.log[i].Overwrote? ==> b.log[i].cents == 0 {
      forall a | a in b.accounts
        ensures Drift(b.log, a) == 0
      {
        NoDriftWithoutOverwrites(b.log, a);
      }
    } else {
      var i :| 0 <= i < |b.log| && b.log[i].Overwrote? && b.log[i].cents != 0;
      var a := b.log[i].account;
      DriftAtLeast(b.log, i);
      assert a in b.accounts;
    }
  }

  /** A committing settlement or refund that moves money finds its row pending or posted. */
  ghost predicate LiveAt(b: Bank, l: Label) {
    Commits(b, l) && (l.req.SettleReq? || l.req.RejectReq?) && l.req.seen.cents + l.req.seen.fee != 0 ==>
      l.req.seen.pendingRow < |b.rows| && Live(b.rows[l.req.seen.pendingRow].status)
  }

  ghost predicate LiveRun(b: Bank, labels: seq<Label>)
    decreases |labels|
  {
    labels != [] ==> LiveAt(b, labels[0]) && LiveRun(Exec(b, labels[0]), labels[1..])
  }

  /** No money was written over a row already out of the balance. */
  ghost predicate Clean(log: seq<Event>) {
    forall i :: 0 <= i < |log| ==> log[i].Overwrote? ==> log[i].cents == 0
  }

  lemma CleanAppends(log: seq<Event>, e: Event)
    ensures Clean(log + [e]) <==> Clean(log) && (e.Overwrote? ==> e.cents == 0)
  {
    var more := log + [e];
    assert more[|log|] == e;
    assert forall i :: 0 <= i < |log| ==> more[i] == log[i];
  }

  lemma NotedClean(log: seq<Event>, row: Row, t: Transfer, e: Event)
    requires !e.Overwrote?
    ensures Clean(log + OverwriteNote(row, t) + [e]) <==> Clean(log) && (Live(row.status) || t.cents + t.fee == 0)
  {
    hide Clean;
    var noted := log + OverwriteNote(row, t);
    CleanAppends(noted, e);
    if Live(row.status) {
      assert noted == log;
    } else {
      CleanAppends(log, Overwrote(t.from, t.cents + t.fee));
    }
  }

  lemma TransactClean(b: Bank, l: Label)
    requires Commits(b, l)
    ensures Clean(Transact(b, l.req).value.log) <==> Clean(b.log) && LiveAt(b, l)
  {
    hide Clean, PostOutcome, SettlePostings, RejectPostings, PendingPostings;
    match l.req
    case InitiateReq(_, _, _, _, _, _, _, _) => CleanAppends(b.log, Initiated(|b.transfers|));
    case SettleReq(id, t) => NotedClean(b.log, b.rows[t.pendingRow], t, Settled(id));
    case RejectReq(id, t) => NotedClean(b.log, b.rows[t.pendingRow], t, RejectedBy(id));
    case ApproveReq(id, t) => CleanAppends(b.log, ApprovedBy(id));
    case CreditReq(id, c) => CleanAppends(b.log, Credited(id));
    case DenyReq(id, c) =>
  }

  lemma StepClean(b: Bank, l: Label)
    ensures Clean(Exec(b, l).log) <==> Clean(b.log) && LiveAt(b, l)
  {
    hide Clean, Transact, Started;
    if Commits(b, l) {
      TransactClean(b, l);
    } else {
      QuietStep(b, l);
      CleanAppends(b.log, QuietEvent(l));
    }
  }

  lemma {:induction false} RunClean(b: Bank, labels: seq<Label>)
    ensures Clean(Run(b, labels).log) <==> Clean(b.log) && LiveRun(b, labels)
    decreases |labels|
  {
    hide Clean, LiveAt, Exec;
    if labels != [] {
      StepClean(b, labels[0]);
      RunClean(Exec(b, labels[0]), labels[1..]);
    }
  }

  /** The same condition, step by step: the feed agrees with the balances of all accounts if and only if every
      settlement and refund of the run that moved money found its row pending or posted when it committed. */
  lemma FeedAgreesExactlyOnLiveRows(start: Bank, labels: seq<Label>)
    requires Opening(start)
    ensures var b := Run(start, labels);
            b.accounts.Keys == start.accounts.Keys &&
            ((forall a :: a in start.accounts ==>
                b.accounts[a].balance == start.accounts[a].balance + LiveTotal(b.rows, a))
             <==> LiveRun(start, labels))
  {
    hide Run, LiveRun, LiveTotal;
    FeedAgreesExactlyWithoutOverwrites(start, labels);
    RunClean(start, labels);
    assert Clean(start.log);
  }

  lemma {:induction false} NoDriftWithoutOverwrites(log: seq<Event>, a: AccountId)
    requires forall i :: 0 <= i < |log| ==> log[i].Overwrote? ==> log[i].cents == 0
    ensures Drift(log, a) == 0
  {
    if log != [] {
      NoDriftWithoutOverwrites(log[..|log| - 1], a);
    }
  }

  lemma {:induction false} DriftAtLeast(log: seq<Event>, i: nat)
    requires i < |log| && log[i].Overwrote?
    requires forall k :: 0 <= k < |log| ==> log[k].Overwrote? ==> 0 <= log[k].cents
    ensures Drift(log, log[i].account) >= log[i].cents
  {
    var n := |log| - 1;
    if i == n {
      SumNonNegative(log[..n], DriftOf(log[i].account));
    } else {
      DriftAtLeast(log[..n], i);
    }
  }

  ghost predicate OverwriteShape(b: Bank) {
    forall i :: 0 <= i < |b.log| ==> b.log[i].Overwrote? ==> 0 <= b.log[i].cents && b.log[i].account in b.accounts
  }

  lemma OverwritesNameAccounts(start: Bank, labels: seq<Label>)
    requires Opening(start)
    ensures OverwriteShape(Run(start, labels))
  {
    OpeningHasShape(start);
    RunOverwriteShape(start, labels);
  }

  lemma {:induction false} RunOverwriteShape(b: Bank, labels: seq<Label>)
    requires Shape(b) && OverwriteShape(b)
    ensures OverwriteShape(Run(b, labels))
    decreases |labels|
  {
    if labels != [] {
      StepKeepsShape(b, labels[0]);
      StepOverwriteShape(b, labels[0]);
      RunOverwriteShape(Exec(b, labels[0]), labels[1..]);
    }
  }

  lemma StepOverwriteShape(b: Bank, l: Label)
    requires Shape(b) && OverwriteShape(b)
    ensures OverwriteShape(Exec(b, l))
  {
    StepKeepsAccounts(b, l);
    if Commits(b, l) {
      TransactOverwriteShape(b, l.req);
    } else {
      QuietStep(b, l);
    }
  }

  lemma NotedShape(b: Bank, c: Bank, t: Transfer, e: Event)
    requires OverwriteShape(b) && !e.Overwrote? && c.accounts.Keys == b.accounts.Keys
    requires t.pendingRow < |b.rows| && 0 <= t.cents && 0 <= t.fee && t.from in b.accounts
    requires c.log == b.log + OverwriteNote(b.rows[t.pendingRow], t) + [e]
    ensures OverwriteShape(c)
  {
  }

  lemma TransactOverwriteShape(b: Bank, r: Request)
    requires Shape(b) && OverwriteShape(b) && RequestShape(b, r) && Transact(b, r).Some?
    ensures OverwriteShape(Transact(b, r).value)
  {
    var c := Transact(b, r).value;
    match r
    case InitiateReq(_, _, _, _, _, _, _, _) => assert c.log == b.log + [Initiated(|b.transfers|)];
    case SettleReq(id, t) =>
      assert TransferShape(b, b.transfers[id]);
      SettleTables(b, id, t);
      NotedShape(b, c, t, Settled(id));
    case RejectReq(id, t) =>
      assert TransferShape(b, b.transfers[id]);
      NotedShape(b, c, t, RejectedBy(id));
    case ApproveReq(id, t) => assert c.log == b.log + [ApprovedBy(id)];
    case CreditReq(id, k) => assert c.log == b.log + [Credited(id)];
    case DenyReq(id, k) => assert c.log == b.log;
  }

  /** Summed ledger account by ledger account, debits equal credits in every reachable state. */
  lemma TrialBalanceIsAlwaysZero(start: Bank, labels: seq<Label>)
    requires Opening(start)
    ensures var b := Run(start, labels); SumBy(b.codes, LedgerNetsOf(b.journals)) == 0
  {
    var b := Run(start, labels);
    OpeningHasShape(start);
    RunKeepsShape(start, labels);
    forall i | 0 <= i < |b.journals|
      ensures WellPosted(b.codes, b.journals[i])
    {
      assert JournalShape(b, b.journals[i]);
    }
    BalancedJournalsTotalZero(b.codes, b.journals);
  }

  // ----- conservation -----

  function GrowthOf(openings: map<AccountId, Account>, b: Bank): AccountId -> int
  {
    (a: AccountId) =>
      if a in openings && a in b.accounts then
        b.accounts[a].balance - openings[a].balance - Deposits(b.rows, a)
      else 0
  }

  function CodesOf(accounts: seq<AccountId>): seq<string> {
    if accounts == [] then [] else CodesOf(accounts[..|accounts| - 1]) + [AccountCode(accounts[|accounts| - 1])]
  }

  lemma {:induction false} CodesOfSpec(accounts: seq<AccountId>)
    ensures |CodesOf(accounts)| == |accounts|
    ensures forall i :: 0 <= i < |accounts| ==> CodesOf(accounts)[i] == AccountCode(accounts[i])
  {
    if accounts != [] {
      CodesOfSpec(accounts[..|accounts| - 1]);
    }
  }

  lemma {:induction false} SumOverCodes(accounts: seq<AccountId>, f: string -> int, g: AccountId -> int)
    requires forall i :: 0 <= i < |accounts| ==> g(accounts[i]) == f(AccountCode(accounts[i]))
    ensures SumBy(CodesOf(accounts), f) == SumBy(accounts, g)
  {
    if accounts != [] {
      var n := |accounts| - 1;
      SumOverCodes(accounts[..n], f, g);
      SumAppend(CodesOf(accounts[..n]), AccountCode(accounts[n]), f);
    }
  }

  /** Money is conserved: over all customers, balances have grown beyond the check deposits by exactly what
      cash, the suspense account and fee revenue have lost. */
  lemma MoneyIsConserved(start: Bank, labels: seq<Label>, accounts: seq<AccountId>)
    requires Opening(start)
    requires Distinct(accounts) && (forall a :: a in accounts <==> a in start.accounts)
    ensures var b := Run(start, labels);
            SumBy(accounts, GrowthOf(start.accounts, b))
            + LedgerNet(b.journals, CASH) + LedgerNet(b.journals, PENDING_OUT) + LedgerNet(b.journals, FEE_REV) == 0
  {
    var b := Run(start, labels);
    OpeningHasShape(start);
    RunKeepsShape(start, labels);
    BalancesAgreeWithLedger(start, labels);
    CodesOfSpec(accounts);
    SeparateCodes(accounts);
    JournalsUseOnly(b, accounts);
    GrowthIsNet(start, b, accounts);
    var f := LedgerNetsOf(b.journals);
    BalancedJournalsTotalZero(CodesOf(accounts) + [CASH, PENDING_OUT, FEE_REV], b.journals);
    SumWithSystem(CodesOf(accounts), f);
    SumOverCodes(accounts, f, GrowthOf(start.accounts, b));
  }

  lemma GrowthIsNet(start: Bank, b: Bank, accounts: seq<AccountId>)
    requires LedgerAgrees(start.accounts, b) && (forall a :: a in accounts ==> a in start.accounts)
    ensures forall i :: 0 <= i < |accounts| ==>
                          GrowthOf(start.accounts, b)(accounts[i]) == LedgerNetsOf(b.journals)(AccountCode(accounts[i]))
  {
    forall i | 0 <= i < |accounts|
      ensures GrowthOf(start.accounts, b)(accounts[i]) == LedgerNetsOf(b.journals)(AccountCode(accounts[i]))
    {
      assert accounts[i] in start.accounts;
    }
  }

  lemma SumWithSystem(subs: seq<string>, f: string -> int)
    ensures SumBy(subs + [CASH, PENDING_OUT, FEE_REV], f) == SumBy(subs, f) + f(CASH) + f(PENDING_OUT) + f(FEE_REV)
  {
    SumConcat(subs, [CASH, PENDING_OUT, FEE_REV], f);
    assert [CASH, PENDING_OUT, FEE_REV] == [CASH, PENDING_OUT] + [FEE_REV];
    SumAppend([CASH, PENDING_OUT], FEE_REV, f);
    SumTwo(CASH, PENDING_OUT, f);
  }

  /** Every posting is on a customer's sub-ledger or one of three system codes. */
  lemma JournalsUseOnly(b: Bank, accounts: seq<AccountId>)
    requires Shape(b) && (forall a :: a in b.accounts ==> a in accounts)
    ensures forall i :: 0 <= i < |b.journals| ==>
                          WellPosted(CodesOf(accounts) + [CASH, PENDING_OUT, FEE_REV], b.journals[i])
  {
    var codes := CodesOf(accounts) + [CASH, PENDING_OUT, FEE_REV];
    CodesOfSpec(accounts);
    forall i | 0 <= i < |b.journals|
      ensures WellPosted(codes, b.journals[i])
    {
      var j := b.journals[i];
      assert JournalShape(b, j);
      forall k | 0 <= k < |j.postings|
        ensures j.postings[k].code in codes
      {
        assert Bookable(b.accounts, j.postings[k].code);
        if a :| a in b.accounts && j.postings[k].code == AccountCode(a) {
          var n :| 0 <= n < |accounts| && accounts[n] == a;
          assert codes[n] == AccountCode(a);
        } else {
          assert j.postings[k].code in [CASH, PENDING_OUT, FEE_REV];
        }
      }
    }
  }

  lemma SeparateCodes(accounts: seq<AccountId>)
    requires Distinct(accounts)
    ensures Distinct(CodesOf(accounts) + [CASH, PENDING_OUT, FEE_REV])
  {
    CodesOfSpec(accounts);
    var codes := CodesOf(accounts) + [CASH, PENDING_OUT, FEE_REV];
    assert CASH != PENDING_OUT && CASH != FEE_REV && PENDING_OUT != FEE_REV;
    forall i, j | 0 <= i < j < |codes|
      ensures codes[i] != codes[j]
    {
      if i < |accounts| {
        AccountCodesAreSeparate(accounts[i], if j < |accounts| then accounts[j] else accounts[i]);
        assert SYSTEM_CODES[0] == CASH && SYSTEM_CODES[1] == PENDING_OUT && SYSTEM_CODES[3] == FEE_REV;
      }
    }
  }

  // ----- no overdraft -----

  ghost predicate Solvent(b: Bank) {
    forall a :: a in b.accounts ==> 0 <= b.accounts[a].balance
  }

  /** From non-negative openings no interleaving, however many initiates race past the same stale
      pre-check, takes a balance below zero. */
  lemma NoOverdraft(start: Bank, labels: seq<Label>)
    requires Opening(start) && Solvent(start)
    ensures Solvent(Run(start, labels))
  {
    OpeningHasShape(start);
    RunSolvent(start, labels);
  }

  lemma {:induction false} RunSolvent(b: Bank, labels: seq<Label>)
    requires Shape(b) && Solvent(b)
    ensures Solvent(Run(b, labels))
    decreases |labels|
  {
    if labels != [] {
      StepKeepsShape(b, labels[0]);
      StepSolvent(b, labels[0]);
      RunSolvent(Exec(b, labels[0]), labels[1..]);
    }
  }

  lemma StepSolvent(b: Bank, l: Label)
    requires Shape(b) && Solvent(b)
    ensures Solvent(Exec(b, l))
  {
    hide Transact, Started;
    if Commits(b, l) {
      TransactSolvent(b, l.req);
    } else {
      QuietStep(b, l);
    }
  }

  lemma BumpSolvent(b: Bank, c: Bank, a: AccountId, delta: int)
    requires Solvent(b) && a in b.accounts && c.accounts == Bump(b.accounts, a, delta) && 0 <= b.accounts[a].balance + delta
    ensures Solvent(c)
  {
  }

  lemma SettleSolvent(b: Bank, id: nat, t: Transfer)
    requires Solvent(b) && 0 <= t.cents && CommitSettle(b, id, t).Some?
    ensures Solvent(CommitSettle(b, id, t).value)
  {
    hide Solvent;
    var c := CommitSettle(b, id, t).value;
    if SettleCredit(t).Some? {
      SolventAt(b, SettleCredit(t).value.0);
      BumpSolvent(b, c, SettleCredit(t).value.0, t.cents);
    } else {
      SameSolvent(b, c);
    }
  }

  lemma SolventAt(b: Bank, a: AccountId)
    requires Solvent(b) && a in b.accounts
    ensures 0 <= b.accounts[a].balance
  {
  }

  lemma SameSolvent(b: Bank, c: Bank)
    requires Solvent(b) && c.accounts == b.accounts
    ensures Solvent(c)
  {
  }

  lemma TransactSolvent(b: Bank, r: Request)
    requires Shape(b) && Solvent(b) && RequestShape(b, r) && Transact(b, r).Some?
    ensures Solvent(Transact(b, r).value)
  {
    hide Solvent, PostOutcome, PendingPostings, RejectPostings, InitiateCodes;
    var c := Transact(b, r).value;
    match r
    case InitiateReq(_, _, _, from, _, cents, fee, _) => BumpSolvent(b, c, from, -(cents + fee));
    case SettleReq(id, t) =>
      assert TransferShape(b, b.transfers[id]);
      SettleSolvent(b, id, t);
    case RejectReq(id, t) =>
      assert TransferShape(b, b.transfers[id]);
      SolventAt(b, t.from);
      BumpSolvent(b, c, t.from, t.cents + t.fee);
    case ApproveReq(_, _) => SameSolvent(b, c);
    case CreditReq(_, k) =>
      assert 0 < k.cents;
      SolventAt(b, k.account);
      BumpSolvent(b, c, k.account, k.cents);
    case DenyReq(_, _) => SameSolvent(b, c);
  }
}
