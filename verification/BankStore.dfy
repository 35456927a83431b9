/** The services as they run: tables updated in place, statement by statement, inside transactions. Every
    method is proved to take exactly the step the state machine describes. */
module BankStore {
  import opened Sums
  import opened Ledger
  import opened Quote
  import opened Bank
  import opened BankOwners
  import opened Text
  import Fx

  lemma TransactKeepsSettings(b: Bank, r: Request)
    ensures Transact(b, r).Some? ==>
              var c := Transact(b, r).value;
              c.limits == b.limits && c.payees == b.payees
  {
  }

  lemma SubmitStep(b: Bank, user: UserId, key: string, dto: Dto, table: Fx.RateTable)
    ensures Exec(b, Label.Submit(user, key, dto, table)) ==
            match Precheck(b, user, key, dto, table)
            case Proceed(r) => b.(inflight := b.inflight + multiset{r})
            case _ => b
  {
    hide Precheck;
  }

  // ----- transactions, each on its own view of the tables -----

  method InitiateTx(b: Bank, r: Request) returns (result: Option<Bank>)
    requires r.InitiateReq?
    ensures result == CommitInitiate(b, r)
  {
    var total := r.cents + r.fee;
    if r.from !in b.accounts || b.accounts[r.from].balance < total {
      return None;
    }
    var codes := EnsureCode(b.codes, AccountCode(r.from));
    if r.kind.Internal? && r.to.Some? {
      codes := EnsureCode(codes, AccountCode(r.to.value));
    }
    var postings := [Posting(AccountCode(r.from), Debit, r.cents), Posting(PENDING_OUT, Credit, r.cents)];
    if r.fee > 0 {
      postings := postings + [Posting(AccountCode(r.from), Debit, r.fee), Posting(FEE_REV, Credit, r.fee)];
    }
    assert postings == PendingPostings(r.from, r.cents, r.fee);
    var posted := CheckPosting(codes, postings);
    if posted.Refused? {
      return None;
    }
    var journals := b.journals + [Journal(PendingPhase, |b.transfers|, postings)];
    var rows := b.rows + [Row(r.from, RowKindOf(r.kind), Pending, -total)];
    var accounts := Bump(b.accounts, r.from, -total);
    // the unique index on the idempotency key
    if FindByKey(b.transfers, r.key).Some? {
      return None;
    }
    var transfers := b.transfers + [Transfer(
      r.kind, Pending, r.from, r.to, r.cents, r.fee, r.instant, r.user, r.key, |b.rows|,
      NeedsReview(b.limits, r.kind, r.cents), Undecided)];
    return Some(b.(accounts := accounts, codes := posted.codes, journals := journals, rows := rows,
                   transfers := transfers, log := b.log + [Initiated(|b.transfers|)]));
  }

  method SettleTx(b: Bank, id: nat, t: Transfer) returns (result: Option<Bank>)
    ensures result == CommitSettle(b, id, t)
  {
    if t.from !in b.accounts || (PaysAccount(t) && t.to.value !in b.accounts) {
      return None;
    }
    var postings: seq<Posting> := [];
    var codes := EnsureCode(b.codes, AccountCode(t.from));
    var accounts, rows := b.accounts, b.rows;
    if PaysAccount(t) {
      var dest := t.to.value;
      codes := EnsureCode(codes, AccountCode(dest));
      postings := postings + [Posting(PENDING_OUT, Debit, t.cents), Posting(AccountCode(dest), Credit, t.cents)];
      accounts := Bump(accounts, dest, t.cents);
      rows := rows + [Row(dest, if t.kind.P2p? then P2pInRow else Adjustment, Posted, t.cents)];
    } else if Inflow(t.kind) {
      postings := postings + [Posting(CASH, Debit, t.cents), Posting(AccountCode(t.from), Credit, t.cents)];
      accounts := Bump(accounts, t.from, t.cents);
      rows := rows + [Row(t.from, AchInRow, Posted, t.cents)];
    } else {
      postings := postings + [Posting(PENDING_OUT, Debit, t.cents), Posting(CASH, Credit, t.cents)];
    }
    assert postings == SettlePostings(t);
    var posted := CheckPosting(codes, postings);
    if posted.Refused? || t.pendingRow >= |b.rows| || id >= |b.transfers| {
      return None;
    }
    rows := rows[t.pendingRow := rows[t.pendingRow].(status := Posted)];
    var transfers := b.transfers[id := b.transfers[id].(status := Posted)];
    return Some(b.(accounts := accounts, codes := posted.codes,
                   journals := b.journals + [Journal(SettlePhase, id, postings)], rows := rows, transfers := transfers,
                   log := b.log + OverwriteNote(b.rows[t.pendingRow], t) + [Settled(id)]));
  }

  method RejectTx(b: Bank, id: nat, t: Transfer) returns (result: Option<Bank>)
    ensures result == CommitReject(b, id, t)
  {
    if t.from !in b.accounts {
      return None;
    }
    var codes := EnsureCode(b.codes, AccountCode(t.from));
    var refund := t.cents + t.fee;
    var accounts := Bump(b.accounts, t.from, refund);
    var postings := [Posting(PENDING_OUT, Debit, t.cents), Posting(AccountCode(t.from), Credit, t.cents)];
    if t.fee > 0 {
      postings := postings + [Posting(FEE_REV, Debit, t.fee), Posting(AccountCode(t.from), Credit, t.fee)];
    }
    assert postings == RejectPostings(t);
    var posted := CheckPosting(codes, postings);
    if posted.Refused? || t.pendingRow >= |b.rows| || id >= |b.transfers| {
      return None;
    }
    var rows := b.rows[t.pendingRow := b.rows[t.pendingRow].(status := Reversed)];
    var transfers := b.transfers[id := b.transfers[id].(status := Reversed, decision := Rejected)];
    return Some(b.(accounts := accounts, codes := posted.codes,
                   journals := b.journals + [Journal(RejectPhase, id, postings)], rows := rows, transfers := transfers,
                   log := b.log + OverwriteNote(b.rows[t.pendingRow], t) + [RejectedBy(id)]));
  }

  method ApproveTx(b: Bank, id: nat) returns (result: Option<Bank>)
    ensures result == CommitApprove(b, id)
  {
    if id >= |b.transfers| {
      return None;
    }
    var transfers := b.transfers[id := b.transfers[id].(decision := Approved)];
    return Some(b.(transfers := transfers, log := b.log + [ApprovedBy(id)]));
  }

  /** A check deposit's approval: the feed row, the balance, the deposit. */
  method CreditTx(b: Bank, id: nat, c: Check) returns (result: Option<Bank>)
    ensures result == CommitCredit(b, id, c)
  {
    if c.account !in b.accounts {
      return None;
    }
    var rows := b.rows + [Row(c.account, DepositRow, Posted, c.cents)];
    var accounts := Bump(b.accounts, c.account, c.cents);
    if id >= |b.checks| {
      return None;
    }
    var checks := b.checks[id := b.checks[id].(status := CheckApproved)];
    return Some(b.(accounts := accounts, rows := rows, checks := checks, log := b.log + [Credited(id)]));
  }

  method DenyTx(b: Bank, id: nat) returns (result: Option<Bank>)
    ensures result == CommitDeny(b, id)
  {
    if id >= |b.checks| {
      return None;
    }
    var checks := b.checks[id := b.checks[id].(status := CheckRejected)];
    return Some(b.(checks := checks));
  }

  method RunBody(b: Bank, r: Request) returns (result: Option<Bank>)
    ensures result == Transact(b, r)
  {
    match r {
      case InitiateReq(_, _, _, _, _, _, _, _) => result := InitiateTx(b, r);
      case SettleReq(id, t) => result := SettleTx(b, id, t);
      case ApproveReq(id, _) => result := ApproveTx(b, id);
      case RejectReq(id, t) => result := RejectTx(b, id, t);
      case CreditReq(id, k) => result := CreditTx(b, id, k);
      case DenyReq(id, _) => result := DenyTx(b, id);
    }
  }

  /** The tables after a request in flight has committed or rolled back. */
  method Conclude(b: Bank, r: Request) returns (committed: bool, after: Bank)
    requires r in b.inflight
    ensures after == Exec(b, Commit(r))
    ensures committed <==> Transact(b, r).Some?
    ensures after.limits == b.limits && after.payees == b.payees
  {
    var result := RunBody(b, r);
    TransactKeepsSettings(b, r);
    committed, after := result.Some?, Retire(if result.Some? then result.value else b, r);
    assert Finish(b, r) == if result.Some? then result.value else b;
  }

  class Store {
    const limits: Limits
    const payees: set<string>
    const book: Book
    var disabled: set<UserId>
    var accounts: map<AccountId, Account>
    var rows: seq<Row>
    var transfers: seq<Transfer>
    var checks: seq<Check>
    var inflight: multiset<Request>
    var log: seq<Event>

    function State(): Bank
      reads this, book
    {
      Bank(limits, disabled, payees, accounts, book.codes, book.journals, rows, transfers, checks, inflight, log)
    }

    constructor (limits: Limits, disabled: set<UserId>, payees: set<string>, accounts: map<AccountId, Account>)
      requires limits.Sane()
      ensures fresh(book)
      ensures State().accounts == accounts && State().limits == limits
      ensures Opening(State())
    {
      this.limits, this.disabled, this.payees, this.accounts := limits, disabled, payees, accounts;
      book := new Book();
      rows, transfers, checks, inflight, log := [], [], [], multiset{}, [];
      new;
      assert SYSTEM_CODES[0] != SYSTEM_CODES[1];
    }

    /** The unlocked part of `initiate`: answers, and on success leaves a request in flight. */
    method Submit(user: UserId, key: string, dto: Dto, table: Fx.RateTable) returns (answer: Answer)
      modifies this`inflight
      ensures answer == Precheck(old(State()), user, key, dto, table)
      ensures answer.Proceed? <==> exists cents, fee :: MayStart(old(State()), user, key, dto, table, cents, fee)
      ensures answer.Proceed? ==>
                && answer.req.InitiateReq?
                && MayStart(old(State()), user, key, dto, table, answer.req.cents, answer.req.fee)
                && inflight == old(inflight) + multiset{answer.req}
      ensures State() == Exec(old(State()), Label.Submit(user, key, dto, table))
    {
      hide MayStart, Exec;
      StartsOrNot(State(), user, key, dto, table);
      SubmitStep(State(), user, key, dto, table);
      if key == "" {
        return Refuse(KeyRequired);
      }
      if user in disabled {
        return Refuse(TransfersDisabled);
      }
      var replay := FindByKey(transfers, key);
      if replay.Some? {
        return if transfers[replay.value].user != user then Refuse(KeyTaken) else Replay(replay.value);
      }
      var settlement := Fx.ResolveSettlement(table, dto.kind.WireOut?, dto.cents, dto.sendCurrency, dto.sendMinor);
      if settlement.None? {
        return Refuse(UnsupportedCurrency);
      }
      var quote := Price(limits, dto.kind, settlement.value, dto.instant, Scope(dto));
      if quote.Unavailable? {
        return Refuse(QuoteRefused(quote.reason));
      }
      var gate := WireGate(State(), dto);
      if gate.Some? {
        return Refuse(gate.value);
      }
      gate := AccountGate(State(), user, dto, settlement.value + quote.feeCents);
      if gate.Some? {
        return Refuse(gate.value);
      }
      var r := InitiateReq(user, key, dto.kind, dto.from, dto.to, settlement.value, quote.feeCents, dto.instant);
      inflight := inflight + multiset{r};
      return Proceed(r);
    }

    /** Makes a transaction's view of the tables the current one. */
    method Install(b: Bank)
      requires b.limits == limits && b.payees == payees
      modifies this, book
      ensures State() == b
    {
      disabled, accounts, rows, transfers := b.disabled, b.accounts, b.rows, b.transfers;
      checks, inflight, log := b.checks, b.inflight, b.log;
      book.codes, book.journals := b.codes, b.journals;
    }

    /** Runs the transaction of a request in flight: commits it whole, or rolls it back without a trace. */
    method RunTransaction(r: Request) returns (committed: bool)
      requires r in inflight
      modifies this, book
      ensures State() == Exec(old(State()), Commit(r))
      ensures committed <==> Transact(old(State()), r).Some?
    {
      var after;
      committed, after := Conclude(State(), r);
      Install(after);
    }

    /** The unlocked part of a settlement job. */
    method PickUp(id: nat) returns (held: bool)
      modifies this`inflight
      ensures State() == Exec(old(State()), StartSettle(id))
      ensures held <==>
              id >= |transfers| || transfers[id].status != Pending
              || (transfers[id].requiresReview && transfers[id].decision != Approved)
      ensures inflight == old(inflight) + if held then multiset{} else multiset{SettleReq(id, transfers[id])}
    {
      if id >= |transfers| || !transfers[id].status.Pending? {
        return true;
      }
      var t := transfers[id];
      if t.requiresReview && !t.decision.Approved? {
        return true;
      }
      inflight := inflight + multiset{SettleReq(id, t)};
      return false;
    }

    /** A job out of attempts marks its transfer declined, whatever it is by then: `read` is the transfer as the last
        attempt saw it, none when that attempt failed before it could look. */
    method OnFailed(id: nat, read: Option<Transfer>)
      requires read.Some? ==> SettleReq(id, read.value) in inflight
      modifies this`inflight, this`transfers, this`log
      ensures State() == Exec(old(State()), if read.Some? then FailJob(SettleReq(id, read.value)) else FailUnread(id))
      ensures |transfers| == |old(transfers)|
      ensures forall i :: 0 <= i < |transfers| ==>
                transfers[i] == if i == id then old(transfers)[i].(status := Declined) else old(transfers)[i]
    {
      hide Transact, Started;
      if read.Some? {
        inflight := inflight - multiset{SettleReq(id, read.value)};
      }
      if id < |transfers| {
        transfers := transfers[id := transfers[id].(status := Declined)];
        log := log + [Failed(id)];
      }
    }

    /** An administrator sets any transfer back to pending, a settled or refunded one too. */
    method ForceSettle(id: nat)
      modifies this`transfers, this`log
      ensures State() == Exec(old(State()), Label.ForceSettle(id))
      ensures |transfers| == |old(transfers)|
      ensures forall i :: 0 <= i < |transfers| ==>
                transfers[i] == if i == id then old(transfers)[i].(status := Pending) else old(transfers)[i]
    {
      if id < |transfers| && !transfers[id].status.Pending? {
        transfers := transfers[id := transfers[id].(status := Pending)];
        log := log + [Reopened(id)];
      }
    }

    /** An administrator's lock on a user's transfers; in force from the next request on. */
    method SetTransfersDisabled(actor: UserId, user: UserId, known: bool, lock: bool) returns (ok: bool)
      modifies this`disabled
      ensures ok <==> actor != user && known
      ensures State() == if ok then Exec(old(State()), SetTransfers(user, lock)) else old(State())
      ensures ok ==> (user in disabled <==> lock)
      ensures forall u :: u != user ==> (u in disabled <==> u in old(disabled))
    {
      if user == actor || !known {
        return false;
      }
      ok := true;
      if lock {
        disabled := disabled + {user};
      } else {
        disabled := disabled - {user};
      }
    }

    /** The reads and checks of an admin decision; `true` when the decision goes ahead. */
    method OpenDecision(id: nat, approve: bool, reason: string) returns (ok: bool)
      modifies this`inflight
      ensures State() == Exec(old(State()), if approve then StartApprove(id) else StartReject(id, reason))
      ensures ok <==>
              (approve || !Blank(reason)) && id < |transfers|
              && transfers[id].requiresReview && transfers[id].decision == Undecided
      ensures inflight == old(inflight) +
              if !ok then multiset{}
              else multiset{if approve then ApproveReq(id, transfers[id]) else RejectReq(id, transfers[id])}
    {
      if !approve && Blank(reason) {
        return false;
      }
      if id >= |transfers| || !transfers[id].requiresReview || !transfers[id].decision.Undecided? {
        return false;
      }
      var t := transfers[id];
      inflight := inflight + multiset{if approve then ApproveReq(id, t) else RejectReq(id, t)};
      return true;
    }

    /** A customer's mobile deposit: positive, at most $500,000, held for review. */
    method SubmitCheck(account: AccountId, cents: int) returns (ok: bool)
      modifies this`checks
      ensures State() == Exec(old(State()), Label.SubmitCheck(account, cents))
      ensures ok <==> 0 < cents <= 50_000_000 && account in accounts
      ensures checks == old(checks) + if ok then [Check(account, cents, CheckPending)] else []
    {
      if cents <= 0 || cents > 50_000_000 || account !in accounts {
        return false;
      }
      checks := checks + [Check(account, cents, CheckPending)];
      return true;
    }

    /** The reads and checks before a deposit's approval or rejection. */
    method OpenDeposit(id: nat, approve: bool) returns (ok: bool)
      modifies this`inflight
      ensures State() == Exec(old(State()), if approve then StartCredit(id) else StartDeny(id))
      ensures ok <==> id < |checks| && checks[id].status.CheckPending? && (approve ==> checks[id].account in accounts)
      ensures inflight == old(inflight) +
              if !ok then multiset{}
              else multiset{if approve then CreditReq(id, checks[id]) else DenyReq(id, checks[id])}
    {
      if id >= |checks| || !checks[id].status.CheckPending? {
        return false;
      }
      if approve && checks[id].account !in accounts {
        return false;
      }
      inflight := inflight + multiset{if approve then CreditReq(id, checks[id]) else DenyReq(id, checks[id])};
      return true;
    }
  }
}
