/** The money core as a state machine: tables, requests in flight, and one total step function.

    A request first reads rows outside any transaction and is then *in flight*, carrying what it
    read; its transaction commits in a later step, possibly after other requests committed. A step
    that the code refuses or rolls back leaves the tables unchanged. Rows and transfers are
    identified by their position in their table, which stands for the random identifiers of the
    database. */
module Bank {
  import opened Sums
  import opened Ledger
  import opened Quote
  import opened Text
  import Fx

  type AccountId = string
  type UserId = string

  datatype Status = Pending | Posted | Declined | Reversed
  datatype Decision = Undecided | Approved | Rejected

  datatype Account = Account(owner: UserId, active: bool, balance: int)

  datatype RowKind = Adjustment | AchInRow | AchOutRow | P2pOutRow | P2pInRow | DepositRow

  /** A line of a customer's feed. */
  datatype Row = Row(account: AccountId, kind: RowKind, status: Status, cents: int)

  datatype Transfer = Transfer(
    kind: Kind,
    status: Status,
    from: AccountId,
    to: Option<AccountId>,
    cents: int,
    fee: int,
    instant: bool,
    user: UserId,
    key: string,
    pendingRow: nat,
    requiresReview: bool,
    decision: Decision)

  datatype CheckStatus = CheckPending | CheckApproved | CheckRejected
  datatype Check = Check(account: AccountId, cents: int, status: CheckStatus)

  datatype WireDetails = WireDetails(local: bool, swiftBic: string, iban: string, normalisedIban: string)

  datatype Dto = Dto(
    kind: Kind,
    from: AccountId,
    to: Option<AccountId>,
    cents: int,
    instant: bool,
    wire: Option<WireDetails>,
    sendCurrency: string,
    sendMinor: Option<int>)

  /** A request past its unlocked reads; `seen` and `check` are the rows it read. */
  datatype Request =
    | InitiateReq(user: UserId, key: string, kind: Kind, from: AccountId, to: Option<AccountId>,
                  cents: int, fee: int, instant: bool)
    | SettleReq(id: nat, seen: Transfer)
    | ApproveReq(id: nat, seen: Transfer)
    | RejectReq(id: nat, seen: Transfer)
    | CreditReq(id: nat, check: Check)
    | DenyReq(id: nat, check: Check)

  /** What committed, in order. `Overwrote` records a transaction that found its transfer's feed row
      already taken out of the balance. */
  datatype Event =
    | Initiated(id: nat)
    | Settled(id: nat)
    | ApprovedBy(id: nat)
    | RejectedBy(id: nat)
    | Failed(id: nat)
    | Reopened(id: nat)
    | Credited(id: nat)
    | Overwrote(account: AccountId, cents: int)

  datatype Bank = Bank(
    limits: Limits,
    disabled: set<UserId>,
    payees: set<string>,
    accounts: map<AccountId, Account>,
    codes: seq<string>,
    journals: seq<Journal>,
    rows: seq<Row>,
    transfers: seq<Transfer>,
    checks: seq<Check>,
    inflight: multiset<Request>,
    log: seq<Event>)

  // ----- initiate: the unlocked pre-check -----

  datatype Reason =
    | KeyRequired | TransfersDisabled | KeyTaken | UnsupportedCurrency | QuoteRefused(why: Refusal)
    | WireDetailsRequired | WireDetailsIncomplete | BeneficiaryNotFound
    | SourceNotFound | NotYourAccount | SourceInactive
    | DestinationRequired | DestinationNotFound | CrossUserInternal | InsufficientFunds

  datatype Answer = Refuse(reason: Reason) | Replay(id: nat) | Proceed(req: Request)

  function FindByKey(ts: seq<Transfer>, key: string): (r: Option<nat>)
    ensures r.Some? ==> r.value < |ts| && ts[r.value].key == key
    ensures r.None? ==> forall i :: 0 <= i < |ts| ==> ts[i].key != key
  {
    if ts == [] then None
    else if ts[|ts| - 1].key == key then Some(|ts| - 1)
    else FindByKey(ts[..|ts| - 1], key)
  }

  function WireGate(b: Bank, dto: Dto): Option<Reason> {
    if !dto.kind.WireOut? then None
    else match dto.wire
      case None => Some(WireDetailsRequired)
      case Some(w) =>
        if w.local then
          if w.normalisedIban == "" then Some(WireDetailsIncomplete)
          else if w.normalisedIban !in b.payees then Some(BeneficiaryNotFound)
          else None
        else if w.swiftBic == "" || w.iban == "" then Some(WireDetailsIncomplete)
        else None
  }

  function Scope(dto: Dto): WireScope {
    if dto.kind.WireOut? && dto.wire.Some? && !dto.wire.value.local then International else Domestic
  }

  function AccountGate(b: Bank, user: UserId, dto: Dto, total: int): Option<Reason> {
    if dto.from !in b.accounts then Some(SourceNotFound)
    else if b.accounts[dto.from].owner != user then Some(NotYourAccount)
    else if !b.accounts[dto.from].active then Some(SourceInactive)
    else if dto.kind.Internal? && dto.to.None? then Some(DestinationRequired)
    else if dto.kind.Internal? && dto.to.value !in b.accounts then Some(DestinationNotFound)
    else if dto.kind.Internal? && b.accounts[dto.to.value].owner != user then Some(CrossUserInternal)
    else if b.accounts[dto.from].balance < total then Some(InsufficientFunds)
    else None
  }

  function Precheck(b: Bank, user: UserId, key: string, dto: Dto, table: Fx.RateTable): Answer {
    if key == "" then Refuse(KeyRequired)
    else if user in b.disabled then Refuse(TransfersDisabled)
    else match FindByKey(b.transfers, key)
      case Some(i) => if b.transfers[i].user != user then Refuse(KeyTaken) else Replay(i)
      case None =>
        match Fx.ResolveSettlement(table, dto.kind.WireOut?, dto.cents, dto.sendCurrency, dto.sendMinor)
        case None => Refuse(UnsupportedCurrency)
        case Some(cents) =>
          match Price(b.limits, dto.kind, cents, dto.instant, Scope(dto))
          case Unavailable(why) => Refuse(QuoteRefused(why))
          case Priced(fee) =>
            match WireGate(b, dto)
            case Some(why) => Refuse(why)
            case None =>
              match AccountGate(b, user, dto, cents + fee)
              case Some(why) => Refuse(why)
              case None =>
                Proceed(InitiateReq(user, key, dto.kind, dto.from, dto.to, cents, fee, dto.instant))
  }

  /** How a call of `initiate` from another service ends, apart from its key: `Locked` throws before the key is looked
      up, `Unable` is any later refusal, which a known key never meets. */
  datatype Gate = Locked | Unable | Able

  // ----- postings -----

  function PendingPostings(from: AccountId, cents: int, fee: int): seq<Posting> {
    [Posting(AccountCode(from), Debit, cents), Posting(PENDING_OUT, Credit, cents)]
    + if fee > 0 then [Posting(AccountCode(from), Debit, fee), Posting(FEE_REV, Credit, fee)] else []
  }

  predicate PaysAccount(t: Transfer) {
    (t.kind.Internal? || t.kind.P2p?) && t.to.Some?
  }

  function SettlePostings(t: Transfer): seq<Posting> {
    if PaysAccount(t) then [Posting(PENDING_OUT, Debit, t.cents), Posting(AccountCode(t.to.value), Credit, t.cents)]
    else if Inflow(t.kind) then [Posting(CASH, Debit, t.cents), Posting(AccountCode(t.from), Credit, t.cents)]
    else [Posting(PENDING_OUT, Debit, t.cents), Posting(CASH, Credit, t.cents)]
  }

  function RejectPostings(t: Transfer): seq<Posting> {
    [Posting(PENDING_OUT, Debit, t.cents), Posting(AccountCode(t.from), Credit, t.cents)]
    + if t.fee > 0 then [Posting(FEE_REV, Debit, t.fee), Posting(AccountCode(t.from), Credit, t.fee)] else []
  }

  // ----- transactions -----

  function Bump(accounts: map<AccountId, Account>, a: AccountId, delta: int): map<AccountId, Account>
    requires a in accounts
  {
    accounts[a := accounts[a].(balance := accounts[a].balance + delta)]
  }

  function RowKindOf(k: Kind): RowKind {
    match k
    case Internal => Adjustment
    case AchIn | WireIn => AchInRow
    case AchOut | WireOut => AchOutRow
    case P2p => P2pOutRow
  }

  predicate Live(s: Status) {
    s.Pending? || s.Posted?
  }

  function OverwriteNote(row: Row, t: Transfer): seq<Event> {
    if Live(row.status) then [] else [Overwrote(t.from, t.cents + t.fee)]
  }

  function InitiateCodes(b: Bank, r: Request): seq<string>
    requires r.InitiateReq?
  {
    var codes := EnsureCode(b.codes, AccountCode(r.from));
    if r.kind.Internal? && r.to.Some? then EnsureCode(codes, AccountCode(r.to.value)) else codes
  }

  /** The locked part of `initiate`; `None` is a rollback. */
  function CommitInitiate(b: Bank, r: Request): Option<Bank>
    requires r.InitiateReq?
  {
    var total := r.cents + r.fee;
    if r.from !in b.accounts || b.accounts[r.from].balance < total then None
    else
      var postings := PendingPostings(r.from, r.cents, r.fee);
      match PostOutcome(InitiateCodes(b, r), postings)
      case Refused(_) => None
      case Entered(codes) =>
        if FindByKey(b.transfers, r.key).Some? then None
        else
          Some(b.(
            accounts := Bump(b.accounts, r.from, -total),
            codes := codes,
            journals := b.journals + [Journal(PendingPhase, |b.transfers|, postings)],
            rows := b.rows + [Row(r.from, RowKindOf(r.kind), Pending, -total)],
            transfers := b.transfers + [Transfer(
              r.kind, Pending, r.from, r.to, r.cents, r.fee, r.instant, r.user, r.key, |b.rows|,
              NeedsReview(b.limits, r.kind, r.cents), Undecided)],
            log := b.log + [Initiated(|b.transfers|)]))
  }

  /** The accounts credited and the feed row added by a settlement, if any. */
  function SettleCredit(t: Transfer): Option<(AccountId, RowKind)> {
    if PaysAccount(t) then Some((t.to.value, if t.kind.P2p? then P2pInRow else Adjustment))
    else if Inflow(t.kind) then Some((t.from, AchInRow))
    else None
  }

  function SettleCodes(b: Bank, t: Transfer): seq<string> {
    var codes := EnsureCode(b.codes, AccountCode(t.from));
    if PaysAccount(t) then EnsureCode(codes, AccountCode(t.to.value)) else codes
  }

  /** The settlement transaction on the transfer row `t` that the job read; `None` is a rollback. */
  function CommitSettle(b: Bank, id: nat, t: Transfer): Option<Bank> {
    if t.from !in b.accounts || (PaysAccount(t) && t.to.value !in b.accounts) then None
    else match PostOutcome(SettleCodes(b, t), SettlePostings(t))
      case Refused(_) => None
      case Entered(codes) =>
        if t.pendingRow >= |b.rows| || id >= |b.transfers| then None
        else
          var credit := SettleCredit(t);
          var rows := if credit.None? then b.rows
                      else b.rows + [Row(credit.value.0, credit.value.1, Posted, t.cents)];
          Some(b.(
            accounts := if credit.None? then b.accounts else Bump(b.accounts, credit.value.0, t.cents),
            codes := codes,
            journals := b.journals + [Journal(SettlePhase, id, SettlePostings(t))],
            rows := rows[t.pendingRow := rows[t.pendingRow].(status := Posted)],
            transfers := b.transfers[id := b.transfers[id].(status := Posted)],
            log := b.log + OverwriteNote(b.rows[t.pendingRow], t) + [Settled(id)]))
  }

  function CommitReject(b: Bank, id: nat, t: Transfer): Option<Bank> {
    if t.from !in b.accounts then None
    else match PostOutcome(EnsureCode(b.codes, AccountCode(t.from)), RejectPostings(t))
      case Refused(_) => None
      case Entered(codes) =>
        if t.pendingRow >= |b.rows| || id >= |b.transfers| then None
        else
          Some(b.(
            accounts := Bump(b.accounts, t.from, t.cents + t.fee),
            codes := codes,
            journals := b.journals + [Journal(RejectPhase, id, RejectPostings(t))],
            rows := b.rows[t.pendingRow := b.rows[t.pendingRow].(status := Reversed)],
            transfers := b.transfers[id := b.transfers[id].(status := Reversed, decision := Rejected)],
            log := b.log + OverwriteNote(b.rows[t.pendingRow], t) + [RejectedBy(id)]))
  }

  function CommitApprove(b: Bank, id: nat): Option<Bank> {
    if id >= |b.transfers| then None
    else Some(b.(
      transfers := b.transfers[id := b.transfers[id].(decision := Approved)],
      log := b.log + [ApprovedBy(id)]))
  }

  /** A check deposit credits the account with no journal entry. */
  function CommitCredit(b: Bank, id: nat, c: Check): Option<Bank> {
    if c.account !in b.accounts || id >= |b.checks| then None
    else Some(b.(
      accounts := Bump(b.accounts, c.account, c.cents),
      rows := b.rows + [Row(c.account, DepositRow, Posted, c.cents)],
      checks := b.checks[id := b.checks[id].(status := CheckApproved)],
      log := b.log + [Credited(id)]))
  }

  function CommitDeny(b: Bank, id: nat): Option<Bank> {
    if id >= |b.checks| then None
    else Some(b.(checks := b.checks[id := b.checks[id].(status := CheckRejected)]))
  }

  function Transact(b: Bank, r: Request): Option<Bank> {
    match r
    case InitiateReq(_, _, _, _, _, _, _, _) => CommitInitiate(b, r)
    case SettleReq(id, t) => CommitSettle(b, id, t)
    case ApproveReq(id, _) => CommitApprove(b, id)
    case RejectReq(id, t) => CommitReject(b, id, t)
    case CreditReq(id, c) => CommitCredit(b, id, c)
    case DenyReq(id, _) => CommitDeny(b, id)
  }

  // ----- steps and runs -----

  /** A settlement job goes on past its two early returns. */
  predicate Settles(t: Transfer) {
    t.status.Pending? && (t.requiresReview ==> t.decision.Approved?)
  }

  predicate Reviewable(t: Transfer) {
    t.requiresReview && t.decision.Undecided?
  }

  /** `FailJob` is a job out of attempts whose last transaction failed, `FailUnread` one whose last read failed before it
      knew the transfer. */
  datatype Label =
    | Submit(user: UserId, key: string, dto: Dto, table: Fx.RateTable)
    | StartSettle(id: nat)
    | StartApprove(id: nat)
    | StartReject(id: nat, reason: string)
    | SubmitCheck(account: AccountId, cents: int)
    | StartCredit(id: nat)
    | StartDeny(id: nat)
    | Commit(req: Request)
    | FailJob(req: Request)
    | FailUnread(id: nat)
    | ForceSettle(id: nat)
    | SetTransfers(user: UserId, disabled: bool)

  function Launch(b: Bank, r: Request): Bank {
    b.(inflight := b.inflight + multiset{r})
  }

  function Retire(b: Bank, r: Request): Bank {
    b.(inflight := b.inflight - multiset{r})
  }

  function Reopen(b: Bank, id: nat): Bank {
    if id < |b.transfers| && !b.transfers[id].status.Pending? then
      b.(transfers := b.transfers[id := b.transfers[id].(status := Pending)], log := b.log + [Reopened(id)])
    else b
  }

  function MarkFailed(b: Bank, id: nat): Bank {
    if id < |b.transfers| then
      b.(transfers := b.transfers[id := b.transfers[id].(status := Declined)], log := b.log + [Failed(id)])
    else b
  }

  /** The request a starting step puts in flight, when its unlocked reads let it through. */
  function Started(b: Bank, l: Label): Option<Request> {
    match l
    case Submit(user, key, dto, table) =>
      (match Precheck(b, user, key, dto, table)
       case Proceed(r) => Some(r)
       case _ => None)
    case StartSettle(id) =>
      if id < |b.transfers| && Settles(b.transfers[id]) then Some(SettleReq(id, b.transfers[id])) else None
    case StartApprove(id) =>
      if id < |b.transfers| && Reviewable(b.transfers[id]) then Some(ApproveReq(id, b.transfers[id])) else None
    case StartReject(id, reason) =>
      if !Blank(reason) && id < |b.transfers| && Reviewable(b.transfers[id]) then
        Some(RejectReq(id, b.transfers[id]))
      else None
    case StartCredit(id) =>
      if id < |b.checks| && b.checks[id].status.CheckPending? && b.checks[id].account in b.accounts then
        Some(CreditReq(id, b.checks[id]))
      else None
    case StartDeny(id) =>
      if id < |b.checks| && b.checks[id].status.CheckPending? then Some(DenyReq(id, b.checks[id])) else None
    case _ => None
  }

  /** An administrator disables or enables a user's transfers. */
  function LockTransfers(b: Bank, user: UserId, disabled: bool): Bank {
    b.(disabled := if disabled then b.disabled + {user} else b.disabled - {user})
  }

  function RecordCheck(b: Bank, account: AccountId, cents: int): Bank {
    if 0 < cents <= 50_000_000 && account in b.accounts then
      b.(checks := b.checks + [Check(account, cents, CheckPending)])
    else b
  }

  /** The tables after a request's transaction committed or rolled back. */
  function Finish(b: Bank, r: Request): Bank {
    match Transact(b, r)
    case None => b
    case Some(c) => c
  }

  function Exec(b: Bank, l: Label): Bank {
    match l
    case SubmitCheck(account, cents) => RecordCheck(b, account, cents)
    case Commit(r) => if r in b.inflight then Retire(Finish(b, r), r) else b
    case FailJob(r) => if r in b.inflight && r.SettleReq? then Retire(MarkFailed(b, r.id), r) else b
    case FailUnread(id) => MarkFailed(b, id)
    case ForceSettle(id) => Reopen(b, id)
    case SetTransfers(user, disabled) => LockTransfers(b, user, disabled)
    case _ =>
      (match Started(b, l)
       case None => b
       case Some(r) => Launch(b, r))
  }

  function Run(b: Bank, labels: seq<Label>): Bank
    decreases |labels|
  {
    if labels == [] then b else Run(Exec(b, labels[0]), labels[1..])
  }

  /** A start: any accounts and balances, system ledger accounts seeded, empty histories. */
  ghost predicate Opening(b: Bank) {
    && b.limits.Sane()
    && Distinct(b.codes)
    && (forall i :: 0 <= i < |SYSTEM_CODES| ==> SYSTEM_CODES[i] in b.codes)
    && b.journals == [] && b.rows == [] && b.transfers == [] && b.checks == []
    && b.inflight == multiset{} && b.log == []
  }
}
