/** Whose money moves: when a call of `initiate` goes ahead, and that every transfer, in every run, is its owner's own. */
module BankOwners {
  import opened Sums
  import opened Ledger
  import opened Quote
  import opened Bank
  import opened BankShape
  import opened BankAgreement
  import opened BankLifecycle
  import Fx

  // ----- when a request goes ahead -----

  /** The wire details a wire needs: an approved payee's account number for a local one, codes for an international one. */
  ghost predicate WireReady(b: Bank, dto: Dto) {
    dto.kind == WireOut ==>
      && dto.wire.Some?
      && (dto.wire.value.local ==> dto.wire.value.normalisedIban != "" && dto.wire.value.normalisedIban in b.payees)
      && (!dto.wire.value.local ==> dto.wire.value.swiftBic != "" && dto.wire.value.iban != "")
  }

  /** The customer's own active account holds the total, and an internal destination is the customer's too. */
  ghost predicate AccountsReady(b: Bank, user: UserId, dto: Dto, total: int) {
    && dto.from in b.accounts
    && b.accounts[dto.from].owner == user
    && b.accounts[dto.from].active
    && b.accounts[dto.from].balance >= total
    && (dto.kind == Internal ==>
          dto.to.Some? && dto.to.value in b.accounts && b.accounts[dto.to.value].owner == user)
  }

  /** The service prices an international wire as one, and everything else as domestic. */
  ghost predicate ScopeIs(dto: Dto, scope: WireScope) {
    scope == International <==> dto.kind == WireOut && dto.wire.Some? && !dto.wire.value.local
  }

  /** The call is quoted: the dollars it settles for, and their fee. */
  ghost predicate QuotedAt(b: Bank, dto: Dto, table: Fx.RateTable, cents: int, fee: int) {
    && Fx.ResolveSettlement(table, dto.kind == WireOut, dto.cents, dto.sendCurrency, dto.sendMinor) == Some(cents)
    && exists scope :: ScopeIs(dto, scope) && Price(b.limits, dto.kind, cents, dto.instant, scope) == Priced(fee)
  }

  ghost predicate MayStart(b: Bank, user: UserId, key: string, dto: Dto, table: Fx.RateTable, cents: int, fee: int) {
    && key != "" && (forall i :: 0 <= i < |b.transfers| ==> b.transfers[i].key != key)
    && user !in b.disabled
    && QuotedAt(b, dto, table, cents, fee)
    && WireReady(b, dto)
    && AccountsReady(b, user, dto, cents + fee)
  }

  /** A call goes ahead if and only if its key is new, its user may transfer, it is quoted, a wire has its details, and the
      accounts are the caller's own with the amount and the fee at hand; it then asks for exactly what was quoted. */
  lemma StartsExactly(b: Bank, user: UserId, key: string, dto: Dto, table: Fx.RateTable, cents: int, fee: int)
    ensures MayStart(b, user, key, dto, table, cents, fee) <==>
            Precheck(b, user, key, dto, table)
            == Proceed(InitiateReq(user, key, dto.kind, dto.from, dto.to, cents, fee, dto.instant))
    ensures Precheck(b, user, key, dto, table).Proceed? ==>
              var r := Precheck(b, user, key, dto, table).req;
              r.InitiateReq? && MayStart(b, user, key, dto, table, r.cents, r.fee)
  {
    hide Price, Fx.ResolveSettlement, FindByKey;
    var found := FindByKey(b.transfers, key);
    var scope := if dto.kind == WireOut && dto.wire.Some? && !dto.wire.value.local then International else Domestic;
    assert ScopeIs(dto, scope) && Scope(dto) == scope;
    assert forall s :: ScopeIs(dto, s) ==> s == scope;
  }

  lemma StartsOrNot(b: Bank, user: UserId, key: string, dto: Dto, table: Fx.RateTable)
    ensures Precheck(b, user, key, dto, table).Proceed? <==>
            exists cents, fee :: MayStart(b, user, key, dto, table, cents, fee)
    ensures Precheck(b, user, key, dto, table).Proceed? ==>
              var r := Precheck(b, user, key, dto, table).req;
              r.InitiateReq? && MayStart(b, user, key, dto, table, r.cents, r.fee)
  {
    hide Precheck, MayStart;
    StartsExactly(b, user, key, dto, table, 0, 0);
    if cents, fee :| MayStart(b, user, key, dto, table, cents, fee) {
      StartsExactly(b, user, key, dto, table, cents, fee);
    }
  }

  /** A used key answers its own user with a transfer that carries it, and refuses anybody else. */
  lemma KnownKeysReplay(b: Bank, user: UserId, key: string, dto: Dto, table: Fx.RateTable)
    requires key != "" && user !in b.disabled && exists i :: 0 <= i < |b.transfers| && b.transfers[i].key == key
    ensures match Precheck(b, user, key, dto, table)
            case Replay(i) => i < |b.transfers| && b.transfers[i].key == key && b.transfers[i].user == user
            case Refuse(why) =>
              why == KeyTaken && exists i :: 0 <= i < |b.transfers| && b.transfers[i].key == key && b.transfers[i].user != user
            case Proceed(_) => false
  {
    var found := FindByKey(b.transfers, key);
  }

  /** What each refusal says is wrong with the call. */
  ghost predicate Fault(b: Bank, user: UserId, key: string, dto: Dto, table: Fx.RateTable, why: Reason) {
    var settled := Fx.ResolveSettlement(table, dto.kind == WireOut, dto.cents, dto.sendCurrency, dto.sendMinor);
    match why
    case KeyRequired => key == ""
    case TransfersDisabled => user in b.disabled
    case KeyTaken => exists i :: 0 <= i < |b.transfers| && b.transfers[i].key == key && b.transfers[i].user != user
    case UnsupportedCurrency => settled == None
    case QuoteRefused(r) =>
      settled.Some? && exists scope ::
        ScopeIs(dto, scope) && Price(b.limits, dto.kind, settled.value, dto.instant, scope) == Unavailable(r)
    case WireDetailsRequired => dto.kind == WireOut && dto.wire.None?
    case WireDetailsIncomplete =>
      dto.kind == WireOut && dto.wire.Some? &&
      if dto.wire.value.local then dto.wire.value.normalisedIban == ""
      else dto.wire.value.swiftBic == "" || dto.wire.value.iban == ""
    case BeneficiaryNotFound =>
      dto.kind == WireOut && dto.wire.Some? && dto.wire.value.local && dto.wire.value.normalisedIban !in b.payees
    case SourceNotFound => dto.from !in b.accounts
    case NotYourAccount => dto.from in b.accounts && b.accounts[dto.from].owner != user
    case SourceInactive => dto.from in b.accounts && !b.accounts[dto.from].active
    case DestinationRequired => dto.kind == Internal && dto.to.None?
    case DestinationNotFound => dto.kind == Internal && dto.to.Some? && dto.to.value !in b.accounts
    case CrossUserInternal =>
      dto.kind == Internal && dto.to.Some? && dto.to.value in b.accounts && b.accounts[dto.to.value].owner != user
    case InsufficientFunds =>
      dto.from in b.accounts && exists cents, fee ::
        QuotedAt(b, dto, table, cents, fee) && b.accounts[dto.from].balance < cents + fee
  }

  /** Every refusal is true: what it names is wrong with the call. */
  lemma RefusalsAreTrue(b: Bank, user: UserId, key: string, dto: Dto, table: Fx.RateTable)
    ensures var answer := Precheck(b, user, key, dto, table);
            answer.Refuse? ==> Fault(b, user, key, dto, table, answer.reason)
  {
    hide Price, Fx.ResolveSettlement, FindByKey;
    var found := FindByKey(b.transfers, key);
    var scope := if dto.kind == WireOut && dto.wire.Some? && !dto.wire.value.local then International else Domestic;
    assert ScopeIs(dto, scope) && Scope(dto) == scope;
    var settled := Fx.ResolveSettlement(table, dto.kind == WireOut, dto.cents, dto.sendCurrency, dto.sendMinor);
    if settled.Some? && Price(b.limits, dto.kind, settled.value, dto.instant, scope).Priced? {
      assert QuotedAt(b, dto, table, settled.value, Price(b.limits, dto.kind, settled.value, dto.instant, scope).feeCents);
    }
  }

  // ----- ownership over runs -----

  /** An account of `accounts` that is `user`'s. */
  ghost predicate Owns(accounts: map<AccountId, Account>, user: UserId, a: AccountId) {
    a in accounts && accounts[a].owner == user
  }

  ghost predicate OwnTerms(b: Bank, user: UserId, kind: Kind, from: AccountId, to: Option<AccountId>) {
    && Owns(b.accounts, user, from)
    && (kind == Internal ==> to.Some? && Owns(b.accounts, user, to.value))
  }

  ghost predicate OwnTransfer(b: Bank, t: Transfer) {
    OwnTerms(b, t.user, t.kind, t.from, t.to)
  }

  ghost predicate OwnRequest(b: Bank, r: Request) {
    r.InitiateReq? ==> OwnTerms(b, r.user, r.kind, r.from, r.to)
  }

  ghost predicate AllOwned(b: Bank) {
    && (forall i :: 0 <= i < |b.transfers| ==> OwnTransfer(b, b.transfers[i]))
    && (forall r :: r in b.inflight ==> OwnRequest(b, r))
  }

  /** The same accounts, with the same owners and states. */
  ghost predicate SameOwners(b: Bank, c: Bank) {
    && c.accounts.Keys == b.accounts.Keys
    && forall a :: a in b.accounts ==>
         c.accounts[a].owner == b.accounts[a].owner && c.accounts[a].active == b.accounts[a].active
  }

  lemma TransactKeepsOwners(b: Bank, r: Request)
    requires Transact(b, r).Some?
    ensures SameOwners(b, Transact(b, r).value)
  {
    hide PostOutcome, PendingPostings, SettlePostings, RejectPostings, InitiateCodes, SettleCodes, FindByKey, OverwriteNote;
  }

  lemma CommitTables(b: Bank, l: Label)
    requires Commits(b, l)
    ensures var c, d := Transact(b, l.req).value, Exec(b, l);
            d.accounts == c.accounts && d.transfers == c.transfers && forall r :: r in d.inflight ==> r in c.inflight
  {
    hide Transact;
  }

  lemma StepKeepsOwners(b: Bank, l: Label)
    ensures SameOwners(b, Exec(b, l))
  {
    hide Exec, Transact;
    if Commits(b, l) {
      CommitTables(b, l);
      TransactKeepsOwners(b, l.req);
    } else {
      QuietStep(b, l);
    }
  }

  lemma OwnersKeepTerms(b: Bank, c: Bank)
    requires SameOwners(b, c)
    ensures forall user, kind, from, to :: OwnTerms(b, user, kind, from, to) ==> OwnTerms(c, user, kind, from, to)
  {
  }

  lemma StartedOwned(b: Bank, l: Label)
    requires Started(b, l).Some?
    ensures OwnRequest(b, Started(b, l).value)
  {
    hide Precheck;
    if l.Submit? {
      StartsExactly(b, l.user, l.key, l.dto, l.table, 0, 0);
      var r := Started(b, l).value;
      assert Precheck(b, l.user, l.key, l.dto, l.table) == Proceed(r);
      StartsExactly(b, l.user, l.key, l.dto, l.table, r.cents, r.fee);
    }
  }

  lemma TransactOwned(b: Bank, r: Request)
    requires AllOwned(b) && OwnRequest(b, r) && Transact(b, r).Some?
    ensures var c := Transact(b, r).value;
            && (forall i :: 0 <= i < |c.transfers| ==> OwnTransfer(b, c.transfers[i]))
            && c.inflight == b.inflight
  {
    hide PostOutcome, PendingPostings, SettlePostings, RejectPostings, InitiateCodes, SettleCodes, FindByKey, OverwriteNote;
    var c := Transact(b, r).value;
    TransactPersists(b, r);
    forall i | 0 <= i < |c.transfers|
      ensures OwnTransfer(b, c.transfers[i])
    {
      if i < |b.transfers| {
        assert OwnTransfer(b, b.transfers[i]) && SameTerms(b.transfers[i], c.transfers[i]);
      }
    }
  }

  lemma StepOwned(b: Bank, l: Label)
    requires AllOwned(b)
    ensures AllOwned(Exec(b, l))
  {
    hide Exec, Transact, OwnTerms, SameOwners;
    var c := Exec(b, l);
    StepKeepsOwners(b, l);
    OwnersKeepTerms(b, c);
    if Commits(b, l) {
      CommitTables(b, l);
      TransactOwned(b, l.req);
    } else {
      QuietTransfers(b, l);
      QuietOwned(b, l);
      forall i | 0 <= i < |b.transfers|
        ensures OwnTransfer(b, c.transfers[i])
      {
        assert OwnTransfer(b, b.transfers[i]) && SameTerms(b.transfers[i], c.transfers[i]);
      }
    }
  }

  lemma QuietOwned(b: Bank, l: Label)
    requires !Commits(b, l) && AllOwned(b)
    ensures forall r :: r in Exec(b, l).inflight ==> OwnRequest(b, r)
  {
    hide Transact, Started, OwnRequest;
    if Started(b, l).Some? {
      StartedOwned(b, l);
    }
  }

  lemma {:induction false} RunOwned(b: Bank, labels: seq<Label>)
    requires AllOwned(b)
    ensures AllOwned(Run(b, labels)) && SameOwners(b, Run(b, labels))
    decreases |labels|
  {
    hide Exec, AllOwned;
    if labels != [] {
      StepOwned(b, labels[0]);
      StepKeepsOwners(b, labels[0]);
      RunOwned(Exec(b, labels[0]), labels[1..]);
    }
  }

  /** In every reachable state the account a transfer debits belongs to the user who asked for it, an internal transfer
      has a destination that belongs to the same user, and accounts never change hands. */
  lemma TransfersAreOwned(start: Bank, labels: seq<Label>, id: nat)
    requires Opening(start) && id < |Run(start, labels).transfers|
    ensures var b := Run(start, labels);
            var t := b.transfers[id];
            && t.from in b.accounts && b.accounts[t.from].owner == t.user
            && (t.kind == Internal ==>
                  t.to.Some? && t.to.value in b.accounts && b.accounts[t.to.value].owner == t.user)
            && b.accounts.Keys == start.accounts.Keys
            && (forall a :: a in start.accounts ==> b.accounts[a].owner == start.accounts[a].owner)
  {
    hide Run, Exec;
    RunOwned(start, labels);
    assert OwnTransfer(Run(start, labels), Run(start, labels).transfers[id]);
  }
}
