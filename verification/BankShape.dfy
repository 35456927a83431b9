/** What every step keeps, whatever the interleaving: ledger entries are balanced and refer to known
    accounts, transfers point at their own feed row, and requests in flight quote real rows. */
module BankShape {
  import opened Sums
  import opened Ledger
  import opened Quote
  import opened Bank

  ghost predicate SystemSeeded(codes: seq<string>) {
    CASH in codes && PENDING_OUT in codes && FEE_REV in codes
  }

  /** A code the money core may post on. */
  ghost predicate Bookable(accounts: map<AccountId, Account>, code: string) {
    code == CASH || code == PENDING_OUT || code == FEE_REV || exists a :: a in accounts && code == AccountCode(a)
  }

  ghost predicate JournalShape(b: Bank, j: Journal) {
    && WellPosted(b.codes, j)
    && j.ref < |b.transfers|
    && forall k :: 0 <= k < |j.postings| ==> Bookable(b.accounts, j.postings[k].code)
  }

  ghost predicate TransferShape(b: Bank, t: Transfer) {
    && 0 <= t.cents && 0 <= t.fee
    && t.from in b.accounts
    && t.requiresReview == NeedsReview(b.limits, t.kind, t.cents)
    && (!t.decision.Undecided? ==> t.requiresReview)
    && t.pendingRow < |b.rows|
    && b.rows[t.pendingRow].account == t.from
    && b.rows[t.pendingRow].cents == -(t.cents + t.fee)
    && !b.rows[t.pendingRow].kind.DepositRow?
  }

  /** Equal in everything that never changes after `initiate`. */
  ghost predicate SameTerms(t: Transfer, u: Transfer) {
    t.(status := u.status, decision := u.decision) == u
  }

  ghost predicate RequestShape(b: Bank, r: Request) {
    match r
    case InitiateReq(_, _, _, from, _, cents, fee, _) => 0 <= cents && 0 <= fee && from in b.accounts
    case SettleReq(id, t) => id < |b.transfers| && SameTerms(t, b.transfers[id]) && Settles(t)
    case ApproveReq(id, t) => id < |b.transfers| && SameTerms(t, b.transfers[id]) && Reviewable(t)
    case RejectReq(id, t) => id < |b.transfers| && SameTerms(t, b.transfers[id]) && Reviewable(t)
    case CreditReq(id, c) =>
      id < |b.checks| && c.account in b.accounts && c == b.checks[id].(status := CheckPending)
    case DenyReq(id, c) => id < |b.checks| && c == b.checks[id].(status := CheckPending)
  }

  /** The row a request read is still the same. */
  ghost predicate FreshRequest(b: Bank, r: Request) {
    match r
    case InitiateReq(_, _, _, _, _, _, _, _) => true
    case SettleReq(id, t) => id < |b.transfers| && b.transfers[id] == t
    case ApproveReq(id, t) => id < |b.transfers| && b.transfers[id] == t
    case RejectReq(id, t) => id < |b.transfers| && b.transfers[id] == t
    case CreditReq(id, c) => id < |b.checks| && b.checks[id] == c
    case DenyReq(id, c) => id < |b.checks| && b.checks[id] == c
  }

  ghost predicate Shape(b: Bank) {
    && b.limits.Sane()
    && Distinct(b.codes) && SystemSeeded(b.codes)
    && (forall i :: 0 <= i < |b.journals| ==> JournalShape(b, b.journals[i]))
    && (forall i :: 0 <= i < |b.transfers| ==> TransferShape(b, b.transfers[i]))
    && (forall i, j :: 0 <= i < j < |b.transfers| ==> b.transfers[i].pendingRow != b.transfers[j].pendingRow)
    && (forall i :: 0 <= i < |b.checks| ==> 0 < b.checks[i].cents)
    && (forall r :: r in b.inflight ==> RequestShape(b, r))
  }

  // ----- the three posting lists -----

  lemma SumTwo<T>(x: T, y: T, f: T -> int)
    ensures SumBy([x, y], f) == f(x) + f(y)
  {
    SumAppend([], x, f);
    SumAppend([x], y, f);
    assert [] + [x] == [x] && [x] + [y] == [x, y];
  }

  lemma SumFour<T>(w: T, x: T, y: T, z: T, f: T -> int)
    ensures SumBy([w, x, y, z], f) == f(w) + f(x) + f(y) + f(z)
  {
    assert [w, x, y, z] == [w, x] + [y, z];
    SumConcat([w, x], [y, z], f);
    SumTwo(w, x, f);
    SumTwo(y, z, f);
  }

  /** The credit `amount` makes when the code is the one asked for. */
  function On(code: string, target: string, amount: int): int {
    if code == target then amount else 0
  }

  /** The initiation entry passes every guard of `post`, opens nothing, and moves the amount from the
      sub-ledger to PENDING_OUT and the fee to FEE_REV. */
  lemma PendingPostingsPost(codes: seq<string>, from: AccountId, cents: int, fee: int)
    requires SystemSeeded(codes) && AccountCode(from) in codes && 0 <= fee
    ensures PostOutcome(codes, PendingPostings(from, cents, fee)) == Entered(codes)
    ensures forall c :: Net(PendingPostings(from, cents, fee), c) ==
                        On(c, AccountCode(from), -(cents + fee)) + On(c, PENDING_OUT, cents) + On(c, FEE_REV, fee)
  {
    var ps := PendingPostings(from, cents, fee);
    AccountCodesAreSeparate(from, from);
    PairOrPairsSum(ps, DebitOf());
    PairOrPairsSum(ps, CreditOf());
    KnownPostingsPost(codes, ps);
    forall c
      ensures Net(ps, c) == On(c, AccountCode(from), -(cents + fee)) + On(c, PENDING_OUT, cents) + On(c, FEE_REV, fee)
    {
      PairOrPairsSum(ps, NetOf(c));
    }
  }

  lemma PairOrPairsSum(ps: seq<Posting>, f: Posting -> int)
    ensures |ps| == 2 ==> SumBy(ps, f) == f(ps[0]) + f(ps[1])
    ensures |ps| == 4 ==> SumBy(ps, f) == f(ps[0]) + f(ps[1]) + f(ps[2]) + f(ps[3])
  {
    if |ps| == 2 {
      assert ps == [ps[0], ps[1]];
      SumTwo(ps[0], ps[1], f);
    } else if |ps| == 4 {
      assert ps == [ps[0], ps[1], ps[2], ps[3]];
      SumFour(ps[0], ps[1], ps[2], ps[3], f);
    }
  }

  /** Credits a settlement makes on `code`: out of PENDING_OUT to the payee or to CASH, or from CASH
      to the account of an inflow. */
  function SettleNet(t: Transfer, code: string): int {
    if PaysAccount(t) then On(code, AccountCode(t.to.value), t.cents) + On(code, PENDING_OUT, -t.cents)
    else if Inflow(t.kind) then On(code, AccountCode(t.from), t.cents) + On(code, CASH, -t.cents)
    else On(code, CASH, t.cents) + On(code, PENDING_OUT, -t.cents)
  }

  lemma SettlePostingsPost(codes: seq<string>, t: Transfer)
    requires SystemSeeded(codes) && AccountCode(t.from) in codes
    requires PaysAccount(t) ==> AccountCode(t.to.value) in codes
    ensures PostOutcome(codes, SettlePostings(t)) == Entered(codes)
    ensures forall c :: Net(SettlePostings(t), c) == SettleNet(t, c)
  {
    var ps := SettlePostings(t);
    AccountCodesAreSeparate(t.from, t.from);
    if PaysAccount(t) {
      AccountCodesAreSeparate(t.to.value, t.to.value);
    }
    PairOrPairsSum(ps, DebitOf());
    PairOrPairsSum(ps, CreditOf());
    KnownPostingsPost(codes, ps);
    forall c
      ensures Net(ps, c) == SettleNet(t, c)
    {
      PairOrPairsSum(ps, NetOf(c));
    }
  }

  /** The rejection entry mirrors the initiation entry code by code. */
  lemma RejectPostingsPost(codes: seq<string>, t: Transfer)
    requires SystemSeeded(codes) && AccountCode(t.from) in codes && 0 <= t.fee
    ensures PostOutcome(codes, RejectPostings(t)) == Entered(codes)
    ensures forall c :: Net(RejectPostings(t), c) == -Net(PendingPostings(t.from, t.cents, t.fee), c)
  {
    var ps := RejectPostings(t);
    AccountCodesAreSeparate(t.from, t.from);
    PairOrPairsSum(ps, DebitOf());
    PairOrPairsSum(ps, CreditOf());
    KnownPostingsPost(codes, ps);
    forall c
      ensures Net(ps, c) == -Net(PendingPostings(t.from, t.cents, t.fee), c)
    {
      PairOrPairsSum(ps, NetOf(c));
      PairOrPairsSum(PendingPostings(t.from, t.cents, t.fee), NetOf(c));
    }
  }

  lemma PostedListIsWellPosted(codes: seq<string>, phase: Phase, ref: nat, ps: seq<Posting>)
    requires PostOutcome(codes, ps) == Entered(codes)
    ensures WellPosted(codes, Journal(phase, ref, ps))
  {
    OpenCodesSpec(codes, ps);
  }

  lemma EnsureCodeKeeps(codes: seq<string>, code: string)
    requires Distinct(codes)
    ensures Distinct(EnsureCode(codes, code)) && codes <= EnsureCode(codes, code) && code in EnsureCode(codes, code)
  {
  }

  // ----- every step keeps the shape -----

  /** Journals stay well shaped when tables only grow. */
  lemma JournalsKeepShape(b: Bank, c: Bank)
    requires forall i :: 0 <= i < |b.journals| ==> JournalShape(b, b.journals[i])
    requires b.codes <= c.codes && b.accounts.Keys == c.accounts.Keys && |b.transfers| <= |c.transfers|
    ensures forall i :: 0 <= i < |b.journals| ==> JournalShape(c, b.journals[i])
  {
    forall i | 0 <= i < |b.journals|
      ensures JournalShape(c, b.journals[i])
    {
      var j := b.journals[i];
      assert JournalShape(b, j);
      forall k | 0 <= k < |j.postings|
        ensures Bookable(c.accounts, j.postings[k].code) && j.postings[k].code in c.codes
      {
        var n :| 0 <= n < |b.codes| && b.codes[n] == j.postings[k].code;
        assert c.codes[n] == b.codes[n];
        if a :| a in b.accounts && j.postings[k].code == AccountCode(a) {
          assert a in c.accounts;
        }
      }
    }
  }

  ghost predicate SameIdentity(x: Row, y: Row) {
    x.account == y.account && x.cents == y.cents && x.kind == y.kind
  }

  /** `c` has at least `b`'s rows and transfers, with nothing but status and decision changed. */
  ghost predicate Extends(b: Bank, c: Bank) {
    && c.limits == b.limits
    && c.accounts.Keys == b.accounts.Keys
    && b.codes <= c.codes
    && |b.rows| <= |c.rows| && (forall i :: 0 <= i < |b.rows| ==> SameIdentity(b.rows[i], c.rows[i]))
    && |b.transfers| <= |c.transfers|
    && (forall i :: 0 <= i < |b.transfers| ==> SameTerms(b.transfers[i], c.transfers[i]))
    && |b.checks| <= |c.checks|
    && (forall i :: 0 <= i < |b.checks| ==> b.checks[i].(status := c.checks[i].status) == c.checks[i])
    && c.inflight == b.inflight
  }

  /** An extension that adds only well-shaped things keeps the shape. */
  lemma ExtensionKeepsShape(b: Bank, c: Bank)
    requires Shape(b) && Extends(b, c)
    requires Distinct(c.codes)
    requires b.journals <= c.journals
    requires forall i :: |b.journals| <= i < |c.journals| ==> JournalShape(c, c.journals[i])
    requires forall i :: 0 <= i < |b.transfers| ==>
                           !c.transfers[i].decision.Undecided? ==> c.transfers[i].requiresReview
    requires forall i :: |b.transfers| <= i < |c.transfers| ==>
                           TransferShape(c, c.transfers[i]) && c.transfers[i].pendingRow >= |b.rows|
    requires |c.transfers| <= |b.transfers| + 1
    requires forall i :: |b.checks| <= i < |c.checks| ==> 0 < c.checks[i].cents
    ensures Shape(c)
  {
    JournalsKeepShape(b, c);
    forall i | 0 <= i < |b.transfers|
      ensures TransferShape(c, c.transfers[i])
    {
      assert TransferShape(b, b.transfers[i]) && SameTerms(b.transfers[i], c.transfers[i]);
      assert SameIdentity(b.rows[b.transfers[i].pendingRow], c.rows[b.transfers[i].pendingRow]);
    }
    forall r | r in c.inflight
      ensures RequestShape(c, r)
    {
      assert RequestShape(b, r);
    }
    forall i, j | 0 <= i < j < |c.transfers|
      ensures c.transfers[i].pendingRow != c.transfers[j].pendingRow
    {
      assert SameTerms(b.transfers[i], c.transfers[i]) && TransferShape(b, b.transfers[i]);
      if j < |b.transfers| {
        assert SameTerms(b.transfers[j], c.transfers[j]);
      }
    }
    forall k | k in [CASH, PENDING_OUT, FEE_REV]
      ensures k in c.codes
    {
      var n :| 0 <= n < |b.codes| && b.codes[n] == k;
      assert c.codes[n] == k;
    }
  }

  lemma InitiateKeepsShape(b: Bank, r: Request)
    requires Shape(b) && r.InitiateReq? && RequestShape(b, r)
    ensures CommitInitiate(b, r).Some? ==> Shape(CommitInitiate(b, r).value)
  {
    if CommitInitiate(b, r).Some? {
      var c := CommitInitiate(b, r).value;
      InitiatePosts(b, r);
      var j := c.journals[|b.journals|];
      forall k | 0 <= k < |j.postings|
        ensures Bookable(c.accounts, j.postings[k].code)
      {
        assert r.from in c.accounts;
      }
      ExtensionKeepsShape(b, c);
    }
  }

  /** With system accounts seeded, `initiate` never rolls back because of the ledger. */
  lemma InitiatePosts(b: Bank, r: Request)
    requires Shape(b) && r.InitiateReq? && RequestShape(b, r)
    ensures var codes := InitiateCodes(b, r);
            var ps := PendingPostings(r.from, r.cents, r.fee);
            && Distinct(codes) && b.codes <= codes && PostOutcome(codes, ps) == Entered(codes)
            && WellPosted(codes, Journal(PendingPhase, |b.transfers|, ps))
  {
    var codes := EnsureCode(b.codes, AccountCode(r.from));
    EnsureCodeKeeps(b.codes, AccountCode(r.from));
    if r.to.Some? {
      EnsureCodeKeeps(codes, AccountCode(r.to.value));
    }
    SeededStays(b.codes, InitiateCodes(b, r));
    assert AccountCode(r.from) in InitiateCodes(b, r);
    PendingPostingsPost(InitiateCodes(b, r), r.from, r.cents, r.fee);
    PostedListIsWellPosted(InitiateCodes(b, r), PendingPhase, |b.transfers|, PendingPostings(r.from, r.cents, r.fee));
  }

  lemma SeededStays(codes: seq<string>, more: seq<string>)
    requires SystemSeeded(codes) && codes <= more
    ensures SystemSeeded(more)
  {
    forall k | k in codes
      ensures k in more
    {
      var n :| 0 <= n < |codes| && codes[n] == k;
      assert more[n] == k;
    }
  }

  lemma SettlePosts(b: Bank, id: nat, t: Transfer)
    requires Shape(b)
    ensures var codes := SettleCodes(b, t);
            && Distinct(codes) && b.codes <= codes && PostOutcome(codes, SettlePostings(t)) == Entered(codes)
            && WellPosted(codes, Journal(SettlePhase, id, SettlePostings(t)))
  {
    var codes := EnsureCode(b.codes, AccountCode(t.from));
    EnsureCodeKeeps(b.codes, AccountCode(t.from));
    if t.to.Some? {
      EnsureCodeKeeps(codes, AccountCode(t.to.value));
    }
    SeededStays(b.codes, SettleCodes(b, t));
    assert AccountCode(t.from) in SettleCodes(b, t);
    SettlePostingsPost(SettleCodes(b, t), t);
    PostedListIsWellPosted(SettleCodes(b, t), SettlePhase, id, SettlePostings(t));
  }

  lemma RejectPosts(b: Bank, id: nat, t: Transfer)
    requires Shape(b) && 0 <= t.fee
    ensures var codes := EnsureCode(b.codes, AccountCode(t.from));
            && Distinct(codes) && b.codes <= codes && PostOutcome(codes, RejectPostings(t)) == Entered(codes)
            && WellPosted(codes, Journal(RejectPhase, id, RejectPostings(t)))
  {
    var codes := EnsureCode(b.codes, AccountCode(t.from));
    EnsureCodeKeeps(b.codes, AccountCode(t.from));
    SeededStays(b.codes, codes);
    RejectPostingsPost(codes, t);
    PostedListIsWellPosted(codes, RejectPhase, id, RejectPostings(t));
  }

  lemma SettleBookable(accounts: map<AccountId, Account>, t: Transfer)
    requires t.from in accounts && (PaysAccount(t) ==> t.to.value in accounts)
    ensures forall k :: 0 <= k < |SettlePostings(t)| ==> Bookable(accounts, SettlePostings(t)[k].code)
  {
  }

  lemma SettleKeepsShape(b: Bank, id: nat, t: Transfer)
    requires Shape(b) && RequestShape(b, SettleReq(id, t))
    ensures CommitSettle(b, id, t).Some? ==> Shape(CommitSettle(b, id, t).value)
  {
    hide SettlePostings, Bookable;
    if CommitSettle(b, id, t).Some? {
      var c := CommitSettle(b, id, t).value;
      SettlePosts(b, id, t);
      SettleBookable(c.accounts, t);
      assert TransferShape(b, b.transfers[id]);
      ExtensionKeepsShape(b, c);
    }
  }

  lemma RejectKeepsShape(b: Bank, id: nat, t: Transfer)
    requires Shape(b) && RequestShape(b, RejectReq(id, t))
    ensures CommitReject(b, id, t).Some? ==> Shape(CommitReject(b, id, t).value)
  {
    if CommitReject(b, id, t).Some? {
      var c := CommitReject(b, id, t).value;
      assert TransferShape(b, b.transfers[id]);
      RejectPosts(b, id, t);
      var j := c.journals[|b.journals|];
      forall k | 0 <= k < |j.postings|
        ensures Bookable(c.accounts, j.postings[k].code)
      {
        assert t.from in c.accounts;
      }
      ExtensionKeepsShape(b, c);
    }
  }

  lemma TransactKeepsShape(b: Bank, r: Request)
    requires Shape(b) && RequestShape(b, r)
    ensures Transact(b, r).Some? ==> Shape(Transact(b, r).value)
  {
    hide CommitInitiate, CommitSettle, CommitReject, JournalShape;
    match r
    case InitiateReq(_, _, _, _, _, _, _, _) => InitiateKeepsShape(b, r);
    case SettleReq(id, t) => SettleKeepsShape(b, id, t);
    case RejectReq(id, t) => RejectKeepsShape(b, id, t);
    case ApproveReq(id, t) =>
      assert TransferShape(b, b.transfers[id]);
      ExtensionKeepsShape(b, CommitApprove(b, id).value);
    case CreditReq(id, c) =>
      ExtensionKeepsShape(b, CommitCredit(b, id, c).value);
    case DenyReq(id, c) =>
      ExtensionKeepsShape(b, CommitDeny(b, id).value);
  }

  lemma InflightKeepsShape(b: Bank, c: Bank)
    requires Shape(b) && c == b.(inflight := c.inflight, disabled := c.disabled)
    requires forall r :: r in c.inflight ==> RequestShape(b, r)
    ensures Shape(c)
  {
    JournalsKeepShape(b, c);
    forall i | 0 <= i < |c.transfers|
      ensures TransferShape(c, c.transfers[i])
    {
      assert TransferShape(b, b.transfers[i]);
    }
    forall r | r in c.inflight
      ensures RequestShape(c, r)
    {
      assert RequestShape(b, r);
    }
  }

  lemma RetireKeepsShape(b: Bank, r: Request)
    requires Shape(b)
    ensures Shape(Retire(b, r))
  {
    InflightKeepsShape(b, Retire(b, r));
  }

  lemma LaunchKeepsShape(b: Bank, r: Request)
    requires Shape(b) && RequestShape(b, r)
    ensures Shape(Launch(b, r))
  {
    InflightKeepsShape(b, Launch(b, r));
  }

  /** What a starting step put in flight quotes the rows as they are. */
  lemma StartedShape(b: Bank, l: Label)
    requires Shape(b) && Started(b, l).Some?
    ensures RequestShape(b, Started(b, l).value)
  {
    if l.Submit? {
      var r := Started(b, l).value;
      PricedTransfersAreWithinLimits(b.limits, l.dto.kind, r.cents, l.dto.instant, Scope(l.dto));
    }
  }

  lemma StatusKeepsShape(b: Bank, c: Bank)
    requires Shape(b) && Extends(b, c) && c.codes == b.codes && c.journals == b.journals
    requires |c.transfers| == |b.transfers| && |c.checks| == |b.checks|
    requires forall i :: 0 <= i < |b.transfers| ==> c.transfers[i].decision == b.transfers[i].decision
    ensures Shape(c)
  {
    forall i | 0 <= i < |b.transfers|
      ensures !c.transfers[i].decision.Undecided? ==> c.transfers[i].requiresReview
    {
      assert TransferShape(b, b.transfers[i]) && SameTerms(b.transfers[i], c.transfers[i]);
    }
    ExtensionKeepsShape(b, c);
  }

  lemma CheckKeepsShape(b: Bank, account: AccountId, cents: int)
    requires Shape(b)
    ensures Shape(RecordCheck(b, account, cents))
  {
    assert forall i :: 0 <= i < |b.transfers| ==> TransferShape(b, b.transfers[i]);
    ExtensionKeepsShape(b, RecordCheck(b, account, cents));
  }

  lemma FailKeepsShape(b: Bank, id: nat)
    requires Shape(b)
    ensures Shape(MarkFailed(b, id))
  {
    StatusKeepsShape(b, MarkFailed(b, id));
  }

  lemma ReopenKeepsShape(b: Bank, id: nat)
    requires Shape(b)
    ensures Shape(Reopen(b, id))
  {
    StatusKeepsShape(b, Reopen(b, id));
  }

  lemma StepKeepsShape(b: Bank, l: Label)
    requires Shape(b)
    ensures Shape(Exec(b, l))
  {
    hide Transact, Started, MarkFailed, Reopen, RecordCheck, RequestShape;
    match l
    case SubmitCheck(account, cents) => CheckKeepsShape(b, account, cents);
    case Commit(r) =>
      if r in b.inflight {
        assert RequestShape(b, r);
        TransactKeepsShape(b, r);
        RetireKeepsShape(Finish(b, r), r);
      }
    case FailJob(r) =>
      if r in b.inflight && r.SettleReq? {
        FailKeepsShape(b, r.id);
        RetireKeepsShape(MarkFailed(b, r.id), r);
      }
    case FailUnread(id) => FailKeepsShape(b, id);
    case ForceSettle(id) => ReopenKeepsShape(b, id);
    case SetTransfers(_, _) => InflightKeepsShape(b, Exec(b, l));
    case _ =>
      if Started(b, l).Some? {
        StartedShape(b, l);
        LaunchKeepsShape(b, Started(b, l).value);
      }
  }

  lemma OpeningHasShape(b: Bank)
    requires Opening(b)
    ensures Shape(b)
  {
    assert SYSTEM_CODES[0] in b.codes && SYSTEM_CODES[1] in b.codes && SYSTEM_CODES[3] in b.codes;
  }

  lemma {:induction false} RunKeepsShape(b: Bank, labels: seq<Label>)
    requires Shape(b)
    ensures Shape(Run(b, labels))
    decreases |labels|
  {
    if labels != [] {
      StepKeepsShape(b, labels[0]);
      RunKeepsShape(Exec(b, labels[0]), labels[1..]);
    }
  }
}
