/** Check deposits: what was credited, what was approved, and exactly when the two agree. */
module BankDeposits {
  import opened Sums
  import opened Ledger
  import opened Bank
  import opened BankShape
  import opened BankAgreement
  import opened BankOnce

  function ApprovedOf(a: AccountId): Check -> int {
    (k: Check) => if k.account == a && k.status.CheckApproved? then k.cents else 0
  }

  /** The approved checks of an account. */
  function ApprovedChecks(b: Bank, a: AccountId): int {
    SumBy(b.checks, ApprovedOf(a))
  }

  function CreditOf(checks: seq<Check>, a: AccountId): Event -> int {
    (e: Event) => if e.Credited? && e.id < |checks| && checks[e.id].account == a then checks[e.id].cents else 0
  }

  // ----- every run: deposits are the credits that committed -----

  ghost predicate CreditsNameChecks(b: Bank) {
    && (forall i :: 0 <= i < |b.log| ==> b.log[i].Credited? ==> b.log[i].id < |b.checks|)
    && (forall i :: 0 <= i < |b.checks| ==> b.checks[i].account in b.accounts)
  }

  ghost predicate SameChecks(b: Bank, c: Bank) {
    && |b.checks| <= |c.checks|
    && forall i :: 0 <= i < |b.checks| ==> b.checks[i].account == c.checks[i].account && b.checks[i].cents == c.checks[i].cents
  }

  lemma CreditsCarry(b: Bank, c: Bank, a: AccountId)
    requires CreditsNameChecks(b) && SameChecks(b, c)
    ensures SumBy(b.log, CreditOf(b.checks, a)) == SumBy(b.log, CreditOf(c.checks, a))
  {
    SumCongruent(b.log, CreditOf(b.checks, a), CreditOf(c.checks, a));
  }

  /** What a step does to the deposits, the approved checks and the log of an account. */
  ghost predicate DepositMoves(b: Bank, c: Bank, a: AccountId, deposited: int, approved: int) {
    && Deposits(c.rows, a) == Deposits(b.rows, a) + deposited
    && ApprovedChecks(c, a) == ApprovedChecks(b, a) + approved
    && SumBy(c.log, CreditOf(c.checks, a)) == SumBy(b.log, CreditOf(b.checks, a)) + deposited
    && CreditsNameChecks(c)
  }

  /** The step commits a credit or a denial. */
  ghost predicate HandlesAt(b: Bank, l: Label) {
    Commits(b, l) && (l.req.CreditReq? || l.req.DenyReq?) && l.req.id < |b.checks|
  }

  function Deposited(b: Bank, l: Label, a: AccountId): int {
    if l.Commit? && l.req.CreditReq? && l.req.check.account == a then l.req.check.cents else 0
  }

  /** What the handling of a check moves in its account's approved total. */
  ghost function Approving(b: Bank, l: Label, a: AccountId): int
    requires HandlesAt(b, l)
  {
    var k := b.checks[l.req.id];
    if k.account != a then 0
    else (if l.req.CreditReq? then k.cents else 0) - (if k.status.CheckApproved? then k.cents else 0)
  }

  lemma LoggedNoCredit(b: Bank, c: Bank, note: seq<Event>, e: Event, a: AccountId)
    requires CreditsNameChecks(b) && SameChecks(b, c) && !e.Credited?
    requires c.log == b.log + note + [e] && forall k :: 0 <= k < |note| ==> note[k].Overwrote?
    ensures SumBy(c.log, CreditOf(c.checks, a)) == SumBy(b.log, CreditOf(b.checks, a))
  {
    CreditsCarry(b, c, a);
    SumAppend(b.log + note, e, CreditOf(c.checks, a));
    SumConcat(b.log, note, CreditOf(c.checks, a));
    NoCredits(note, CreditOf(c.checks, a));
  }

  lemma {:induction false} NoCredits(log: seq<Event>, f: Event -> int)
    requires forall k :: 0 <= k < |log| ==> f(log[k]) == 0
    ensures SumBy(log, f) == 0
  {
    if log != [] {
      NoCredits(log[..|log| - 1], f);
    }
  }

  lemma InitiateDeposits(b: Bank, r: Request, a: AccountId)
    requires CreditsNameChecks(b) && r.InitiateReq? && CommitInitiate(b, r).Some?
    ensures DepositMoves(b, CommitInitiate(b, r).value, a, 0, 0)
  {
    hide SumBy;
    var c := CommitInitiate(b, r).value;
    SumAppend(b.rows, c.rows[|b.rows|], DepositOf(a));
    assert c.log == b.log + [] + [Initiated(|b.transfers|)];
    LoggedNoCredit(b, c, [], Initiated(|b.transfers|), a);
  }

  lemma SettleDeposits(b: Bank, id: nat, t: Transfer, a: AccountId)
    requires Shape(b) && CreditsNameChecks(b) && RequestShape(b, SettleReq(id, t)) && CommitSettle(b, id, t).Some?
    ensures DepositMoves(b, CommitSettle(b, id, t).value, a, 0, 0)
  {
    hide SumBy;
    var c := CommitSettle(b, id, t).value;
    assert TransferShape(b, b.transfers[id]);
    SettleTables(b, id, t);
    SettleRowsTotal(t, a);
    RowsAfterSettle(b.rows, SettleRows(t), t.pendingRow, DepositOf(a));
    LoggedNoCredit(b, c, OverwriteNote(b.rows[t.pendingRow], t), Settled(id), a);
  }

  lemma RejectDeposits(b: Bank, id: nat, t: Transfer, a: AccountId)
    requires Shape(b) && CreditsNameChecks(b) && RequestShape(b, RejectReq(id, t)) && CommitReject(b, id, t).Some?
    ensures DepositMoves(b, CommitReject(b, id, t).value, a, 0, 0)
  {
    hide SumBy;
    var c := CommitReject(b, id, t).value;
    assert TransferShape(b, b.transfers[id]);
    SumUpdate(b.rows, t.pendingRow, b.rows[t.pendingRow].(status := Reversed), DepositOf(a));
    LoggedNoCredit(b, c, OverwriteNote(b.rows[t.pendingRow], t), RejectedBy(id), a);
  }

  lemma CreditDeposits(b: Bank, l: Label, a: AccountId)
    requires Shape(b) && CreditsNameChecks(b) && HandlesAt(b, l) && l.req.CreditReq?
    ensures DepositMoves(b, Transact(b, l.req).value, a, Deposited(b, l, a), Approving(b, l, a))
  {
    hide SumBy;
    var c, id, k := Transact(b, l.req).value, l.req.id, l.req.check;
    assert RequestShape(b, l.req);
    SumAppend(b.rows, Row(k.account, DepositRow, Posted, k.cents), DepositOf(a));
    SumUpdate(b.checks, id, b.checks[id].(status := CheckApproved), ApprovedOf(a));
    CreditsCarry(b, c, a);
    SumAppend(b.log, Credited(id), CreditOf(c.checks, a));
  }

  lemma DenyDeposits(b: Bank, l: Label, a: AccountId)
    requires Shape(b) && CreditsNameChecks(b) && HandlesAt(b, l) && l.req.DenyReq?
    ensures DepositMoves(b, Transact(b, l.req).value, a, 0, Approving(b, l, a))
  {
    hide SumBy;
    var c, id := Transact(b, l.req).value, l.req.id;
    SumUpdate(b.checks, id, b.checks[id].(status := CheckRejected), ApprovedOf(a));
    CreditsCarry(b, c, a);
  }

  lemma ApproveDeposits(b: Bank, id: nat, a: AccountId)
    requires CreditsNameChecks(b) && id < |b.transfers|
    ensures DepositMoves(b, CommitApprove(b, id).value, a, 0, 0)
  {
    hide SumBy;
    var c := CommitApprove(b, id).value;
    assert c.log == b.log + [] + [ApprovedBy(id)];
    LoggedNoCredit(b, c, [], ApprovedBy(id), a);
  }

  lemma TransactDeposits(b: Bank, l: Label, a: AccountId)
    requires Shape(b) && CreditsNameChecks(b) && Commits(b, l)
    ensures DepositMoves(b, Transact(b, l.req).value, a, Deposited(b, l, a), if HandlesAt(b, l) then Approving(b, l, a) else 0)
  {
    hide DepositMoves, CreditsNameChecks;
    assert RequestShape(b, l.req);
    match l.req
    case InitiateReq(_, _, _, _, _, _, _, _) => InitiateDeposits(b, l.req, a);
    case SettleReq(id, t) => SettleDeposits(b, id, t, a);
    case RejectReq(id, t) => RejectDeposits(b, id, t, a);
    case ApproveReq(id, t) => ApproveDeposits(b, id, a);
    case CreditReq(_, _) => CreditDeposits(b, l, a);
    case DenyReq(_, _) => DenyDeposits(b, l, a);
  }

  lemma QuietChecks(b: Bank, l: Label)
    requires !Commits(b, l) && !l.SubmitCheck?
    ensures Exec(b, l).checks == b.checks
  {
    hide Transact, Started;
  }

  lemma QuietDeposits(b: Bank, l: Label, a: AccountId)
    requires CreditsNameChecks(b) && !Commits(b, l)
    ensures DepositMoves(b, Exec(b, l), a, 0, 0)
  {
    hide SumBy, Transact, Started;
    var c := Exec(b, l);
    QuietStep(b, l);
    if l.SubmitCheck? {
      SumAppend(b.checks, Check(l.account, l.cents, CheckPending), ApprovedOf(a));
      CreditsCarry(b, c, a);
    } else {
      QuietChecks(b, l);
      SumAppend(b.log, QuietEvent(l), CreditOf(b.checks, a));
    }
  }

  /** From `b`, the step moves the deposits by a committed credit and the approved checks by what handling one does. */
  lemma StepDeposits(b: Bank, l: Label, a: AccountId)
    requires Shape(b) && CreditsNameChecks(b)
    ensures DepositMoves(b, Exec(b, l), a, if Commits(b, l) then Deposited(b, l, a) else 0,
                         if HandlesAt(b, l) then Approving(b, l, a) else 0)
  {
    hide SumBy;
    if Commits(b, l) {
      TransactDeposits(b, l, a);
    } else {
      QuietDeposits(b, l, a);
    }
  }

  lemma {:induction false} RunDeposits(b: Bank, labels: seq<Label>, a: AccountId)
    requires Shape(b) && CreditsNameChecks(b) && Deposits(b.rows, a) == SumBy(b.log, CreditOf(b.checks, a))
    ensures var c := Run(b, labels); Deposits(c.rows, a) == SumBy(c.log, CreditOf(c.checks, a)) && CreditsNameChecks(c)
    decreases |labels|
  {
    hide Shape, Exec, Deposits, SumBy, CreditsNameChecks;
    if labels != [] {
      StepKeepsShape(b, labels[0]);
      StepDeposits(b, labels[0], a);
      RunDeposits(Exec(b, labels[0]), labels[1..], a);
    }
  }

  /** In every run, under every interleaving, an account's deposit rows are the credits that committed, each worth its
      check. */
  lemma DepositsAreCommittedCredits(start: Bank, labels: seq<Label>, a: AccountId)
    requires Opening(start)
    ensures var b := Run(start, labels); Deposits(b.rows, a) == SumBy(b.log, CreditOf(b.checks, a))
  {
    hide Run, Exec;
    OpeningHasShape(start);
    RunDeposits(start, labels, a);
  }

  // ----- deposits and approved checks -----

  /** A credit or denial that commits does not find its check already approved. */
  ghost predicate HandledAt(b: Bank, l: Label) {
    HandlesAt(b, l) ==> !b.checks[l.req.id].status.CheckApproved?
  }

  ghost predicate HandledOnce(b: Bank, labels: seq<Label>)
    decreases |labels|
  {
    labels != [] ==> HandledAt(b, labels[0]) && HandledOnce(Exec(b, labels[0]), labels[1..])
  }

  /** Deposits beyond the approved checks. */
  function Surplus(b: Bank, a: AccountId): int {
    Deposits(b.rows, a) - ApprovedChecks(b, a)
  }

  lemma StepSurplus(b: Bank, l: Label, a: AccountId)
    requires Shape(b) && CreditsNameChecks(b)
    ensures Surplus(Exec(b, l), a) == Surplus(b, a) +
            if !HandledAt(b, l) && b.checks[l.req.id].account == a then b.checks[l.req.id].cents else 0
    ensures CreditsNameChecks(Exec(b, l))
  {
    hide Exec, Deposits, ApprovedChecks, SumBy;
    StepDeposits(b, l, a);
    if HandlesAt(b, l) {
      assert RequestShape(b, l.req);
    }
  }

  lemma {:induction false} SurplusGrows(b: Bank, labels: seq<Label>, a: AccountId)
    requires Shape(b) && CreditsNameChecks(b)
    ensures Surplus(Run(b, labels), a) >= Surplus(b, a)
    ensures HandledOnce(b, labels) ==> Surplus(Run(b, labels), a) == Surplus(b, a)
    decreases |labels|
  {
    hide Exec, Surplus, CreditsNameChecks;
    if labels != [] {
      StepKeepsShape(b, labels[0]);
      StepSurplus(b, labels[0], a);
      if !HandledAt(b, labels[0]) {
        assert 0 < b.checks[labels[0].req.id].cents;
      }
      SurplusGrows(Exec(b, labels[0]), labels[1..], a);
    }
  }

  /** Handling an approved check again leaves some account with more deposits than approved checks. */
  lemma {:induction false} SurplusFound(b: Bank, labels: seq<Label>) returns (a: AccountId)
    requires Shape(b) && CreditsNameChecks(b) && !HandledOnce(b, labels)
    ensures a in b.accounts && Surplus(Run(b, labels), a) > Surplus(b, a)
    decreases |labels|
  {
    hide Exec, Surplus;
    var c := Exec(b, labels[0]);
    StepKeepsShape(b, labels[0]);
    if !HandledAt(b, labels[0]) {
      var k := b.checks[labels[0].req.id];
      a := k.account;
      assert 0 < k.cents;
      StepSurplus(b, labels[0], a);
      SurplusGrows(c, labels[1..], a);
    } else {
      StepSurplus(b, labels[0], "");
      a := SurplusFound(c, labels[1..]);
      StepSurplus(b, labels[0], a);
      StepKeepsAccounts(b, labels[0]);
    }
  }

  /** The deposits credited to every account are its approved checks if and only if no credit or denial of the run
      committed on a check that was already approved. */
  lemma DepositsAreApprovedChecksExactly(start: Bank, labels: seq<Label>)
    requires Opening(start)
    ensures var b := Run(start, labels);
            (forall a :: a in start.accounts ==> Deposits(b.rows, a) == ApprovedChecks(b, a)) <==> HandledOnce(start, labels)
  {
    hide Run, Exec, HandledOnce;
    OpeningHasShape(start);
    var b := Run(start, labels);
    assert forall a :: Surplus(start, a) == 0;
    if HandledOnce(start, labels) {
      forall a | a in start.accounts
        ensures Deposits(b.rows, a) == ApprovedChecks(b, a)
      {
        SurplusGrows(start, labels, a);
      }
    } else {
      var a := SurplusFound(start, labels);
      assert Deposits(b.rows, a) != ApprovedChecks(b, a);
    }
  }

  /** Every balance is its opening value plus its approved checks plus the net credits on its sub-ledger, if and only if
      no credit or denial committed on a check that was already approved. */
  lemma BalancesAgreeWithChecksExactly(start: Bank, labels: seq<Label>)
    requires Opening(start)
    ensures var b := Run(start, labels);
            && b.accounts.Keys == start.accounts.Keys
            && ((forall a :: a in start.accounts ==>
                   b.accounts[a].balance
                   == start.accounts[a].balance + ApprovedChecks(b, a) + LedgerNet(b.journals, AccountCode(a)))
                <==> HandledOnce(start, labels))
  {
    hide Run, Exec, HandledOnce, Deposits, ApprovedChecks, LedgerNet;
    BalancesAgreeWithLedger(start, labels);
    DepositsAreApprovedChecksExactly(start, labels);
    var b := Run(start, labels);
    assert forall a :: a in start.accounts ==>
      (b.accounts[a].balance == start.accounts[a].balance + ApprovedChecks(b, a) + LedgerNet(b.journals, AccountCode(a))
       <==> Deposits(b.rows, a) == ApprovedChecks(b, a));
  }

  /** Serialised runs handle each check once. */
  lemma {:induction false} SerialisedHandleOnce(b: Bank, labels: seq<Label>)
    requires Shape(b) && Serialised(b, labels)
    ensures HandledOnce(b, labels)
    decreases |labels|
  {
    hide Exec;
    if labels != [] {
      StepKeepsShape(b, labels[0]);
      if HandlesAt(b, labels[0]) {
        assert RequestShape(b, labels[0].req) && FreshRequest(b, labels[0].req);
      }
      SerialisedHandleOnce(Exec(b, labels[0]), labels[1..]);
    }
  }
}
