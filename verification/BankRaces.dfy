/** Why the conditions of the once-only theorems are there: runs that leave one of them out. */
module BankRaces {
  import opened Ledger
  import opened Quote
  import opened Text
  import opened Bank
  import opened BankShape
  import opened BankAgreement
  import opened BankLifecycle
  import opened BankOnce
  import opened BankDecisions
  import opened BankDeposits

  lemma {:induction false} RunConcat(b: Bank, xs: seq<Label>, ys: seq<Label>)
    ensures Run(b, xs + ys) == Run(Run(b, xs), ys)
    decreases |xs|
  {
    if xs == [] {
      assert xs + ys == ys;
    } else {
      assert (xs + ys)[1..] == xs[1..] + ys;
      RunConcat(Exec(b, xs[0]), xs[1..], ys);
    }
  }

  lemma RunFour(b: Bank, w: Label, x: Label, y: Label, z: Label)
    ensures Run(b, [w, x, y, z]) == Exec(Exec(Exec(Exec(b, w), x), y), z)
  {
    assert [w, x, y, z][1..] == [x, y, z] && [x, y, z][1..] == [y, z] && [y, z][1..] == [z] && [z][1..] == [];
    assert Run(Exec(b, w), [x, y, z]) == Run(Exec(Exec(b, w), x), [y, z]);
    assert Run(Exec(Exec(Exec(b, w), x), y), [z]) == Run(Exec(Exec(Exec(Exec(b, w), x), y), z), []);
  }

  lemma RejectCommits(b: Bank, id: nat, t: Transfer)
    requires Shape(b) && RequestShape(b, RejectReq(id, t))
    ensures CommitReject(b, id, t).Some?
  {
    assert TransferShape(b, b.transfers[id]);
    RejectPosts(b, id, t);
  }

  lemma LaunchedTwice(b: Bank, id: nat, reason: string) returns (c: Bank)
    requires Shape(b) && id < |b.transfers| && Reviewable(b.transfers[id]) && !Blank(reason)
    ensures var q, go := RejectReq(id, b.transfers[id]), StartReject(id, reason);
            c == Exec(Exec(b, go), go) == b.(inflight := b.inflight + multiset{q} + multiset{q})
    ensures Shape(c)
  {
    hide Shape;
    var go := StartReject(id, reason);
    StepKeepsShape(b, go);
    c := Exec(Exec(b, go), go);
    StepKeepsShape(Exec(b, go), go);
  }

  lemma RejectedRow(c: Bank, id: nat, t: Transfer) returns (d: Bank)
    requires Shape(c) && RejectReq(id, t) in c.inflight
    ensures d == Exec(c, Commit(RejectReq(id, t))) && Shape(d)
    ensures id < |d.transfers| && SameTerms(t, d.transfers[id])
    ensures t.pendingRow < |d.rows| && d.rows[t.pendingRow].status.Reversed?
    ensures d.inflight == c.inflight - multiset{RejectReq(id, t)}
    ensures t.pendingRow < |c.rows| && d.log == c.log + OverwriteNote(c.rows[t.pendingRow], t) + [RejectedBy(id)]
  {
    var q := RejectReq(id, t);
    assert RequestShape(c, q);
    assert TransferShape(c, c.transfers[id]);
    RejectCommits(c, id, t);
    StepKeepsShape(c, Commit(q));
    d := Exec(c, Commit(q));
  }

  /** Two admins who both read a held transfer before either rejects it: from every reachable state with
      such a transfer that moves money, two decisions are recorded, and the ledger still agrees with the balances but
      the feed does not. */
  lemma OverlappingRejectionsBreakTheFeed(start: Bank, before: seq<Label>, id: nat, reason: string)
    returns (labels: seq<Label>)
    requires Opening(start) && id < |Run(start, before).transfers| && !Blank(reason)
    requires var t := Run(start, before).transfers[id]; Reviewable(t) && t.cents + t.fee > 0
    ensures var b := Run(start, labels);
            && before <= labels
            && Decisions(b.log, id) == 2
            && LedgerAgrees(start.accounts, b)
            && exists a :: a in start.accounts
                           && b.accounts[a].balance != start.accounts[a].balance + LiveTotal(b.rows, a)
  {
    hide Run, Exec, LedgerAgrees, Decisions, Shape, LiveTotal;
    var b := Run(start, before);
    OpeningHasShape(start);
    RunKeepsShape(start, before);
    NoDecisionsAtFirst(start, id);
    RunDecisions(start, before, id);
    var t := b.transfers[id];
    var q, go := RejectReq(id, t), StartReject(id, reason);
    var c := LaunchedTwice(b, id, reason);
    var d := RejectedRow(c, id, t);
    assert q in d.inflight;
    var e := RejectedRow(d, id, t);
    DecisionLogged(c.log, OverwriteNote(c.rows[t.pendingRow], t), RejectedBy(id), id);
    DecisionLogged(d.log, OverwriteNote(d.rows[t.pendingRow], t), RejectedBy(id), id);
    assert e.log[|d.log|] == Overwrote(t.from, t.cents + t.fee);
    var tail := [go, go, Commit(q), Commit(q)];
    labels := before + tail;
    RunFour(b, go, go, Commit(q), Commit(q));
    RunConcat(start, before, tail);
    BalancesAgreeWithLedger(start, labels);
    FeedAgreesExactlyWithoutOverwrites(start, labels);
  }

  lemma NoDecisionsAtFirst(start: Bank, id: nat)
    requires Opening(start)
    ensures Tallied(start, id)
  {
  }

  lemma SettleCommits(b: Bank, id: nat, t: Transfer)
    requires Shape(b) && RequestShape(b, SettleReq(id, t)) && (PaysAccount(t) ==> t.to.value in b.accounts)
    ensures CommitSettle(b, id, t).Some?
  {
    assert TransferShape(b, b.transfers[id]);
    SettlePosts(b, id, t);
  }

  lemma SettleLaunched(b: Bank, id: nat) returns (c: Bank)
    requires Shape(b) && id < |b.transfers| && Settles(b.transfers[id])
    ensures c == Exec(b, StartSettle(id)) == b.(inflight := b.inflight + multiset{SettleReq(id, b.transfers[id])})
    ensures Shape(c) && RequestShape(c, SettleReq(id, b.transfers[id]))
  {
    c := Exec(b, StartSettle(id));
    StepKeepsShape(b, StartSettle(id));
    assert SettleReq(id, b.transfers[id]) in c.inflight;
  }

  lemma SettledRow(b: Bank, id: nat) returns (d: Bank)
    requires Shape(b) && id < |b.transfers| && Settles(b.transfers[id])
    requires PaysAccount(b.transfers[id]) ==> b.transfers[id].to.value in b.accounts
    ensures var t := b.transfers[id];
            && d == Exec(Exec(b, StartSettle(id)), Commit(SettleReq(id, t))) && Shape(d)
            && d.transfers == b.transfers[id := t.(status := Posted)]
            && d.accounts.Keys == b.accounts.Keys
            && Times(d.log, Settled(id)) == Times(b.log, Settled(id)) + 1
  {
    hide Shape, RequestShape, CommitSettle, Started;
    var t := b.transfers[id];
    var q := SettleReq(id, t);
    var c := SettleLaunched(b, id);
    SettleCommits(c, id, t);
    SettleTables(c, id, t);
    StepKeepsShape(c, Commit(q));
    d := Exec(c, Commit(q));
    AppendEvents(b.log, OverwriteNote(b.rows[t.pendingRow], t), Settled(id), Settled(id));
  }

  /** `forceSettle` on a settled row settles it again: from every reachable state with a transfer that can
      settle, settling it, forcing it and settling it once more posts two settlement entries. */
  lemma ReopenedSettlementPaysTwice(start: Bank, before: seq<Label>, id: nat) returns (labels: seq<Label>)
    requires Opening(start) && id < |Run(start, before).transfers|
    requires var b := Run(start, before);
             var t := b.transfers[id];
             Settles(t) && (PaysAccount(t) ==> t.to.value in b.accounts)
    ensures before <= labels && id < |Run(start, labels).transfers|
    ensures Entries(Run(start, labels).journals, SettlePhase, id)
            == Entries(Run(start, before).journals, SettlePhase, id) + 2
  {
    var b := Run(start, before);
    OpeningHasShape(start);
    RunKeepsShape(start, before);
    var g := SettledTwice(b, id);
    labels := before + [StartSettle(id), Commit(SettleReq(id, b.transfers[id])), ForceSettle(id), StartSettle(id),
                        Commit(SettleReq(id, b.transfers[id]))];
    RunConcat(start, before, labels[|before|..]);
    SuspenseLaw(start, before, id);
    SuspenseLaw(start, labels, id);
  }

  lemma OneMore(log: seq<Event>, e: Event, x: Event)
    ensures Times(log + [e], x) == Times(log, x) + if e == x then 1 else 0
  {
    assert multiset(log + [e]) == multiset(log) + multiset{e};
  }

  lemma ReopenedRow(d: Bank, id: nat) returns (e: Bank)
    requires Shape(d) && id < |d.transfers| && d.transfers[id].status.Posted?
    ensures e == Exec(d, ForceSettle(id)) && Shape(e)
    ensures e.transfers == d.transfers[id := d.transfers[id].(status := Pending)]
    ensures e.accounts == d.accounts && Times(e.log, Settled(id)) == Times(d.log, Settled(id))
  {
    e := Exec(d, ForceSettle(id));
    StepKeepsShape(d, ForceSettle(id));
    OneMore(d.log, Reopened(id), Settled(id));
  }

  lemma SettledTwice(b: Bank, id: nat) returns (g: Bank)
    requires Shape(b) && id < |b.transfers| && Settles(b.transfers[id])
    requires PaysAccount(b.transfers[id]) ==> b.transfers[id].to.value in b.accounts
    ensures var q := SettleReq(id, b.transfers[id]);
            g == Run(b, [StartSettle(id), Commit(q), ForceSettle(id), StartSettle(id), Commit(q)])
    ensures |g.transfers| == |b.transfers| && Times(g.log, Settled(id)) == Times(b.log, Settled(id)) + 2
  {
    hide Shape, Exec, Run;
    var q := SettleReq(id, b.transfers[id]);
    var d := SettledRow(b, id);
    var e := ReopenedRow(d, id);
    assert e.transfers == b.transfers;
    g := SettledRow(e, id);
    var four := [StartSettle(id), Commit(q), ForceSettle(id), StartSettle(id)];
    RunFour(b, StartSettle(id), Commit(q), ForceSettle(id), StartSettle(id));
    RunOne(Exec(e, StartSettle(id)), Commit(q));
    RunConcat(b, four, [Commit(q)]);
    assert four + [Commit(q)] == [StartSettle(id), Commit(q), ForceSettle(id), StartSettle(id), Commit(q)];
  }

  lemma RunOne(b: Bank, l: Label)
    ensures Run(b, [l]) == Exec(b, l)
  {
    assert [l][1..] == [];
  }

  // ----- a rejected transfer that settles -----

  lemma BothLaunched(b: Bank, id: nat, reason: string) returns (c: Bank)
    requires Shape(b) && id < |b.transfers| && Reviewable(b.transfers[id]) && !Blank(reason)
    ensures var t := b.transfers[id];
            && c == Exec(Exec(b, StartApprove(id)), StartReject(id, reason))
            && c == b.(inflight := b.inflight + multiset{ApproveReq(id, t)} + multiset{RejectReq(id, t)})
    ensures Shape(c)
  {
    hide Shape;
    StepKeepsShape(b, StartApprove(id));
    c := Exec(Exec(b, StartApprove(id)), StartReject(id, reason));
    StepKeepsShape(Exec(b, StartApprove(id)), StartReject(id, reason));
  }

  lemma RejectedStatus(c: Bank, id: nat, t: Transfer) returns (d: Bank)
    requires Shape(c) && RejectReq(id, t) in c.inflight
    ensures d == Exec(c, Commit(RejectReq(id, t))) && Shape(d)
    ensures id < |c.transfers| && d.transfers == c.transfers[id := c.transfers[id].(status := Reversed, decision := Rejected)]
    ensures d.accounts.Keys == c.accounts.Keys
    ensures d.inflight == c.inflight - multiset{RejectReq(id, t)}
    ensures RejectedBy(id) in d.log
  {
    hide PostOutcome, RejectPostings, OverwriteNote;
    var q := RejectReq(id, t);
    assert RequestShape(c, q);
    RejectCommits(c, id, t);
    StepKeepsShape(c, Commit(q));
    d := Exec(c, Commit(q));
    assert d.log[|d.log| - 1] == RejectedBy(id);
  }

  lemma ApprovedStatus(d: Bank, id: nat, t: Transfer) returns (e: Bank)
    requires Shape(d) && ApproveReq(id, t) in d.inflight
    ensures e == Exec(d, Commit(ApproveReq(id, t))) && Shape(e)
    ensures id < |d.transfers| && e.transfers == d.transfers[id := d.transfers[id].(decision := Approved)]
    ensures e.accounts == d.accounts && d.log <= e.log
  {
    hide Shape;
    RequestIsShaped(d, ApproveReq(id, t));
    StepKeepsShape(d, Commit(ApproveReq(id, t)));
    e := Exec(d, Commit(ApproveReq(id, t)));
  }

  lemma ForcedStatus(e: Bank, id: nat) returns (f: Bank)
    requires Shape(e) && id < |e.transfers|
    ensures f == Exec(e, ForceSettle(id)) && Shape(f)
    ensures f.transfers == e.transfers[id := e.transfers[id].(status := Pending)]
    ensures f.accounts == e.accounts && e.log <= f.log
  {
    hide Shape;
    StepKeepsShape(e, ForceSettle(id));
    f := Exec(e, ForceSettle(id));
  }

  /** Refunded, then approved by an admin who had read it before, then forced: ready to settle. */
  lemma RejectedIsReady(b: Bank, id: nat, reason: string) returns (f: Bank)
    requires Shape(b) && id < |b.transfers| && Reviewable(b.transfers[id]) && !Blank(reason)
    ensures var t := b.transfers[id];
            f == Run(b, [StartApprove(id), StartReject(id, reason), Commit(RejectReq(id, t)), Commit(ApproveReq(id, t)),
                         ForceSettle(id)])
    ensures Shape(f) && f.transfers == b.transfers[id := b.transfers[id].(status := Pending, decision := Approved)]
    ensures f.accounts.Keys == b.accounts.Keys && RejectedBy(id) in f.log
  {
    hide Shape, Exec, Run;
    var t := b.transfers[id];
    var c := BothLaunched(b, id, reason);
    var d := RejectedStatus(c, id, t);
    var e := ApprovedStatus(d, id, t);
    f := ForcedStatus(e, id);
    var four := [StartApprove(id), StartReject(id, reason), Commit(RejectReq(id, t)), Commit(ApproveReq(id, t))];
    RunFour(b, four[0], four[1], four[2], four[3]);
    RunOne(e, ForceSettle(id));
    RunConcat(b, four, [ForceSettle(id)]);
    assert four + [ForceSettle(id)] == [four[0], four[1], four[2], four[3], ForceSettle(id)];
    assert f.transfers == b.transfers[id := t.(status := Pending, decision := Approved)];
  }

  lemma RunTwo(b: Bank, x: Label, y: Label)
    ensures Run(b, [x, y]) == Exec(Exec(b, x), y)
  {
    assert [x, y][1..] == [y] && [y][1..] == [];
    RunOne(Exec(b, x), y);
  }

  /** Two admins who both read a held transfer, one rejecting and one approving it: from every reachable state with such a
      transfer whose destination exists, it is refunded and, once forced, settled as well. */
  lemma RejectedTransferSettles(start: Bank, before: seq<Label>, id: nat, reason: string) returns (labels: seq<Label>)
    requires Opening(start) && id < |Run(start, before).transfers| && !Blank(reason)
    requires var b := Run(start, before);
             var t := b.transfers[id];
             Reviewable(t) && (PaysAccount(t) ==> t.to.value in b.accounts)
    ensures var b := Run(start, labels);
            before <= labels && RejectedBy(id) in b.log && Settled(id) in b.log
  {
    hide Shape, Exec, Run;
    var b := Run(start, before);
    OpeningHasShape(start);
    RunKeepsShape(start, before);
    var f := RejectedIsReady(b, id, reason);
    var t, u := b.transfers[id], f.transfers[id];
    var g := SettledRow(f, id);
    var five := [StartApprove(id), StartReject(id, reason), Commit(RejectReq(id, t)), Commit(ApproveReq(id, t)), ForceSettle(id)];
    var two := [StartSettle(id), Commit(SettleReq(id, u))];
    RunTwo(f, two[0], two[1]);
    RunConcat(b, five, two);
    labels := before + (five + two);
    RunConcat(start, before, five + two);
    RunLogGrows(f, two);
    LogMember(g.log, Settled(id));
  }

  lemma LogMember(log: seq<Event>, e: Event)
    requires Times(log, e) > 0
    ensures e in log
  {
    assert e in multiset(log);
  }

  lemma StepLogGrows(b: Bank, l: Label)
    ensures b.log <= Exec(b, l).log
  {
    hide Transact, Started;
    if Commits(b, l) {
      TransactLogGrows(b, l.req);
    } else {
      QuietStep(b, l);
    }
  }

  lemma TransactLogGrows(b: Bank, r: Request)
    requires Transact(b, r).Some?
    ensures b.log <= Transact(b, r).value.log
  {
    hide PostOutcome, PendingPostings, SettlePostings, RejectPostings, InitiateCodes, SettleCodes, OverwriteNote;
  }

  lemma {:induction false} RunLogGrows(b: Bank, labels: seq<Label>)
    ensures b.log <= Run(b, labels).log
    decreases |labels|
  {
    hide Exec;
    if labels != [] {
      StepLogGrows(b, labels[0]);
      RunLogGrows(Exec(b, labels[0]), labels[1..]);
    }
  }

  lemma CreditCommitted(c: Bank, id: nat, k: Check) returns (d: Bank)
    requires Shape(c) && CreditsNameChecks(c) && CreditReq(id, k) in c.inflight
    ensures id < |c.checks| && d == Exec(c, Commit(CreditReq(id, k))) && Shape(d) && CreditsNameChecks(d)
    ensures Deposits(d.rows, k.account) == Deposits(c.rows, k.account) + k.cents
    ensures ApprovedChecks(d, k.account) ==
            ApprovedChecks(c, k.account) + if c.checks[id].status.CheckApproved? then 0 else k.cents
    ensures d.inflight == c.inflight - multiset{CreditReq(id, k)}
    ensures id < |d.checks| && d.checks[id].status.CheckApproved?
  {
    hide Deposits, ApprovedChecks, CreditsNameChecks;
    var l := Commit(CreditReq(id, k));
    assert RequestShape(c, l.req);
    d := Exec(c, l);
    StepKeepsShape(c, l);
    StepDeposits(c, l, k.account);
  }

  lemma CreditLaunchedTwice(b: Bank, id: nat) returns (c: Bank)
    requires Shape(b) && id < |b.checks| && b.checks[id].status.CheckPending? && b.checks[id].account in b.accounts
    ensures var q, go := CreditReq(id, b.checks[id]), StartCredit(id);
            c == Exec(Exec(b, go), go) == b.(inflight := b.inflight + multiset{q} + multiset{q})
    ensures Shape(c)
  {
    var go := StartCredit(id);
    StepKeepsShape(b, go);
    c := Exec(Exec(b, go), go);
    StepKeepsShape(Exec(b, go), go);
  }

  /** Two admins who both read a pending deposit before either approves it: from every reachable state with one, its
      account is credited twice for one approved check. */
  lemma OverlappingApprovalsCreditTwice(start: Bank, before: seq<Label>, id: nat) returns (labels: seq<Label>)
    requires Opening(start) && id < |Run(start, before).checks| && Run(start, before).checks[id].status.CheckPending?
    ensures var b, c := Run(start, before), Run(start, labels);
            var k := b.checks[id];
            && before <= labels
            && Deposits(c.rows, k.account) == Deposits(b.rows, k.account) + 2 * k.cents
            && ApprovedChecks(c, k.account) == ApprovedChecks(b, k.account) + k.cents
  {
    hide Run, Exec, Deposits, ApprovedChecks;
    var b := Run(start, before);
    OpeningHasShape(start);
    RunKeepsShape(start, before);
    RunNamesChecks(start, before);
    var k := b.checks[id];
    var q, go := CreditReq(id, k), StartCredit(id);
    var c := CreditLaunchedTwice(b, id);
    SameTables(b, c, k.account);
    var d := CreditCommitted(c, id, k);
    var e := CreditCommitted(d, id, k);
    var tail := [go, go, Commit(q), Commit(q)];
    labels := before + tail;
    RunFour(b, go, go, Commit(q), Commit(q));
    RunConcat(start, before, tail);
  }

  lemma SameTables(b: Bank, c: Bank, a: AccountId)
    requires CreditsNameChecks(b) && c == b.(inflight := c.inflight)
    ensures CreditsNameChecks(c) && Deposits(c.rows, a) == Deposits(b.rows, a) && ApprovedChecks(c, a) == ApprovedChecks(b, a)
  {
  }

  lemma RunNamesChecks(start: Bank, labels: seq<Label>)
    requires Opening(start)
    ensures CreditsNameChecks(Run(start, labels))
  {
    hide Run, Exec;
    OpeningHasShape(start);
    RunDeposits(start, labels, "");
  }

  /** An inbound transfer debits its account first and credits it back on settlement: together its two
      entries cost the account the fee and leave the amount in PENDING_OUT. */
  lemma InflowsOnlyCostTheirFee(b: Bank, id: nat)
    requires Shape(b) && id < |b.transfers| && Inflow(b.transfers[id].kind)
    ensures var t := b.transfers[id];
            var first, second := PendingPostings(t.from, t.cents, t.fee), SettlePostings(t);
            && Net(first, AccountCode(t.from)) + Net(second, AccountCode(t.from)) == -t.fee
            && Net(first, PENDING_OUT) + Net(second, PENDING_OUT) == t.cents
  {
    var t := b.transfers[id];
    assert TransferShape(b, t);
    var r := InitiateReq(t.user, t.key, t.kind, t.from, t.to, t.cents, t.fee, t.instant);
    PendingNets(b, r);
    SettleNets(b, t);
    AccountCodesAreSeparate(t.from, t.from);
    assert SYSTEM_CODES[0] == CASH && SYSTEM_CODES[1] == PENDING_OUT && SYSTEM_CODES[3] == FEE_REV;
  }
}
