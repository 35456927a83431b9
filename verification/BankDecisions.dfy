/** Admin decisions: how many a transfer has had, and what a rejection rules out. */
module BankDecisions {
  import opened Ledger
  import opened Bank
  import opened BankShape
  import opened BankAgreement
  import opened BankLifecycle

  /** The decisions recorded for a transfer. */
  ghost function Decisions(log: seq<Event>, id: nat): nat {
    Times(log, ApprovedBy(id)) + Times(log, RejectedBy(id))
  }

  /** The step commits an admin's decision on `id`. */
  ghost predicate DecidesAt(b: Bank, l: Label, id: nat) {
    Commits(b, l) && (l.req.ApproveReq? || l.req.RejectReq?) && l.req.id == id
  }

  /** A decision committed on `id` finds it undecided. */
  ghost predicate FirstAt(b: Bank, l: Label, id: nat) {
    DecidesAt(b, l, id) ==> id < |b.transfers| && b.transfers[id].decision.Undecided?
  }

  ghost predicate DecidedOnce(b: Bank, labels: seq<Label>, id: nat)
    decreases |labels|
  {
    labels != [] ==> FirstAt(b, labels[0], id) && DecidedOnce(Exec(b, labels[0]), labels[1..], id)
  }

  /** The decision field and the log agree. */
  ghost predicate Tallied(b: Bank, id: nat) {
    if id < |b.transfers| then b.transfers[id].decision.Undecided? <==> Decisions(b.log, id) == 0
    else Decisions(b.log, id) == 0
  }

  function DecisionOf(r: Request): Decision {
    if r.ApproveReq? then Approved else Rejected
  }

  /** What a step does to the decision on `id`. */
  ghost predicate DecisionMoves(b: Bank, c: Bank, id: nat, decided: bool, decision: Decision) {
    && |b.transfers| <= |c.transfers|
    && (decided ==> id < |b.transfers|)
    && Decisions(c.log, id) == Decisions(b.log, id) + (if decided then 1 else 0)
    && (id < |b.transfers| ==> c.transfers[id].decision == if decided then decision else b.transfers[id].decision)
    && (|b.transfers| <= id < |c.transfers| ==> c.transfers[id].decision.Undecided?)
  }

  lemma DecisionLogged(log: seq<Event>, note: seq<Event>, e: Event, id: nat)
    requires forall k :: 0 <= k < |note| ==> note[k].Overwrote?
    ensures Decisions(log + note + [e], id) == Decisions(log, id) + if e == ApprovedBy(id) || e == RejectedBy(id) then 1 else 0
  {
    AppendEvents(log, note, e, ApprovedBy(id));
    AppendEvents(log, note, e, RejectedBy(id));
  }

  lemma TransactDecisions(b: Bank, l: Label, id: nat)
    requires Shape(b) && Commits(b, l)
    ensures DecisionMoves(b, Transact(b, l.req).value, id, DecidesAt(b, l, id), DecisionOf(l.req))
  {
    hide Decisions, Shape, PostOutcome, PendingPostings, SettlePostings, RejectPostings, InitiateCodes, SettleCodes;
    var c := Transact(b, l.req).value;
    match l.req
    case InitiateReq(_, _, _, _, _, _, _, _) =>
      assert c.log == b.log + [] + [Initiated(|b.transfers|)];
      DecisionLogged(b.log, [], Initiated(|b.transfers|), id);
    case SettleReq(k, t) => DecisionLogged(b.log, OverwriteNote(b.rows[t.pendingRow], t), Settled(k), id);
    case RejectReq(k, t) => DecisionLogged(b.log, OverwriteNote(b.rows[t.pendingRow], t), RejectedBy(k), id);
    case ApproveReq(k, t) =>
      assert c.log == b.log + [] + [ApprovedBy(k)];
      DecisionLogged(b.log, [], ApprovedBy(k), id);
    case CreditReq(k, _) =>
      assert c.log == b.log + [] + [Credited(k)];
      DecisionLogged(b.log, [], Credited(k), id);
    case DenyReq(k, _) =>
  }

  lemma StepDecisions(b: Bank, l: Label, id: nat)
    requires Shape(b)
    ensures DecisionMoves(b, Exec(b, l), id, DecidesAt(b, l, id), if l.Commit? then DecisionOf(l.req) else Undecided)
    ensures DecidesAt(b, l, id) ==> l.Commit?
  {
    hide Decisions, Shape, Transact, Started;
    if Commits(b, l) {
      TransactDecisions(b, l, id);
    } else {
      QuietStep(b, l);
      QuietTransfers(b, l);
      DecisionLogged(b.log, [], QuietEvent(l), id);
      assert b.log + [] + [QuietEvent(l)] == b.log + [QuietEvent(l)];
    }
  }

  lemma {:induction false} RunDecisions(b: Bank, labels: seq<Label>, id: nat)
    requires Shape(b) && Tallied(b, id)
    ensures Tallied(Run(b, labels), id)
    ensures Decisions(Run(b, labels).log, id) <= 1 <==> Decisions(b.log, id) <= 1 && DecidedOnce(b, labels, id)
    ensures Decisions(Run(b, labels).log, id) >= Decisions(b.log, id)
    decreases |labels|
  {
    hide Decisions, Shape, Exec, DecidesAt;
    if labels != [] {
      StepKeepsShape(b, labels[0]);
      StepDecisions(b, labels[0], id);
      RunDecisions(Exec(b, labels[0]), labels[1..], id);
    }
  }

  /** In every run, at most one decision is recorded on a transfer if and only if no decision was committed on it when
      it was already decided; and then a rejected transfer never settles, whatever settlements were stale and even
      after `forceSettle` set it back to pending. */
  lemma DecisionsAreFinal(start: Bank, labels: seq<Label>, id: nat)
    requires Opening(start) && id < |Run(start, labels).transfers|
    ensures var b := Run(start, labels);
            && (Decisions(b.log, id) <= 1 <==> DecidedOnce(start, labels, id))
            && (DecidedOnce(start, labels, id) && RejectedBy(id) in b.log ==>
                  Settled(id) !in b.log && ApprovedBy(id) !in b.log && b.transfers[id].decision.Rejected?)
  {
    hide Run, Exec, DecidedOnce;
    OpeningHasShape(start);
    RunDecisions(start, labels, id);
    RunOrdered(start, labels);
    RunKeepsShape(start, labels);
    if DecidedOnce(start, labels, id) && RejectedBy(id) in Run(start, labels).log {
      RejectionRulesOut(Run(start, labels), id);
    }
  }

  lemma RejectionRulesOut(b: Bank, id: nat)
    requires Shape(b) && ReviewOrdered(b) && Tallied(b, id) && id < |b.transfers|
    requires Decisions(b.log, id) <= 1 && RejectedBy(id) in b.log
    ensures Settled(id) !in b.log && ApprovedBy(id) !in b.log && b.transfers[id].decision.Rejected?
  {
    assert TransferShape(b, b.transfers[id]);
    assert ApprovedBy(id) in multiset(b.log) <==> ApprovedBy(id) in b.log;
    assert RejectedBy(id) in multiset(b.log);
    assert ApprovedBy(id) !in b.log;
    forall i | 0 <= i < |b.log|
      ensures b.log[i] != Settled(id)
    {
      assert !LoggedBefore(b.log, i, ApprovedBy(id));
    }
  }

  // ----- decisions that find the row they read -----

  /** A decision on `id` commits on the row it read; other requests may be as stale as they like. */
  ghost predicate FreshOn(b: Bank, l: Label, id: nat) {
    DecidesAt(b, l, id) ==> FreshRequest(b, l.req)
  }

  ghost predicate SerialisedOn(b: Bank, labels: seq<Label>, id: nat)
    decreases |labels|
  {
    labels != [] ==> FreshOn(b, labels[0], id) && SerialisedOn(Exec(b, labels[0]), labels[1..], id)
  }

  /** Decisions serialised on one transfer's row are decided once. */
  lemma {:induction false} SerialisedDecideOnce(b: Bank, labels: seq<Label>, id: nat)
    requires Shape(b) && SerialisedOn(b, labels, id)
    ensures DecidedOnce(b, labels, id)
    decreases |labels|
  {
    hide Exec;
    if labels != [] {
      StepKeepsShape(b, labels[0]);
      if DecidesAt(b, labels[0], id) {
        assert RequestShape(b, labels[0].req);
      }
      SerialisedDecideOnce(Exec(b, labels[0]), labels[1..], id);
    }
  }
}
