/** Every transfer was priced: its amount is within the limits and its fee is the quoted one. */
module BankLimits {
  import opened Quote
  import opened Bank
  import opened BankShape
  import opened BankAgreement
  import opened BankLifecycle

  /** Some wire scope prices the transfer at exactly this fee. */
  ghost predicate Quoted(l: Limits, kind: Kind, cents: int, instant: bool, fee: int) {
    exists scope :: Price(l, kind, cents, instant, scope) == Priced(fee)
  }

  ghost predicate QuotedTransfer(l: Limits, t: Transfer) {
    Quoted(l, t.kind, t.cents, t.instant, t.fee)
  }

  ghost predicate QuotedRequest(l: Limits, r: Request) {
    r.InitiateReq? ==> Quoted(l, r.kind, r.cents, r.instant, r.fee)
  }

  ghost predicate AllQuoted(b: Bank) {
    && (forall i :: 0 <= i < |b.transfers| ==> QuotedTransfer(b.limits, b.transfers[i]))
    && (forall r :: r in b.inflight ==> QuotedRequest(b.limits, r))
  }

  lemma TransactQuoted(b: Bank, r: Request)
    requires AllQuoted(b) && QuotedRequest(b.limits, r) && Transact(b, r).Some?
    ensures AllQuoted(Transact(b, r).value) && Transact(b, r).value.limits == b.limits
  {
    hide Quoted, PendingPostings, SettlePostings, RejectPostings, InitiateCodes, SettleCodes;
    var c := Transact(b, r).value;
    TransactPersists(b, r);
    forall i | 0 <= i < |c.transfers|
      ensures QuotedTransfer(c.limits, c.transfers[i])
    {
      if i < |b.transfers| {
        assert QuotedTransfer(b.limits, b.transfers[i]) && SameTerms(b.transfers[i], c.transfers[i]);
      }
    }
  }

  lemma StartedQuoted(b: Bank, l: Label)
    requires Started(b, l).Some?
    ensures QuotedRequest(b.limits, Started(b, l).value)
  {
    if l.Submit? {
      var r := Started(b, l).value;
      assert Price(b.limits, r.kind, r.cents, r.instant, Scope(l.dto)) == Priced(r.fee);
    }
  }

  lemma QuietQuoted(b: Bank, l: Label)
    requires !Commits(b, l) && AllQuoted(b)
    ensures forall r :: r in Exec(b, l).inflight ==> QuotedRequest(b.limits, r)
  {
    hide Transact, Started, QuotedRequest;
    if Started(b, l).Some? {
      StartedQuoted(b, l);
    }
  }

  lemma StepQuoted(b: Bank, l: Label)
    requires AllQuoted(b)
    ensures AllQuoted(Exec(b, l)) && Exec(b, l).limits == b.limits
  {
    hide Transact, Started, Quoted;
    StepKeepsLimits(b, l);
    if Commits(b, l) {
      TransactQuoted(b, l.req);
    } else {
      QuietTransfers(b, l);
      QuietQuoted(b, l);
      forall i | 0 <= i < |b.transfers|
        ensures QuotedTransfer(b.limits, Exec(b, l).transfers[i])
      {
        assert QuotedTransfer(b.limits, b.transfers[i]) && SameTerms(b.transfers[i], Exec(b, l).transfers[i]);
      }
    }
  }

  lemma {:induction false} RunQuoted(b: Bank, labels: seq<Label>)
    requires AllQuoted(b)
    ensures AllQuoted(Run(b, labels)) && Run(b, labels).limits == b.limits
    decreases |labels|
  {
    hide Exec, AllQuoted;
    if labels != [] {
      StepQuoted(b, labels[0]);
      RunQuoted(Exec(b, labels[0]), labels[1..]);
    }
  }

  /** In every reachable state, every transfer's amount lies within the limits of its kind and its fee is the one the
      quote names, whatever raced between the quote and the commit; an instant transfer is never internal. */
  lemma EveryTransferIsPriced(start: Bank, labels: seq<Label>, id: nat)
    requires Opening(start) && id < |Run(start, labels).transfers|
    ensures var t := Run(start, labels).transfers[id];
            && WithinLimits(start.limits, t.kind, t.cents)
            && !(t.instant && t.kind == Internal)
            && 0 <= t.fee
            && exists scope :: FeeIs(start.limits, t.kind, t.cents, t.instant, scope, t.fee)
  {
    hide Run, Exec;
    RunQuoted(start, labels);
    var t := Run(start, labels).transfers[id];
    assert QuotedTransfer(start.limits, t);
    var scope :| Price(start.limits, t.kind, t.cents, t.instant, scope) == Priced(t.fee);
    PricedTransfersAreWithinLimits(start.limits, t.kind, t.cents, t.instant, scope);
  }
}
