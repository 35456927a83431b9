/** Double-entry ledger: chart of accounts, `post`, and the trial balance. */
module Ledger {
  import opened Sums

  const CASH := "CASH"
  const PENDING_OUT := "PENDING_OUT"
  const PENDING_IN := "PENDING_IN"
  const FEE_REV := "FEE_REV"
  const INT_EXP := "INT_EXP"

  const SYSTEM_CODES: seq<string> := [CASH, PENDING_OUT, PENDING_IN, FEE_REV, INT_EXP]

  function AccountCode(account: string): (code: string) {
    "ACCT_" + account
  }

  /** A sub-ledger code names one account and is never a system code. */
  lemma AccountCodesAreSeparate(a: string, b: string)
    ensures AccountCode(a) == AccountCode(b) ==> a == b
    ensures AccountCode(a) !in SYSTEM_CODES
  {
    assert AccountCode(a)[5..] == a;
    assert AccountCode(b)[5..] == b;
    assert AccountCode(a)[0] == 'A';
    assert forall i :: 0 <= i < |SYSTEM_CODES| ==> SYSTEM_CODES[i][0] != 'A';
  }

  datatype Direction = Debit | Credit

  /** `creatable` stands for a posting whose `meta` lets `post` open a missing ledger account. */
  datatype Posting = Posting(code: string, direction: Direction, cents: int, creatable: bool := false)

  datatype Phase = PendingPhase | SettlePhase | RejectPhase

  /** `ref` is the transfer the journal entry names in `referenceId`. */
  datatype Journal = Journal(phase: Phase, ref: nat, postings: seq<Posting>)

  // ----- totals -----

  function DebitOf(): Posting -> int {
    (p: Posting) => if p.direction.Debit? then p.cents else 0
  }

  function CreditOf(): Posting -> int {
    (p: Posting) => if p.direction.Credit? then p.cents else 0
  }

  function SumDebit(ps: seq<Posting>): int {
    SumBy(ps, DebitOf())
  }

  function SumCredit(ps: seq<Posting>): int {
    SumBy(ps, CreditOf())
  }

  /** Credits minus debits that one posting makes on `code`. */
  function NetOf(code: string): Posting -> int {
    (p: Posting) => if p.code != code then 0 else if p.direction.Credit? then p.cents else -p.cents
  }

  function Net(ps: seq<Posting>, code: string): int {
    SumBy(ps, NetOf(code))
  }

  function JournalNetOf(code: string): Journal -> int {
    (j: Journal) => Net(j.postings, code)
  }

  /** Credits minus debits posted on `code` by all journals. */
  function LedgerNet(js: seq<Journal>, code: string): int {
    SumBy(js, JournalNetOf(code))
  }

  // ----- post -----

  datatype PostError = TooFewPostings | UnbalancedJournal | UnknownCode(code: string)
  datatype PostResult = Entered(codes: seq<string>) | Refused(error: PostError)

  /** The ledger accounts after opening those that `ps` may create, or the first code that stays unknown. */
  function OpenCodes(codes: seq<string>, ps: seq<Posting>): PostResult {
    if ps == [] then Entered(codes)
    else match OpenCodes(codes, ps[..|ps| - 1])
      case Refused(e) => Refused(e)
      case Entered(known) =>
        var p := ps[|ps| - 1];
        if p.code in known then Entered(known)
        else if p.creatable then Entered(known + [p.code])
        else Refused(UnknownCode(p.code))
  }

  /** What `LedgerService.post` answers; on success, the ledger accounts it leaves behind. */
  function PostOutcome(codes: seq<string>, ps: seq<Posting>): PostResult {
    if |ps| < 2 then Refused(TooFewPostings)
    else if SumDebit(ps) != SumCredit(ps) then Refused(UnbalancedJournal)
    else OpenCodes(codes, ps)
  }

  function EnsureCode(codes: seq<string>, code: string): seq<string> {
    if code in codes then codes else codes + [code]
  }

  /** A journal `post` accepted. */
  ghost predicate WellPosted(codes: seq<string>, j: Journal) {
    && SumDebit(j.postings) == SumCredit(j.postings)
    && forall i :: 0 <= i < |j.postings| ==> j.postings[i].code in codes
  }

  /** A successful `post` keeps every known code, repeats none and knows every posting's code; it is
      refused exactly for an unknown code that no posting so far could open. */
  lemma {:induction false} OpenCodesSpec(codes: seq<string>, ps: seq<Posting>)
    ensures OpenCodes(codes, ps).Entered? ==>
              && codes <= OpenCodes(codes, ps).codes
              && (Distinct(codes) ==> Distinct(OpenCodes(codes, ps).codes))
              && forall i :: 0 <= i < |ps| ==> ps[i].code in OpenCodes(codes, ps).codes
    ensures OpenCodes(codes, ps).Refused? <==>
            exists i :: 0 <= i < |ps| && Stuck(codes, ps, i)
  {
    if ps != [] {
      var n := |ps| - 1;
      OpenCodesSpec(codes, ps[..n]);
      OpenCodesMembers(codes, ps[..n], ps[n].code);
      forall i | 0 <= i < n
        ensures Stuck(codes, ps, i) <==> Stuck(codes, ps[..n], i)
      {
      }
      if OpenCodes(codes, ps[..n]).Refused? {
        var i :| 0 <= i < n && Stuck(codes, ps[..n], i);
        assert Stuck(codes, ps, i);
      } else if OpenCodes(codes, ps).Refused? {
        assert forall k :: 0 <= k < n ==> ps[..n][k] == ps[k];
        assert Stuck(codes, ps, n);
      }
    }
  }

  /** Posting `i` names an unknown code that neither it nor an earlier posting may open. */
  ghost predicate Stuck(codes: seq<string>, ps: seq<Posting>, i: nat)
    requires i < |ps|
  {
    && ps[i].code !in codes
    && !ps[i].creatable
    && forall k :: 0 <= k < i ==> ps[k].code == ps[i].code ==> !ps[k].creatable
  }

  /** Opening adds exactly the codes of creatable postings. */
  lemma {:induction false} OpenCodesMembers(codes: seq<string>, ps: seq<Posting>, c: string)
    ensures OpenCodes(codes, ps).Entered? ==>
              (c in OpenCodes(codes, ps).codes <==>
               c in codes || exists i :: 0 <= i < |ps| && ps[i].code == c && ps[i].creatable)
  {
    if ps != [] {
      OpenCodesMembers(codes, ps[..|ps| - 1], c);
    }
  }

  /** Two or more balanced postings on known codes always post, and open nothing. */
  lemma KnownPostingsPost(codes: seq<string>, ps: seq<Posting>)
    requires |ps| >= 2 && SumDebit(ps) == SumCredit(ps)
    requires forall i :: 0 <= i < |ps| ==> ps[i].code in codes
    ensures PostOutcome(codes, ps) == Entered(codes)
  {
    KnownCodesStay(codes, ps);
  }

  lemma {:induction false} KnownCodesStay(codes: seq<string>, ps: seq<Posting>)
    requires forall i :: 0 <= i < |ps| ==> ps[i].code in codes
    ensures OpenCodes(codes, ps) == Entered(codes)
  {
    if ps != [] {
      KnownCodesStay(codes, ps[..|ps| - 1]);
    }
  }

  /** A journal posts if and only if it has two postings or more, debits equal credits, and every unknown code may be
      opened by its own posting or an earlier one; too few postings are refused first, then an imbalance. */
  lemma PostsExactly(codes: seq<string>, ps: seq<Posting>)
    ensures PostOutcome(codes, ps).Entered? <==>
            |ps| >= 2 && SumDebit(ps) == SumCredit(ps)
            && forall i :: 0 <= i < |ps| && ps[i].code !in codes ==>
                 exists k :: 0 <= k <= i && ps[k].code == ps[i].code && ps[k].creatable
    ensures PostOutcome(codes, ps) == Refused(TooFewPostings) <==> |ps| < 2
    ensures PostOutcome(codes, ps) == Refused(UnbalancedJournal) <==> |ps| >= 2 && SumDebit(ps) != SumCredit(ps)
  {
    OpenCodesSpec(codes, ps);
    UnknownCodeRefusal(codes, ps);
    forall i | 0 <= i < |ps|
      ensures Stuck(codes, ps, i) <==>
              ps[i].code !in codes && !exists k :: 0 <= k <= i && ps[k].code == ps[i].code && ps[k].creatable
    {
    }
  }

  lemma {:induction false} UnknownCodeRefusal(codes: seq<string>, ps: seq<Posting>)
    ensures OpenCodes(codes, ps).Refused? ==> OpenCodes(codes, ps).error.UnknownCode?
  {
    if ps != [] {
      UnknownCodeRefusal(codes, ps[..|ps| - 1]);
    }
  }

  // ----- trial balance -----

  function NetsOf(ps: seq<Posting>): string -> int {
    (c: string) => Net(ps, c)
  }

  function LedgerNetsOf(js: seq<Journal>): string -> int {
    (c: string) => LedgerNet(js, c)
  }

  function PostingNetsOf(p: Posting): string -> int {
    (c: string) => NetOf(c)(p)
  }

  /** One posting is seen by exactly one of a list of distinct codes. */
  lemma {:induction false} OnePostingOneCode(codes: seq<string>, p: Posting)
    requires Distinct(codes)
    ensures SumBy(codes, PostingNetsOf(p)) == if p.code in codes then NetOf(p.code)(p) else 0
  {
    if codes != [] {
      var n := |codes| - 1;
      OnePostingOneCode(codes[..n], p);
      assert codes == codes[..n] + [codes[n]];
      assert PostingNetsOf(p)(codes[n]) == NetOf(codes[n])(p);
      assert NetOf(codes[n])(p) != 0 ==> codes[n] == p.code;
      if p.code in codes[..n] {
        var i :| 0 <= i < n && codes[i] == p.code;
        assert codes[i] != codes[n];
      }
    }
  }

  /** Summing per account equals summing per posting: credits minus debits. */
  lemma {:induction false} NetPerCodeIsNetPerPosting(codes: seq<string>, ps: seq<Posting>)
    requires Distinct(codes)
    requires forall i :: 0 <= i < |ps| ==> ps[i].code in codes
    ensures SumBy(codes, NetsOf(ps)) == SumCredit(ps) - SumDebit(ps)
  {
    if ps == [] {
      SumCongruent(codes, NetsOf(ps), (c: string) => 0);
      SumOfZeros(codes);
    } else {
      var n := |ps| - 1;
      NetPerCodeIsNetPerPosting(codes, ps[..n]);
      OnePostingOneCode(codes, ps[n]);
      SumOfSums(codes, NetsOf(ps[..n]), PostingNetsOf(ps[n]), NetsOf(ps));
    }
  }

  lemma {:induction false} SumOfZeros<T>(s: seq<T>)
    ensures SumBy(s, (x: T) => 0) == 0
  {
    if s != [] {
      SumOfZeros(s[..|s| - 1]);
    }
  }

  /** Journals that each balance give per-account nets that total zero over any list of distinct
      codes covering the postings. */
  lemma {:induction false} BalancedJournalsTotalZero(codes: seq<string>, js: seq<Journal>)
    requires Distinct(codes)
    requires forall i :: 0 <= i < |js| ==> WellPosted(codes, js[i])
    ensures SumBy(codes, LedgerNetsOf(js)) == 0
  {
    if js == [] {
      SumCongruent(codes, LedgerNetsOf(js), (c: string) => 0);
      SumOfZeros(codes);
    } else {
      var n := |js| - 1;
      BalancedJournalsTotalZero(codes, js[..n]);
      NetPerCodeIsNetPerPosting(codes, js[n].postings);
      SumOfSums(codes, LedgerNetsOf(js[..n]), NetsOf(js[n].postings), LedgerNetsOf(js));
    }
  }

  /** The guards of `post`, as the service runs them. */
  method CheckPosting(codes: seq<string>, postings: seq<Posting>) returns (r: PostResult)
    ensures r == PostOutcome(codes, postings)
  {
    if |postings| < 2 {
      return Refused(TooFewPostings);
    }
    var sumDebit, sumCredit := 0, 0;
    for i := 0 to |postings|
      invariant sumDebit == SumDebit(postings[..i]) && sumCredit == SumCredit(postings[..i])
    {
      var p := postings[i];
      assert postings[..i + 1] == postings[..i] + [p];
      SumAppend(postings[..i], p, DebitOf());
      SumAppend(postings[..i], p, CreditOf());
      if p.direction.Debit? {
        sumDebit := sumDebit + p.cents;
      } else {
        sumCredit := sumCredit + p.cents;
      }
    }
    assert postings[..|postings|] == postings;
    if sumDebit != sumCredit {
      return Refused(UnbalancedJournal);
    }
    var known := codes;
    for i := 0 to |postings|
      invariant OpenCodes(codes, postings[..i]) == Entered(known)
    {
      assert postings[..i + 1][..i] == postings[..i];
      if postings[i].code !in known {
        if !postings[i].creatable {
          StuckOnUnknown(codes, postings, i, known);
          return Refused(UnknownCode(postings[i].code));
        }
        known := known + [postings[i].code];
      }
    }
    return Entered(known);
  }

  /** The ledger tables, updated in place by `post` and read by the trial balance. */
  class Book {
    var codes: seq<string>
    var journals: seq<Journal>

    /** Seeds the system accounts. */
    constructor ()
      ensures codes == SYSTEM_CODES && journals == []
    {
      codes, journals := SYSTEM_CODES, [];
    }

    method EnsureAccountLedger(account: string)
      modifies this
      ensures codes == EnsureCode(old(codes), AccountCode(account))
      ensures AccountCode(account) in codes && old(codes) <= codes && |codes| <= |old(codes)| + 1
      ensures Distinct(old(codes)) ==> Distinct(codes)
      ensures AccountCode(account) in old(codes) ==> codes == old(codes)
      ensures journals == old(journals)
    {
      if AccountCode(account) !in codes {
        codes := codes + [AccountCode(account)];
      }
    }

    /** Either inserts the journal and every ledger account it may create, or changes nothing. */
    method Post(phase: Phase, ref: nat, postings: seq<Posting>) returns (r: PostResult)
      modifies this
      ensures r == PostOutcome(old(codes), postings)
      ensures r.Entered? ==> codes == r.codes && journals == old(journals) + [Journal(phase, ref, postings)]
      ensures r.Entered? ==> WellPosted(codes, Journal(phase, ref, postings))
      ensures r.Refused? ==> codes == old(codes) && journals == old(journals)
    {
      r := CheckPosting(codes, postings);
      if r.Entered? {
        OpenCodesSpec(codes, postings);
        codes := r.codes;
        journals := journals + [Journal(phase, ref, postings)];
      }
    }

    /** `delta` is debits minus credits, summed account by account. */
    method ComputeAndReport() returns (balanced: bool, delta: int)
      ensures delta == -SumBy(codes, LedgerNetsOf(journals))
      ensures balanced <==> delta == 0
      ensures Distinct(codes) && (forall i :: 0 <= i < |journals| ==> WellPosted(codes, journals[i])) ==> balanced
    {
      delta := 0;
      for i := 0 to |codes|
        invariant delta == -SumBy(codes[..i], LedgerNetsOf(journals))
      {
        assert codes[..i + 1] == codes[..i] + [codes[i]];
        SumAppend(codes[..i], codes[i], LedgerNetsOf(journals));
        delta := delta - LedgerNet(journals, codes[i]);
      }
      assert codes[..|codes|] == codes;
      balanced := delta == 0;
      if Distinct(codes) && forall i :: 0 <= i < |journals| ==> WellPosted(codes, journals[i]) {
        BalancedJournalsTotalZero(codes, journals);
      }
    }
  }

  /** Once a code is unknown and cannot be created, the whole list is refused for it. */
  lemma {:induction false} StuckOnUnknown(codes: seq<string>, ps: seq<Posting>, i: nat, known: seq<string>)
    requires i < |ps| && OpenCodes(codes, ps[..i]) == Entered(known)
    requires ps[i].code !in known && !ps[i].creatable
    ensures OpenCodes(codes, ps) == Refused(UnknownCode(ps[i].code))
  {
    var n := |ps| - 1;
    if i < n {
      assert ps[..n][..i] == ps[..i];
      StuckOnUnknown(codes, ps[..n], i, known);
    }
  }
}
