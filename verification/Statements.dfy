/** Monthly statements over the posted rows of the transactions table. */
module Statements {
  import opened Sums
  import opened Calendar
  import opened Iso
  import opened Pagination
  import Schedule

  datatype Line = Line(tx: Tx, running: int)

  datatype Statement = Statement(start: Instant, end: Instant, opening: int, closing: int, totalIn: int, totalOut: int,
                                 lines: seq<Line>)

  datatype Answer = Issued(statement: Statement) | NotFound

  function Cents(): Tx -> int {
    (t: Tx) => t.cents
  }

  function InOf(): Tx -> int {
    (t: Tx) => if t.cents > 0 then t.cents else 0
  }

  function OutOf(): Tx -> int {
    (t: Tx) => if t.cents > 0 then 0 else -t.cents
  }

  function PostedBefore(account: string, at: Instant): Tx -> bool {
    (t: Tx) => t.account == account && t.status == Posted && Before(t.occurredAt, at)
  }

  function PostedIn(account: string, start: Instant, end: Instant): Tx -> bool {
    (t: Tx) => t.account == account && t.status == Posted && !Before(t.occurredAt, start) && Before(t.occurredAt, end)
  }

  /** `balanceAt`: every posted row before an instant. */
  function BalanceAt(table: seq<Tx>, account: string, at: Instant): int {
    SumBy(Keep(table, PostedBefore(account, at)), Cents())
  }

  function Reverse(s: seq<Tx>): (r: seq<Tx>)
    ensures |r| == |s|
  {
    seq(|s|, i requires 0 <= i < |s| => s[|s| - 1 - i])
  }

  /** The period's posted rows, oldest first, the smaller identifier first among equals. */
  function RowsIn(table: seq<Tx>, account: string, start: Instant, end: Instant): seq<Tx> {
    Reverse(InOrder(Keep(table, PostedIn(account, start, end))))
  }

  /** What a statement should say: every figure a total of its own. */
  ghost predicate IsStatement(s: Statement, table: seq<Tx>, account: string) {
    var rows := RowsIn(table, account, s.start, s.end);
    && s.opening == BalanceAt(table, account, s.start)
    && s.closing == s.opening + SumBy(rows, Cents())
    && s.totalIn == SumBy(rows, InOf())
    && s.totalOut == SumBy(rows, OutOf())
    && |s.lines| == |rows|
    && forall i :: 0 <= i < |rows| ==> s.lines[i] == Line(rows[i], s.opening + SumBy(rows[..i + 1], Cents()))
  }

  class StatementStore {
    const table: seq<Tx>
    const accounts: set<string>
    var issued: map<(string, Instant), Statement>

    /** Every statement on file is right for the history, and filed under its account and start. */
    ghost predicate Valid()
      reads this
    {
      forall k :: k in issued ==> issued[k].start == k.1 && IsStatement(issued[k], table, k.0)
    }

    constructor (table: seq<Tx>, accounts: set<string>)
      ensures Valid() && issued == map[] && this.table == table && this.accounts == accounts
    {
      this.table, this.accounts, issued := table, accounts, map[];
    }

    /** `generateOne`: the one on file, or a new one. */
    method GenerateOne(account: string, start: Instant, end: Instant) returns (answer: Answer)
      requires Valid()
      modifies this
      ensures Valid()
      ensures answer.NotFound? <==> (account, start) !in old(issued) && account !in accounts
      ensures answer.NotFound? ==> issued == old(issued)
      ensures answer.Issued? ==>
                && IsStatement(answer.statement, table, account) && answer.statement.start == start
                && issued == old(issued)[(account, start) := answer.statement]
                && ((account, start) in old(issued) ==> answer.statement == old(issued)[(account, start)])
                && ((account, start) !in old(issued) ==> answer.statement.end == end)
    {
      if (account, start) in issued {
        return Issued(issued[(account, start)]);
      }
      if account !in accounts {
        return NotFound;
      }
      var statement := Render(table, account, start, end);
      issued := issued[(account, start) := statement];
      return Issued(statement);
    }
  }

  lemma NextSum(rows: seq<Tx>, i: nat, f: Tx -> int)
    requires i < |rows|
    ensures SumBy(rows[..i + 1], f) == SumBy(rows[..i], f) + f(rows[i])
  {
    assert rows[..i + 1] == rows[..i] + [rows[i]];
    SumAppend(rows[..i], rows[i], f);
  }

  lemma EmptySum(rows: seq<Tx>, f: Tx -> int)
    ensures SumBy(rows[..0], f) == 0
  {
  }

  /** The walk over the period's rows. */
  method Render(table: seq<Tx>, account: string, start: Instant, end: Instant) returns (s: Statement)
    ensures IsStatement(s, table, account) && s.start == start && s.end == end
  {
    hide SumBy, RowsIn, BalanceAt;
    var transactions := RowsIn(table, account, start, end);
    var opening := BalanceAt(table, account, start);
    var running, totalIn, totalOut := opening, 0, 0;
    var lines: seq<Line> := [];
    var i := 0;
    EmptySum(transactions, Cents());
    EmptySum(transactions, InOf());
    EmptySum(transactions, OutOf());
    while i < |transactions|
      invariant 0 <= i <= |transactions|
      invariant running == opening + SumBy(transactions[..i], Cents())
      invariant totalIn == SumBy(transactions[..i], InOf())
      invariant totalOut == SumBy(transactions[..i], OutOf())
      invariant |lines| == i
      invariant forall j :: 0 <= j < i ==> lines[j] == Line(transactions[j], opening + SumBy(transactions[..j + 1], Cents()))
    {
      var t := transactions[i];
      running := running + t.cents;
      if t.cents > 0 {
        totalIn := totalIn + t.cents;
      } else {
        totalOut := totalOut + -t.cents;
      }
      lines := lines + [Line(t, running)];
      NextSum(transactions, i, Cents());
      NextSum(transactions, i, InOf());
      NextSum(transactions, i, OutOf());
      i := i + 1;
    }
    assert transactions[..i] == transactions;
    return Statement(start, end, opening, running, totalIn, totalOut, lines);
  }

  // ----- sums do not depend on the order -----

  lemma {:induction false} SumInsert(s: seq<Tx>, x: Tx, f: Tx -> int)
    ensures SumBy(Insert(s, x), f) == SumBy(s, f) + f(x)
  {
    hide Precedes, Insert, SumBy;
    InsertCases(s, x);
    SumAppend(s, x, f);
    if s != [] && !Precedes(s[|s| - 1], x) {
      var n := |s| - 1;
      assert s == s[..n] + [s[n]];
      SumInsert(s[..n], x, f);
      SumAppend(s[..n], s[n], f);
      SumAppend(Insert(s[..n], x), s[n], f);
    }
  }

  lemma {:induction false} SumInOrder(s: seq<Tx>, f: Tx -> int)
    ensures SumBy(InOrder(s), f) == SumBy(s, f)
  {
    if s != [] {
      SumInOrder(s[..|s| - 1], f);
      SumInsert(InOrder(s[..|s| - 1]), s[|s| - 1], f);
    }
  }

  lemma {:induction false} SumReverse(s: seq<Tx>, f: Tx -> int)
    ensures SumBy(Reverse(s), f) == SumBy(s, f)
  {
    if s != [] {
      SumHead(s, f);
      SumReverse(s[1..], f);
      assert Reverse(s)[..|s| - 1] == Reverse(s[1..]);
    }
  }

  lemma RowTotal(table: seq<Tx>, account: string, start: Instant, end: Instant, f: Tx -> int)
    ensures SumBy(RowsIn(table, account, start, end), f) == SumBy(Keep(table, PostedIn(account, start, end)), f)
  {
    var rows := Keep(table, PostedIn(account, start, end));
    SumReverse(InOrder(rows), f);
    SumInOrder(rows, f);
  }

  /** Rows before the end are the rows before the start and the rows of the period. */
  lemma {:induction false} PeriodSplitsHistory(table: seq<Tx>, account: string, start: Instant, end: Instant)
    requires !Before(end, start)
    ensures BalanceAt(table, account, end) ==
            BalanceAt(table, account, start) + SumBy(Keep(table, PostedIn(account, start, end)), Cents())
  {
    if table != [] {
      var n := |table| - 1;
      var t := table[n];
      PeriodSplitsHistory(table[..n], account, start, end);
      KeepSum(table, PostedBefore(account, end));
      KeepSum(table, PostedBefore(account, start));
      KeepSum(table, PostedIn(account, start, end));
      hide SumBy, Keep;
    }
  }

  lemma KeepSum(s: seq<Tx>, p: Tx -> bool)
    requires s != []
    ensures SumBy(Keep(s, p), Cents()) ==
            SumBy(Keep(s[..|s| - 1], p), Cents()) + if p(s[|s| - 1]) then s[|s| - 1].cents else 0
  {
    SumAppend(Keep(s[..|s| - 1], p), s[|s| - 1], Cents());
  }

  lemma {:induction false} InLessOut(rows: seq<Tx>)
    ensures SumBy(rows, Cents()) == SumBy(rows, InOf()) - SumBy(rows, OutOf())
    ensures SumBy(rows, InOf()) >= 0 && SumBy(rows, OutOf()) >= 0
  {
    if rows != [] {
      InLessOut(rows[..|rows| - 1]);
    }
  }

  // ----- what a statement says -----

  /** A statement's figures agree with each other and with the whole history: closing is opening plus in less out, the
      last running balance, and the total of every posted row before the period's end. */
  lemma StatementAddsUp(s: Statement, table: seq<Tx>, account: string)
    requires IsStatement(s, table, account) && !Before(s.end, s.start)
    ensures s.closing == s.opening + s.totalIn - s.totalOut && s.totalIn >= 0 && s.totalOut >= 0
    ensures s.closing == if s.lines == [] then s.opening else s.lines[|s.lines| - 1].running
    ensures s.closing == BalanceAt(table, account, s.end)
  {
    var rows := RowsIn(table, account, s.start, s.end);
    InLessOut(rows);
    RowTotal(table, account, s.start, s.end, Cents());
    PeriodSplitsHistory(table, account, s.start, s.end);
    assert rows[..|rows|] == rows;
  }

  lemma RowsAreThePeriod(table: seq<Tx>, account: string, start: Instant, end: Instant, i: nat)
    requires i < |RowsIn(table, account, start, end)| && DistinctIds(table)
    ensures var rows := RowsIn(table, account, start, end);
            && (i > 0 ==> Precedes(rows[i], rows[i - 1]))
            && rows[i] in table && PostedIn(account, start, end)(rows[i])
  {
    hide Precedes, Keep, InOrder, Before;
    var p := PostedIn(account, start, end);
    var rows, kept := RowsIn(table, account, start, end), Keep(table, p);
    KeepDistinct(table, p);
    InOrderDescends(kept);
    InOrderMembers(kept);
    KeepMembers(table, p);
    SameMembers(InOrder(kept), kept, rows[i]);
    assert rows[i] == InOrder(kept)[|kept| - 1 - i] by {
      assert |multiset(InOrder(kept))| == |multiset(kept)|;
    }
  }

  /** A posted row of the account, at or after the start and before the end. */
  ghost predicate OnStatement(t: Tx, account: string, start: Instant, end: Instant) {
    t.account == account && t.status == Posted && NoLater(start, t.occurredAt) && !NoLater(end, t.occurredAt)
  }

  lemma RowsAreExactly(table: seq<Tx>, account: string, start: Instant, end: Instant)
    requires DistinctIds(table)
    ensures var rows := RowsIn(table, account, start, end);
            && (forall t :: t in rows <==> t in table && OnStatement(t, account, start, end))
            && (forall i, j :: 0 <= i < j < |rows| ==> NewerFirst(rows[j], rows[i]))
  {
    hide Precedes, Keep, InOrder, Before, NewerFirst, Reverse;
    var p := PostedIn(account, start, end);
    var kept := Keep(table, p);
    var sorted := InOrder(kept);
    KeepDistinct(table, p);
    InOrderDescends(kept);
    InOrderMembers(kept);
    KeepMembers(table, p);
    DescendingIsNewerFirst(sorted);
    ReverseMembers(sorted);
    forall t
      ensures t in sorted <==> t in table && OnStatement(t, account, start, end)
    {
      SameMembers(sorted, kept, t);
      PostedInExactly(t, account, start, end);
    }
  }

  lemma PostedInExactly(t: Tx, account: string, start: Instant, end: Instant)
    ensures PostedIn(account, start, end)(t) <==> OnStatement(t, account, start, end)
  {
  }

  lemma ReverseMembers(s: seq<Tx>)
    ensures forall t :: t in Reverse(s) <==> t in s
    ensures forall i :: 0 <= i < |s| ==> Reverse(s)[i] == s[|s| - 1 - i]
  {
    forall t | t in s
      ensures t in Reverse(s)
    {
      var i :| 0 <= i < |s| && s[i] == t;
      assert Reverse(s)[|s| - 1 - i] == t;
    }
  }

  /** The credits of a list of lines, and the debits. */
  ghost function Flow(lines: seq<Line>): (int, int) {
    if lines == [] then (0, 0)
    else
      var (credits, debits) := Flow(lines[..|lines| - 1]);
      var cents := lines[|lines| - 1].tx.cents;
      if cents > 0 then (credits + cents, debits) else (credits, debits - cents)
  }

  lemma {:induction false} FlowIsTotals(lines: seq<Line>, rows: seq<Tx>)
    requires |lines| == |rows| && forall i :: 0 <= i < |rows| ==> lines[i].tx == rows[i]
    ensures Flow(lines) == (SumBy(rows, InOf()), SumBy(rows, OutOf()))
  {
    if rows != [] {
      FlowIsTotals(lines[..|lines| - 1], rows[..|rows| - 1]);
    }
  }

  /** The lines are the account's posted rows of the period, each once and the oldest first; the credits among them total
      the money in, and the debits the money out. */
  lemma LinesAreThePeriod(s: Statement, table: seq<Tx>, account: string)
    requires IsStatement(s, table, account) && DistinctIds(table)
    ensures forall t :: (exists i :: 0 <= i < |s.lines| && s.lines[i].tx == t) <==>
                        t in table && OnStatement(t, account, s.start, s.end)
    ensures forall i, j :: 0 <= i < j < |s.lines| ==> NewerFirst(s.lines[j].tx, s.lines[i].tx)
    ensures Flow(s.lines) == (s.totalIn, s.totalOut)
  {
    hide RowsIn, BalanceAt, SumBy, OnStatement, NewerFirst, Flow;
    var rows := RowsIn(table, account, s.start, s.end);
    RowsAreExactly(table, account, s.start, s.end);
    FlowIsTotals(s.lines, rows);
    forall t
      ensures (exists i :: 0 <= i < |s.lines| && s.lines[i].tx == t) <==> t in rows
    {
      if t in rows {
        var i :| 0 <= i < |rows| && rows[i] == t;
        assert s.lines[i].tx == t;
      }
    }
  }

  /** A balance starts at nothing and counts each posted row of the account before the instant, once. */
  lemma BalanceCountsPostedRows(table: seq<Tx>, t: Tx, account: string, at: Instant)
    ensures BalanceAt([], account, at) == 0
    ensures BalanceAt(table + [t], account, at) == BalanceAt(table, account, at) +
            if t.account == account && t.status == Posted && !NoLater(at, t.occurredAt) then t.cents else 0
  {
    KeepSum(table + [t], PostedBefore(account, at));
    assert (table + [t])[..|table|] == table;
  }

  /** Each line's running balance is the one before it moved by its own amount; lines are posted rows of the period, in
      order of time. */
  lemma LinesRun(s: Statement, table: seq<Tx>, account: string, i: nat)
    requires IsStatement(s, table, account) && i < |s.lines| && DistinctIds(table)
    ensures s.lines[i].running == (if i == 0 then s.opening else s.lines[i - 1].running) + s.lines[i].tx.cents
    ensures i > 0 ==> Precedes(s.lines[i].tx, s.lines[i - 1].tx)
    ensures s.lines[i].tx in table && PostedIn(account, s.start, s.end)(s.lines[i].tx)
  {
    hide Precedes, RowsIn, PostedIn, BalanceAt, SumBy;
    var rows := RowsIn(table, account, s.start, s.end);
    RowsAreThePeriod(table, account, s.start, s.end, i);
    NextSum(rows, i, Cents());
    EmptySum(rows, Cents());
  }

  /** Statements of one account over consecutive periods. */
  ghost predicate Chain(chain: seq<Statement>, table: seq<Tx>, account: string) {
    && (forall i :: 0 <= i < |chain| ==> IsStatement(chain[i], table, account) && !Before(chain[i].end, chain[i].start))
    && (forall i :: 0 <= i < |chain| - 1 ==> chain[i].end == chain[i + 1].start)
  }

  function NetOf(): Statement -> int {
    (s: Statement) => s.totalIn - s.totalOut
  }

  /** Along any chain of consecutive periods each closing is the next opening, and the last closing is the first opening
      moved by everything the chain reports. */
  lemma {:induction false} ChainCarriesForward(chain: seq<Statement>, table: seq<Tx>, account: string)
    requires Chain(chain, table, account) && chain != []
    ensures forall i :: 0 <= i < |chain| - 1 ==> chain[i].closing == chain[i + 1].opening
    ensures chain[|chain| - 1].closing == chain[0].opening + SumBy(chain, NetOf())
  {
    hide IsStatement, BalanceAt;
    var n := |chain| - 1;
    ClosesAtNextOpening(chain, table, account);
    StatementAddsUp(chain[n], table, account);
    if n > 0 {
      assert Chain(chain[..n], table, account);
      ChainCarriesForward(chain[..n], table, account);
    } else {
      assert chain[..0] == [];
    }
  }

  lemma ClosesAtNextOpening(chain: seq<Statement>, table: seq<Tx>, account: string)
    requires Chain(chain, table, account)
    ensures forall i :: 0 <= i < |chain| - 1 ==> chain[i].closing == chain[i + 1].opening
  {
    forall i | 0 <= i < |chain| - 1
      ensures chain[i].closing == chain[i + 1].opening
    {
      StatementAddsUp(chain[i], table, account);
    }
  }

  // ----- the monthly period -----

  /** `startOfPriorMonthUTC`. */
  function PriorMonth(now: Instant): (Instant, Instant) {
    var c := DateOf(now);
    (Instant(MakeDay(Schedule.UtcYear(c.year), c.month - 1, 1), 0), Instant(MakeDay(Schedule.UtcYear(c.year), c.month, 1), 0))
  }

  lemma MakeDayBefore(y: int, m: int)
    requires 0 <= m < 12
    ensures MakeDay(y, m - 1, 1) == if m == 0 then FirstOfMonth(y - 1, 11) else FirstOfMonth(y, m - 1)
  {
    assert (m - 1) / 12 == if m == 0 then -1 else 0;
    assert (m - 1) % 12 == if m == 0 then 11 else m - 1;
  }

  /** The period is the whole of the month before, it is over, and the next month's run takes up where it ends. */
  lemma PriorMonthsFollowOn(now: Instant, later: Instant)
    requires ValidInstant(now) && DateOf(now).year >= 1970
    requires DateOf(later).year == NextYear(DateOf(now).year, DateOf(now).month)
    requires DateOf(later).month == NextMonth(DateOf(now).month)
    ensures PriorMonth(now).1 == PriorMonth(later).0
    ensures 28 <= PriorMonth(now).1.day - PriorMonth(now).0.day <= 31
    ensures !Before(now, PriorMonth(now).1)
  {
    hide DateOf, FirstOfMonth, MakeDay, Schedule.UtcYear;
    var c := DateOf(now);
    PeriodDays(c);
    PeriodStart(DateOf(later).year, DateOf(later).month);
    PeriodStart(c.year, c.month);
    MakeDayHere(c.year, c.month, 1);
    DateNamesDay(now);
  }

  /** The period runs from midnight on the first of the month before to midnight on the first of this one. */
  lemma PriorMonthIsTheMonthBefore(now: Instant)
    requires DateOf(now).year > 1970
    ensures var (y, m) := (DateOf(now).year, DateOf(now).month);
            var (start, end) := PriorMonth(now);
            && start.time == 0 && end.time == 0
            && FromDay(end.day) == Civil(y, m, 1)
            && FromDay(start.day) == if m == 0 then Civil(y - 1, 11, 1) else Civil(y, m - 1, 1)
  {
    hide FromDay, FirstOfMonth, MakeDay, Schedule.UtcYear;
    var c := DateOf(now);
    PeriodStart(c.year, c.month);
    MakeDayHere(c.year, c.month, 1);
    ToDayIsRight(Civil(c.year, c.month, 1));
    ToDayIsRight(if c.month == 0 then Civil(c.year - 1, 11, 1) else Civil(c.year, c.month - 1, 1));
  }

  lemma DateNamesDay(t: Instant)
    ensures FirstOfMonth(DateOf(t).year, DateOf(t).month) <= t.day
  {
    FromDayIsRight(t.day);
  }

  lemma PeriodStart(y: int, m: int)
    requires 0 <= m < 12 && y >= 1970
    ensures Schedule.UtcYear(y) == y
    ensures MakeDay(y, m - 1, 1) == if m == 0 then FirstOfMonth(y - 1, 11) else FirstOfMonth(y, m - 1)
  {
    MakeDayBefore(y, m);
  }

  lemma PeriodDays(c: Civil)
    requires ValidCivil(c) && c.year >= 1970
    ensures 28 <= FirstOfMonth(c.year, c.month) - MakeDay(c.year, c.month - 1, 1) <= 31
  {
    MakeDayBefore(c.year, c.month);
    if c.month == 0 {
      NextFirst(c.year - 1, 11);
    } else {
      NextFirst(c.year, c.month - 1);
    }
  }
}
