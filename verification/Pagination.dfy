/** Keyset pages over the transactions table. */
module Pagination {
  import opened Sums
  import opened Calendar
  import opened Iso
  import Cursor

  datatype Status = Pending | Posted | Declined | Reversed

  datatype Tx = Tx(
    id: string, account: string, status: Status, category: string, occurredAt: Instant, cents: int, hidden: bool)

  /** The list filters; `search` is the text match on description and merchant. */
  datatype Filters = Filters(
    accounts: set<string>, status: Option<Status>, categories: set<string>,
    from: Option<Instant>, to: Option<Instant>, search: Option<Tx -> bool>)

  datatype Page = Page(items: seq<Tx>, next: Option<string>)

  // ----- order -----

  /** Text order, which is also the order of UUIDs. */
  predicate Less(a: string, b: string) {
    if b == "" then false
    else if a == "" then true
    else a[0] < b[0] || (a[0] == b[0] && Less(a[1..], b[1..]))
  }

  lemma {:induction false} LessIsTotal(a: string, b: string)
    ensures Less(a, b) || Less(b, a) || a == b
    ensures !(Less(a, b) && Less(b, a)) && !Less(a, a)
  {
    if a != "" && b != "" {
      LessIsTotal(a[1..], b[1..]);
      LessIsTotal(a[1..], a[1..]);
      if a[0] == b[0] && a[1..] == b[1..] {
        assert a == [a[0]] + a[1..] && b == [b[0]] + b[1..];
      }
    } else if a != "" {
      LessIsTotal(a[1..], a[1..]);
    }
  }

  lemma {:induction false} LessIsTransitive(a: string, b: string, c: string)
    requires Less(a, b) && Less(b, c)
    ensures Less(a, c)
  {
    if a != "" && a[0] == b[0] == c[0] {
      LessIsTransitive(a[1..], b[1..], c[1..]);
    }
  }

  /** `a` and `b` agree on their first `k` characters, and there `b` is ahead. */
  ghost predicate AheadAt(b: string, a: string, k: nat) {
    k <= |a| && k < |b| && a[..k] == b[..k] && (k == |a| || a[k] < b[k])
  }

  lemma {:induction false} LessThenAhead(a: string, b: string)
    requires Less(a, b)
    ensures exists k: nat :: AheadAt(b, a, k)
  {
    if a == "" || a[0] < b[0] {
      assert AheadAt(b, a, 0);
    } else {
      LessThenAhead(a[1..], b[1..]);
      var k: nat :| AheadAt(b[1..], a[1..], k);
      assert a[..k + 1] == [a[0]] + a[1..][..k] && b[..k + 1] == [b[0]] + b[1..][..k];
      assert AheadAt(b, a, k + 1);
    }
  }

  lemma {:induction false} AheadThenLess(a: string, b: string, k: nat)
    requires AheadAt(b, a, k)
    ensures Less(a, b)
  {
    if k > 0 {
      assert a[..k][0] == b[..k][0];
      assert a[1..][..k - 1] == a[..k][1..] && b[1..][..k - 1] == b[..k][1..];
      AheadThenLess(a[1..], b[1..], k - 1);
    }
  }

  /** Text order: the greater text is ahead where the two first differ. */
  lemma LessExactlyAhead(a: string, b: string)
    ensures Less(a, b) <==> exists k: nat :: AheadAt(b, a, k)
  {
    if Less(a, b) {
      LessThenAhead(a, b);
    }
    if k: nat :| AheadAt(b, a, k) {
      AheadThenLess(a, b, k);
    }
  }

  /** Newer first, then the greater identifier. */
  predicate Precedes(a: Tx, b: Tx) {
    Before(b.occurredAt, a.occurredAt) || (a.occurredAt == b.occurredAt && Less(b.id, a.id))
  }

  lemma PrecedesIsTotal(a: Tx, b: Tx)
    ensures Precedes(a, b) || Precedes(b, a) || (a.occurredAt == b.occurredAt && a.id == b.id)
    ensures !(Precedes(a, b) && Precedes(b, a)) && !Precedes(a, a)
  {
    LessIsTotal(a.id, b.id);
    LessIsTotal(a.id, a.id);
  }

  lemma PrecedesIsTransitive(a: Tx, b: Tx, c: Tx)
    requires Precedes(a, b) && Precedes(b, c)
    ensures Precedes(a, c)
  {
    if a.occurredAt == b.occurredAt == c.occurredAt {
      LessIsTransitive(c.id, b.id, a.id);
    }
  }

  /** `a` occurred later than `b`, or at the same instant with the greater identifier. */
  ghost predicate NewerFirst(a: Tx, b: Tx) {
    || a.occurredAt.day > b.occurredAt.day
    || (a.occurredAt.day == b.occurredAt.day && a.occurredAt.time > b.occurredAt.time)
    || (a.occurredAt == b.occurredAt && exists k: nat :: AheadAt(a.id, b.id, k))
  }

  lemma DescendingIsNewerFirst(s: seq<Tx>)
    requires Descending(s)
    ensures forall i, j :: 0 <= i < j < |s| ==> NewerFirst(s[i], s[j])
  {
    hide Less, AheadAt;
    forall i, j | 0 <= i < j < |s|
      ensures NewerFirst(s[i], s[j])
    {
      LessExactlyAhead(s[j].id, s[i].id);
    }
  }

  ghost predicate Descending(s: seq<Tx>) {
    forall i, j :: 0 <= i < j < |s| ==> Precedes(s[i], s[j])
  }

  // ----- the query -----

  /** The `where` clause without the cursor. */
  predicate Matches(f: Filters, r: Tx) {
    && r.account in f.accounts
    && (f.status.Some? ==> r.status == f.status.value)
    && (f.categories != {} ==> r.category in f.categories)
    && (f.from.Some? ==> !Before(r.occurredAt, f.from.value))
    && (f.to.Some? ==> !Before(f.to.value, r.occurredAt))
    && (f.search.Some? ==> f.search.value(r))
  }

  /** An instant no later than another. */
  ghost predicate NoLater(t: Instant, u: Instant) {
    t.day < u.day || (t.day == u.day && t.time <= u.time)
  }

  /** What the filters ask of a row. */
  ghost predicate Asked(f: Filters, r: Tx) {
    && r.account in f.accounts
    && (f.status == None || f.status == Some(r.status))
    && (f.categories == {} || r.category in f.categories)
    && (f.from == None || NoLater(f.from.value, r.occurredAt))
    && (f.to == None || NoLater(r.occurredAt, f.to.value))
    && (f.search == None || f.search.value(r))
  }

  datatype Position = Position(occurredAt: Instant, id: string)

  /** The cursor's disjunction: strictly older, or as old with a smaller identifier. */
  predicate Past(p: Position, r: Tx) {
    Before(r.occurredAt, p.occurredAt) || (r.occurredAt == p.occurredAt && Less(r.id, p.id))
  }

  function Where(f: Filters): Tx -> bool {
    r => Matches(f, r)
  }

  function Beyond(p: Position): Tx -> bool {
    r => Past(p, r)
  }

  function Keep(s: seq<Tx>, p: Tx -> bool): seq<Tx> {
    if s == [] then []
    else
      var rest := Keep(s[..|s| - 1], p);
      if p(s[|s| - 1]) then rest + [s[|s| - 1]] else rest
  }

  /** `orderBy occurredAt desc, id desc`. */
  function InOrder(s: seq<Tx>): seq<Tx> {
    if s == [] then [] else Insert(InOrder(s[..|s| - 1]), s[|s| - 1])
  }

  function Insert(s: seq<Tx>, x: Tx): seq<Tx> {
    if s == [] || !Precedes(s[|s| - 1], x) then
      if s == [] then [x] else Insert(s[..|s| - 1], x) + [s[|s| - 1]]
    else s + [x]
  }

  /** Every matching row, in order: what the pages are meant to spell out. */
  function Listing(table: seq<Tx>, f: Filters): seq<Tx> {
    InOrder(Keep(table, Where(f)))
  }

  /** The repository's query: filters, cursor, order; the caller takes one more than its limit. */
  function Query(table: seq<Tx>, f: Filters, at: Option<Position>): seq<Tx> {
    var rows := Keep(table, Where(f));
    InOrder(if at.Some? then Keep(rows, Beyond(at.value)) else rows)
  }

  function Take(s: seq<Tx>, n: nat): seq<Tx> {
    if n < |s| then s[..n] else s
  }

  /** Where a cursor text points; null when it does not decode, which lists from the start. */
  function Resume(cursor: Option<string>): Option<Position> {
    if cursor.None? then None
    else match Cursor.Decode(cursor.value)
      case None => None
      case Some(c) => (match FromIso(c.occurredAt) case None => None case Some(t) => Some(Position(t, c.id)))
  }

  predicate Visible(r: Tx) {
    !r.hidden
  }

  predicate RowOk(r: Tx) {
    Writable(r.occurredAt) && Cursor.PlainText(r.id) && r.id != ""
  }

  ghost predicate TableOk(table: seq<Tx>) {
    && (forall i :: 0 <= i < |table| ==> RowOk(table[i]))
    && (forall i, j :: 0 <= i < j < |table| ==> table[i].id != table[j].id)
  }

  /** The page at a position. */
  function PageAt(table: seq<Tx>, f: Filters, at: Option<Position>, limit: nat): Page
    requires forall i :: 0 <= i < |table| ==> RowOk(table[i])
  {
    if f.accounts == {} then Page([], None)
    else
      var query := Query(table, f, at);
      var rows := Take(query, limit + 1);
      var hasMore := |rows| > limit;
      var items := if hasMore then rows[..limit] else rows;
      QueryRows(table, f, at);
      var next := if hasMore && items != [] then Some(Cursor.OfRow(items[|items| - 1].occurredAt, items[|items| - 1].id))
                  else None;
      Page(Keep(items, Visible), next)
  }

  /** `TransactionsService.list`. */
  function List(table: seq<Tx>, f: Filters, cursor: Option<string>, limit: nat): Page
    requires forall i :: 0 <= i < |table| ==> RowOk(table[i])
  {
    PageAt(table, f, Resume(cursor), limit)
  }

  // ----- filtering and sorting -----

  lemma {:induction false} KeepMembers(s: seq<Tx>, p: Tx -> bool)
    ensures forall x :: x in Keep(s, p) <==> x in s && p(x)
    ensures |Keep(s, p)| <= |s|
  {
    if s != [] {
      KeepMembers(s[..|s| - 1], p);
      assert s == s[..|s| - 1] + [s[|s| - 1]];
    }
  }

  lemma {:induction false} InsertMembers(s: seq<Tx>, x: Tx)
    ensures multiset(Insert(s, x)) == multiset(s) + multiset{x}
  {
    if s != [] {
      assert s == s[..|s| - 1] + [s[|s| - 1]];
      InsertMembers(s[..|s| - 1], x);
    }
  }

  lemma {:induction false} InOrderMembers(s: seq<Tx>)
    ensures multiset(InOrder(s)) == multiset(s)
  {
    if s != [] {
      assert s == s[..|s| - 1] + [s[|s| - 1]];
      InOrderMembers(s[..|s| - 1]);
      InsertMembers(InOrder(s[..|s| - 1]), s[|s| - 1]);
    }
  }

  lemma SameMembers(s: seq<Tx>, t: seq<Tx>, x: Tx)
    requires multiset(s) == multiset(t)
    ensures x in s <==> x in t
  {
    assert x in s <==> x in multiset(s);
    assert x in t <==> x in multiset(t);
  }

  lemma QueryRows(table: seq<Tx>, f: Filters, at: Option<Position>)
    requires forall i :: 0 <= i < |table| ==> RowOk(table[i])
    ensures forall x :: x in Query(table, f, at) ==> x in table
    ensures forall i :: 0 <= i < |Query(table, f, at)| ==> RowOk(Query(table, f, at)[i])
  {
    hide RowOk, Matches, Past;
    var rows := Keep(table, Where(f));
    KeepMembers(table, Where(f));
    var kept := if at.Some? then Keep(rows, Beyond(at.value)) else rows;
    if at.Some? {
      KeepMembers(rows, Beyond(at.value));
    }
    InOrderMembers(kept);
    forall x | x in InOrder(kept)
      ensures x in table
    {
      SameMembers(InOrder(kept), kept, x);
    }
    forall i | 0 <= i < |InOrder(kept)|
      ensures RowOk(InOrder(kept)[i])
    {
      assert InOrder(kept)[i] in table;
    }
  }

  ghost predicate Apart(s: seq<Tx>, x: Tx) {
    forall i :: 0 <= i < |s| ==> s[i].id != x.id
  }

  lemma {:induction false} InsertDescends(s: seq<Tx>, x: Tx)
    requires Descending(s) && Apart(s, x)
    ensures Descending(Insert(s, x))
  {
    hide Precedes;
    if s != [] {
      var n := |s| - 1;
      var y := s[n];
      PrecedesIsTotal(y, x);
      if Precedes(y, x) {
        forall i | 0 <= i < n
          ensures Precedes(s[i], x)
        {
          PrecedesIsTransitive(s[i], y, x);
        }
      } else {
        InsertDescends(s[..n], x);
        InsertMembers(s[..n], x);
        forall i | 0 <= i < |Insert(s[..n], x)|
          ensures Precedes(Insert(s[..n], x)[i], y)
        {
          var z := Insert(s[..n], x)[i];
          assert z in multiset(Insert(s[..n], x));
          assert z == x || z in s[..n];
        }
      }
    }
  }

  ghost predicate DistinctIds(s: seq<Tx>) {
    forall i, j :: 0 <= i < j < |s| ==> s[i].id != s[j].id
  }

  lemma {:induction false} InOrderDescends(s: seq<Tx>)
    requires DistinctIds(s)
    ensures Descending(InOrder(s))
  {
    hide Precedes;
    if s != [] {
      var n := |s| - 1;
      InOrderDescends(s[..n]);
      InOrderMembers(s[..n]);
      forall i | 0 <= i < |InOrder(s[..n])|
        ensures InOrder(s[..n])[i].id != s[n].id
      {
        SameMembers(InOrder(s[..n]), s[..n], InOrder(s[..n])[i]);
      }
      InsertDescends(InOrder(s[..n]), s[n]);
    }
  }

  lemma {:induction false} KeepDistinct(s: seq<Tx>, p: Tx -> bool)
    requires DistinctIds(s)
    ensures DistinctIds(Keep(s, p))
  {
    if s != [] {
      var n := |s| - 1;
      KeepDistinct(s[..n], p);
      KeepMembers(s[..n], p);
      forall i | 0 <= i < |Keep(s[..n], p)|
        ensures Keep(s[..n], p)[i].id != s[n].id
      {
        assert Keep(s[..n], p)[i] in s[..n];
      }
    }
  }

  /** The listing: exactly the rows on the asked accounts, with the asked status, category and text, inside the asked
      instants; newest first, the greater identifier first among equals. */
  lemma ListingIsSortedMatches(table: seq<Tx>, f: Filters)
    requires TableOk(table)
    ensures var all := Listing(table, f);
            && (forall x :: x in all <==> x in table && Asked(f, x))
            && (forall i, j :: 0 <= i < j < |all| ==> NewerFirst(all[i], all[j]))
  {
    hide RowOk, Matches, Listing, Descending, NewerFirst, Asked;
    ListingIsDescending(table, f);
    DescendingIsNewerFirst(Listing(table, f));
    forall x
      ensures Matches(f, x) <==> Asked(f, x)
    {
      MatchesAsked(f, x);
    }
  }

  lemma MatchesAsked(f: Filters, x: Tx)
    ensures Matches(f, x) <==> Asked(f, x)
  {
  }

  lemma ListingIsDescending(table: seq<Tx>, f: Filters)
    requires TableOk(table)
    ensures Descending(Listing(table, f))
    ensures multiset(Listing(table, f)) == multiset(Keep(table, Where(f)))
    ensures forall x :: x in Listing(table, f) <==> x in table && Matches(f, x)
  {
    hide RowOk, Matches;
    var rows := Keep(table, Where(f));
    KeepDistinct(table, Where(f));
    InOrderDescends(rows);
    InOrderMembers(rows);
    KeepMembers(table, Where(f));
    forall x: Tx
      ensures x in Listing(table, f) <==> x in rows
    {
      SameMembers(Listing(table, f), rows, x);
    }
  }

  // ----- a cursor cuts the listing -----

  lemma KeepAppend(s: seq<Tx>, x: Tx, p: Tx -> bool)
    ensures Keep(s + [x], p) == if p(x) then Keep(s, p) + [x] else Keep(s, p)
  {
    assert (s + [x])[..|s|] == s;
  }

  /** Keeping rows past a position commutes with inserting in order. */
  lemma {:induction false} KeepInsert(s: seq<Tx>, x: Tx, p: Tx -> bool)
    requires Descending(s)
    ensures Keep(Insert(s, x), p) == if p(x) then Insert(Keep(s, p), x) else Keep(s, p)
  {
    hide Precedes, Insert, Keep;
    InsertCases(s, x);
    if s == [] || Precedes(s[|s| - 1], x) {
      KeepAppend(s, x, p);
      KeptAllPrecede(s, x, p);
    } else {
      var n := |s| - 1;
      var y := s[n];
      assert s == s[..n] + [y];
      KeepInsert(s[..n], x, p);
      KeepAppend(s[..n], y, p);
      KeepAppend(Insert(s[..n], x), y, p);
      InsertBefore(Keep(s[..n], p), y, x);
    }
  }

  lemma InsertCases(s: seq<Tx>, x: Tx)
    ensures s == [] || Precedes(s[|s| - 1], x) ==> Insert(s, x) == s + [x]
    ensures s != [] && !Precedes(s[|s| - 1], x) ==> Insert(s, x) == Insert(s[..|s| - 1], x) + [s[|s| - 1]]
  {
    hide Precedes;
  }

  lemma InsertBefore(s: seq<Tx>, y: Tx, x: Tx)
    requires !Precedes(y, x)
    ensures Insert(s + [y], x) == Insert(s, x) + [y]
  {
    assert (s + [y])[..|s|] == s;
  }

  lemma KeptAllPrecede(s: seq<Tx>, x: Tx, p: Tx -> bool)
    requires Descending(s) && (s == [] || Precedes(s[|s| - 1], x))
    ensures Insert(Keep(s, p), x) == Keep(s, p) + [x]
  {
    hide Precedes, Insert, Keep;
    KeepMembers(s, p);
    var k := Keep(s, p);
    InsertCases(k, x);
    if k != [] {
      var z := k[|k| - 1];
      assert z in k;
      var i :| 0 <= i < |s| && s[i] == z;
      if i < |s| - 1 {
        PrecedesIsTransitive(z, s[|s| - 1], x);
      }
    }
  }

  lemma {:induction false} KeepInOrder(s: seq<Tx>, p: Tx -> bool)
    requires DistinctIds(s)
    ensures InOrder(Keep(s, p)) == Keep(InOrder(s), p)
  {
    if s != [] {
      var n := |s| - 1;
      KeepInOrder(s[..n], p);
      InOrderDescends(s[..n]);
      KeepInsert(InOrder(s[..n]), s[n], p);
      if p(s[n]) {
        var k := Keep(s[..n], p);
        assert (k + [s[n]])[..|k|] == k;
      }
    }
  }

  function PositionOf(r: Tx): Position {
    Position(r.occurredAt, r.id)
  }

  /** In a descending list, the rows past the k-th are those after it. */
  lemma {:induction false} PastIsSuffix(s: seq<Tx>, k: nat, n: nat)
    requires Descending(s) && k < n <= |s|
    ensures Keep(s[..n], Beyond(PositionOf(s[k]))) == s[k + 1..n]
  {
    hide Precedes;
    var p := Beyond(PositionOf(s[k]));
    if n == k + 1 {
      NonePast(s, k, k + 1);
    } else {
      PastIsSuffix(s, k, n - 1);
      assert s[..n][..n - 1] == s[..n - 1];
      PastIffPreceded(s[k], s[n - 1]);
      assert p(s[n - 1]);
      assert s[k + 1..n] == s[k + 1..n - 1] + [s[n - 1]];
    }
  }

  lemma {:induction false} NonePast(s: seq<Tx>, k: nat, n: nat)
    requires Descending(s) && n <= k + 1 <= |s|
    ensures Keep(s[..n], Beyond(PositionOf(s[k]))) == []
  {
    hide Precedes;
    if n > 0 {
      NonePast(s, k, n - 1);
      assert s[..n][..n - 1] == s[..n - 1];
      PastIffPreceded(s[k], s[n - 1]);
      PrecedesIsTotal(s[k], s[n - 1]);
    }
  }

  lemma PastIffPreceded(r: Tx, x: Tx)
    ensures Past(PositionOf(r), x) <==> Precedes(r, x)
  {
  }

  lemma PastIsTransitive(p: Position, r: Tx, x: Tx)
    requires Past(p, r) && Past(PositionOf(r), x)
    ensures Past(p, x)
  {
    if p.occurredAt == r.occurredAt == x.occurredAt {
      LessIsTransitive(x.id, r.id, p.id);
    }
  }

  /** Keeping by a narrower test after a wider one. */
  lemma {:induction false} KeepNarrower(s: seq<Tx>, wide: Tx -> bool, narrow: Tx -> bool)
    requires forall x :: narrow(x) ==> wide(x)
    ensures Keep(Keep(s, wide), narrow) == Keep(s, narrow)
  {
    if s != [] {
      var n := |s| - 1;
      KeepNarrower(s[..n], wide, narrow);
      KeepAppend(Keep(s[..n], wide), s[n], narrow);
    }
  }

  lemma QueryFromListing(table: seq<Tx>, f: Filters, p: Position)
    requires TableOk(table)
    ensures Query(table, f, Some(p)) == Keep(Listing(table, f), Beyond(p))
    ensures Descending(Query(table, f, Some(p)))
  {
    hide RowOk, Matches, Precedes, Past;
    var rows := Keep(table, Where(f));
    KeepDistinct(table, Where(f));
    KeepInOrder(rows, Beyond(p));
    KeepDistinct(rows, Beyond(p));
    InOrderDescends(Keep(rows, Beyond(p)));
  }

  /** The rows past a row of a query's answer are the answer's rows after it. */
  lemma CursorCuts(table: seq<Tx>, f: Filters, at: Option<Position>, k: nat)
    requires TableOk(table) && k < |Query(table, f, at)|
    ensures Query(table, f, Some(PositionOf(Query(table, f, at)[k]))) == Query(table, f, at)[k + 1..]
  {
    hide RowOk, Matches, Precedes, Past;
    var all, q := Listing(table, f), Query(table, f, at);
    var p := PositionOf(q[k]);
    QueryFromListing(table, f, p);
    if at.None? {
      ListingIsDescending(table, f);
    } else {
      QueryFromListing(table, f, at.value);
      KeepMembers(all, Beyond(at.value));
      assert q[k] in q;
      forall x | Beyond(p)(x)
        ensures Beyond(at.value)(x)
      {
        PastIsTransitive(at.value, q[k], x);
      }
      KeepNarrower(all, Beyond(at.value), Beyond(p));
    }
    PastIsSuffix(q, k, |q|);
    assert q[..|q|] == q;
  }

  // ----- following the cursors -----

  lemma ResumeAtRow(r: Tx)
    requires RowOk(r)
    ensures Resume(Some(Cursor.OfRow(r.occurredAt, r.id))) == Some(PositionOf(r))
  {
    hide Cursor.OfRow, Cursor.Decode, FromIso, ToIso;
    Cursor.RowRoundTrip(r.occurredAt, r.id);
  }

  lemma {:induction false} KeepNothing(s: seq<Tx>, f: Filters)
    requires f.accounts == {}
    ensures Keep(s, Where(f)) == []
  {
    if s != [] {
      KeepNothing(s[..|s| - 1], f);
    }
  }

  /** One page: the visible rows among the first `limit` of the query, and a cursor exactly when rows remain, at
      which the next query is what remains. */
  lemma PageIsPrefix(table: seq<Tx>, f: Filters, at: Option<Position>, limit: nat)
    requires TableOk(table) && limit >= 1
    ensures var q := Query(table, f, at);
            var page := PageAt(table, f, at, limit);
            && page.items == Keep(Take(q, limit), Visible)
            && (page.next.Some? <==> |q| > limit)
            && (page.next.Some? ==> Query(table, f, Resume(page.next)) == q[limit..])
  {
    hide RowOk, Query, Resume, Keep, Cursor.OfRow;
    var q := Query(table, f, at);
    if f.accounts == {} {
      QueryNothing(table, f, at);
    } else {
      QueryRows(table, f, at);
      if |q| > limit {
        assert Take(q, limit + 1)[..limit] == q[..limit];
        ResumeAtRow(q[limit - 1]);
        CursorCuts(table, f, at, limit - 1);
      }
    }
  }

  lemma QueryNothing(table: seq<Tx>, f: Filters, at: Option<Position>)
    requires f.accounts == {}
    ensures Query(table, f, at) == [] && Keep([], Visible) == []
  {
    KeepNothing(table, f);
  }

  /** The items of every page, following `nextCursor` until it is null; it always ends. */
  ghost function Follow(table: seq<Tx>, f: Filters, cursor: Option<string>, limit: nat): seq<Tx>
    requires TableOk(table) && limit >= 1
    decreases |Query(table, f, Resume(cursor))|
  {
    PageIsPrefix(table, f, Resume(cursor), limit);
    var page := List(table, f, cursor, limit);
    page.items + if page.next.None? then [] else Follow(table, f, page.next, limit)
  }

  lemma {:induction false} KeepConcat(s: seq<Tx>, t: seq<Tx>, p: Tx -> bool)
    ensures Keep(s + t, p) == Keep(s, p) + Keep(t, p)
  {
    if t == [] {
      assert s + t == s;
    } else {
      var n := |t| - 1;
      assert s + t == (s + t[..n]) + [t[n]];
      KeepAppend(s + t[..n], t[n], p);
      KeepConcat(s, t[..n], p);
    }
  }

  /** Whatever cursor a client sends, the pages from it on are what its query leaves, minus the hidden rows. */
  lemma {:induction false} PagesFromCursor(table: seq<Tx>, f: Filters, cursor: Option<string>, limit: nat)
    requires TableOk(table) && limit >= 1
    ensures Follow(table, f, cursor, limit) == Keep(Query(table, f, Resume(cursor)), Visible)
    decreases |Query(table, f, Resume(cursor))|
  {
    hide PageAt, Query, Resume, RowOk;
    PageIsPrefix(table, f, Resume(cursor), limit);
    var q, page := Query(table, f, Resume(cursor)), List(table, f, cursor, limit);
    if page.next.Some? {
      PagesFromCursor(table, f, page.next, limit);
      KeepConcat(q[..limit], q[limit..], Visible);
      assert q == q[..limit] + q[limit..];
    }
  }

  /** From any position, however a client's cursor text was read into it, the first page and those its cursors lead to
      spell out what the query leaves after it, minus the hidden rows. */
  lemma PagesFromAnywhere(table: seq<Tx>, f: Filters, at: Option<Position>, limit: nat)
    requires TableOk(table) && limit >= 1
    ensures var page := PageAt(table, f, at, limit);
            page.items + (if page.next.None? then [] else Follow(table, f, page.next, limit)) ==
            Keep(Query(table, f, at), Visible)
  {
    hide PageAt, Query, Resume, RowOk, Follow;
    PageIsPrefix(table, f, at, limit);
    var q, page := Query(table, f, at), PageAt(table, f, at, limit);
    if page.next.Some? {
      PagesFromCursor(table, f, page.next, limit);
      KeepConcat(q[..limit], q[limit..], Visible);
      assert q == q[..limit] + q[limit..];
    }
  }

  /** Whatever the page size, the pages together show every asked row that is not hidden, and nothing else, newest first
      and each once: no gap and no repetition. */
  lemma PagesAreTheListing(table: seq<Tx>, f: Filters, limit: nat)
    requires TableOk(table) && limit >= 1
    ensures var shown := Follow(table, f, None, limit);
            && (forall x :: x in shown <==> x in table && Asked(f, x) && !x.hidden)
            && (forall i, j :: 0 <= i < j < |shown| ==> NewerFirst(shown[i], shown[j]) && shown[i] != shown[j])
    ensures Follow(table, f, None, limit) == Keep(Listing(table, f), Visible)
  {
    hide Follow, Keep, RowOk, Asked, Matches, Listing, Descending, NewerFirst;
    PagesInOrder(table, f, limit);
    ListingIsSortedMatches(table, f);
    KeepMembers(Listing(table, f), Visible);
    DescendingIsNewerFirst(Follow(table, f, None, limit));
  }

  lemma PagesInOrder(table: seq<Tx>, f: Filters, limit: nat)
    requires TableOk(table) && limit >= 1
    ensures Follow(table, f, None, limit) == Keep(Listing(table, f), Visible)
    ensures Descending(Follow(table, f, None, limit)) && Distinct(Follow(table, f, None, limit))
  {
    hide Follow, PageAt, RowOk, Matches, Precedes;
    PagesFromCursor(table, f, None, limit);
    var all := Listing(table, f);
    KeepDistinct(table, Where(f));
    var rows := Keep(table, Where(f));
    KeepInOrder(rows, Visible);
    KeepDistinct(rows, Visible);
    InOrderDescends(Keep(rows, Visible));
    forall i, j | 0 <= i < j < |Keep(all, Visible)|
      ensures Keep(all, Visible)[i] != Keep(all, Visible)[j]
    {
      PrecedesIsTotal(Keep(all, Visible)[i], Keep(all, Visible)[i]);
    }
  }
}
