/** Autosave splits: percentages brought to one hundred, cents shared out by them. */
module Splits {
  import opened Sums

  datatype Split = Split(goal: string, percent: int)

  datatype Share = Share(goal: string, cents: int)

  function PercentOf(): Split -> int {
    (s: Split) => s.percent
  }

  function CentsOf(): Share -> int {
    (s: Share) => s.cents
  }

  function Positive(s: seq<Split>): seq<Split> {
    if s == [] then []
    else
      var n := |s| - 1;
      Positive(s[..n]) + if s[n].percent > 0 then [s[n]] else []
  }

  function Scale(s: seq<Split>, total: int): (r: seq<Split>)
    requires total > 0
    ensures |r| == |s|
  {
    seq(|s|, i requires 0 <= i < |s| => Split(s[i].goal, s[i].percent * 100 / total))
  }

  /** Stable: after every split that is not smaller. */
  function InsertDesc(s: seq<Split>, x: Split): seq<Split> {
    if s == [] then [x]
    else if s[|s| - 1].percent >= x.percent then s + [x]
    else InsertDesc(s[..|s| - 1], x) + [s[|s| - 1]]
  }

  function SortDesc(s: seq<Split>): seq<Split> {
    if s == [] then [] else InsertDesc(SortDesc(s[..|s| - 1]), s[|s| - 1])
  }

  lemma {:induction false} InsertDescMembers(s: seq<Split>, x: Split)
    ensures multiset(InsertDesc(s, x)) == multiset(s) + multiset{x}
    ensures |InsertDesc(s, x)| == |s| + 1
  {
    if s != [] {
      assert s == s[..|s| - 1] + [s[|s| - 1]];
      InsertDescMembers(s[..|s| - 1], x);
    }
  }

  lemma {:induction false} SortDescMembers(s: seq<Split>)
    ensures multiset(SortDesc(s)) == multiset(s) && |SortDesc(s)| == |s|
  {
    if s != [] {
      assert s == s[..|s| - 1] + [s[|s| - 1]];
      SortDescMembers(s[..|s| - 1]);
      InsertDescMembers(SortDesc(s[..|s| - 1]), s[|s| - 1]);
    }
  }

  /** Adds to the percentage of the first split. */
  function Top(s: seq<Split>, drift: int): (r: seq<Split>)
    requires s != []
    ensures |r| == |s|
  {
    s[0 := s[0].(percent := s[0].percent + drift)]
  }

  function Normalize(splits: seq<Split>): seq<Split> {
    var kept := Positive(splits);
    var total := SumBy(kept, PercentOf());
    if kept == [] then []
    else if total == 100 then kept
    else
      PositiveTotals(splits);
      var scaled := Scale(kept, total);
      var drift := 100 - SumBy(scaled, PercentOf());
      SortDescMembers(scaled);
      if drift == 0 then scaled else Top(SortDesc(scaled), drift)
  }

  method NormalizeSplits(splits: seq<Split>) returns (r: seq<Split>)
    ensures r == Normalize(splits)
    ensures r == [] <==> forall i :: 0 <= i < |splits| ==> splits[i].percent <= 0
    ensures r != [] ==> Percentages(r)
    ensures Goals(r) == Goals(Positive(splits))
  {
    NormalizedToOneHundred(splits);
    hide Goals, Percentages;
    hide Scale, SortDesc, SumBy, Positive;
    var filtered := Positive(splits);
    if filtered == [] {
      return [];
    }
    var total := SumBy(filtered, PercentOf());
    if total == 100 {
      return filtered;
    }
    PositiveTotals(splits);
    var scaled := Scale(filtered, total);
    var drift := 100 - SumBy(scaled, PercentOf());
    if drift != 0 {
      SortDescMembers(scaled);
      scaled := SortDesc(scaled);
      scaled := scaled[0 := scaled[0].(percent := scaled[0].percent + drift)];
    }
    return scaled;
  }

  // ----- what normalisation keeps -----

  lemma {:induction false} PositiveTotals(s: seq<Split>)
    ensures forall i :: 0 <= i < |Positive(s)| ==> Positive(s)[i].percent > 0
    ensures SumBy(Positive(s), PercentOf()) >= |Positive(s)|
  {
    if s != [] {
      var n := |s| - 1;
      PositiveTotals(s[..n]);
      if s[n].percent > 0 {
        SumAppend(Positive(s[..n]), s[n], PercentOf());
      } else {
        assert Positive(s) == Positive(s[..n]);
      }
    }
  }

  /** The goals of a list of splits, with multiplicity. */
  ghost function Goals(s: seq<Split>): multiset<string> {
    if s == [] then multiset{} else Goals(s[..|s| - 1]) + multiset{s[|s| - 1].goal}
  }

  lemma GoalsAppend(s: seq<Split>, x: Split)
    ensures Goals(s + [x]) == Goals(s) + multiset{x.goal}
  {
    assert (s + [x])[..|s|] == s;
  }

  lemma InsertDescCases(s: seq<Split>, x: Split)
    ensures s == [] || s[|s| - 1].percent >= x.percent ==> InsertDesc(s, x) == s + [x]
    ensures s != [] && s[|s| - 1].percent < x.percent ==>
              InsertDesc(s, x) == InsertDesc(s[..|s| - 1], x) + [s[|s| - 1]]
  {
  }

  lemma {:induction false} InsertDescGoals(s: seq<Split>, x: Split)
    ensures Goals(InsertDesc(s, x)) == Goals(s) + multiset{x.goal}
    ensures SumBy(InsertDesc(s, x), PercentOf()) == SumBy(s, PercentOf()) + x.percent
  {
    hide InsertDesc, Goals, SumBy;
    InsertDescCases(s, x);
    GoalsAppend(s, x);
    SumAppend(s, x, PercentOf());
    if s != [] && s[|s| - 1].percent < x.percent {
      var n := |s| - 1;
      assert s == s[..n] + [s[n]];
      InsertDescGoals(s[..n], x);
      GoalsAppend(s[..n], s[n]);
      GoalsAppend(InsertDesc(s[..n], x), s[n]);
      SumAppend(s[..n], s[n], PercentOf());
      SumAppend(InsertDesc(s[..n], x), s[n], PercentOf());
    }
  }

  lemma {:induction false} SortDescGoals(s: seq<Split>)
    ensures Goals(SortDesc(s)) == Goals(s)
    ensures SumBy(SortDesc(s), PercentOf()) == SumBy(s, PercentOf())
  {
    if s != [] {
      SortDescGoals(s[..|s| - 1]);
      InsertDescGoals(SortDesc(s[..|s| - 1]), s[|s| - 1]);
    }
  }

  lemma {:induction false} SameGoals(s: seq<Split>, t: seq<Split>)
    requires |s| == |t| && forall i :: 0 <= i < |s| ==> s[i].goal == t[i].goal
    ensures Goals(s) == Goals(t)
  {
    if s != [] {
      SameGoals(s[..|s| - 1], t[..|t| - 1]);
    }
  }

  /** The first split of the sorted list has the largest share. */
  lemma {:induction false} SortDescDescends(s: seq<Split>)
    ensures forall i, j :: 0 <= i < j < |SortDesc(s)| ==> SortDesc(s)[i].percent >= SortDesc(s)[j].percent
  {
    if s != [] {
      SortDescDescends(s[..|s| - 1]);
      InsertDescDescends(SortDesc(s[..|s| - 1]), s[|s| - 1]);
    }
  }

  lemma {:induction false} InsertDescDescends(s: seq<Split>, x: Split)
    requires forall i, j :: 0 <= i < j < |s| ==> s[i].percent >= s[j].percent
    ensures forall i, j :: 0 <= i < j < |InsertDesc(s, x)| ==> InsertDesc(s, x)[i].percent >= InsertDesc(s, x)[j].percent
  {
    hide InsertDesc;
    InsertDescCases(s, x);
    if s != [] && s[|s| - 1].percent < x.percent {
      var n := |s| - 1;
      InsertDescDescends(s[..n], x);
      InsertDescMembers(s[..n], x);
      forall i | 0 <= i < |InsertDesc(s[..n], x)|
        ensures InsertDesc(s[..n], x)[i].percent >= s[n].percent
      {
        var z := InsertDesc(s[..n], x)[i];
        assert z in multiset(InsertDesc(s[..n], x));
        assert z == x || z in s[..n];
      }
    }
  }

  // ----- the floor shares -----

  lemma FloorShare(p: int, total: int)
    requires total > 0
    ensures total * (p * 100 / total) <= p * 100 < total * (p * 100 / total) + total
    ensures p >= 0 ==> p * 100 / total >= 0
  {
    if p >= 0 {
      QuotientSign(p * 100, total);
    }
  }

  lemma QuotientSign(n: int, k: int)
    requires n >= 0 && k > 0
    ensures n / k >= 0
  {
  }

  lemma Distribute(k: int, a: int, b: int)
    ensures k * (a + b) == k * a + k * b
  {
  }

  lemma {:induction false} FloorSums(s: seq<Split>, total: int)
    requires total > 0
    ensures total * SumBy(Scale(s, total), PercentOf()) <= 100 * SumBy(s, PercentOf())
    ensures 100 * SumBy(s, PercentOf()) <= total * SumBy(Scale(s, total), PercentOf()) + total * |s|
    ensures s != [] ==> 100 * SumBy(s, PercentOf()) < total * SumBy(Scale(s, total), PercentOf()) + total * |s|
  {
    if s != [] {
      var n := |s| - 1;
      var rest := Scale(s[..n], total);
      FloorSums(s[..n], total);
      assert Scale(s, total)[..n] == rest;
      FloorShare(s[n].percent, total);
      Distribute(total, SumBy(rest, PercentOf()), s[n].percent * 100 / total);
      Distribute(total, n, 1);
    }
  }

  lemma PositiveProduct(k: int, x: int)
    requires k > 0 && x >= 1
    ensures k * x >= k
  {
  }

  lemma CancelFactor(total: int, a: int, n: int)
    requires total > 0 && total * a <= 100 * total && 100 * total < total * a + total * n
    ensures a <= 100 < a + n
  {
    if a > 100 {
      Distribute(total, 100, a - 100);
      PositiveProduct(total, a - 100);
    } else if a + n <= 100 {
      Distribute(total, a, n);
      Distribute(total, a + n, 101 - a - n);
      PositiveProduct(total, 101 - a - n);
    }
  }

  /** What scaling loses: less than a point a split. */
  lemma DriftIsSmall(s: seq<Split>, total: int)
    requires s != [] && total == SumBy(s, PercentOf()) && total > 0
    ensures 0 <= 100 - SumBy(Scale(s, total), PercentOf()) < |s|
  {
    FloorSums(s, total);
    CancelFactor(total, SumBy(Scale(s, total), PercentOf()), |s|);
  }

  ghost predicate Percentages(s: seq<Split>) {
    SumBy(s, PercentOf()) == 100 && forall i :: 0 <= i < |s| ==> 0 <= s[i].percent
  }

  lemma ScaledIsNonNegative(s: seq<Split>, total: int)
    requires total > 0 && forall i :: 0 <= i < |s| ==> s[i].percent > 0
    ensures forall i :: 0 <= i < |s| ==> 0 <= Scale(s, total)[i].percent
  {
    forall i | 0 <= i < |s|
      ensures 0 <= Scale(s, total)[i].percent
    {
      FloorShare(s[i].percent, total);
    }
  }

  lemma ScaledGoals(s: seq<Split>, total: int)
    requires total > 0
    ensures Goals(Scale(s, total)) == Goals(s)
  {
    hide Goals;
    SameGoals(Scale(s, total), s);
  }

  lemma WholePercentages(s: seq<Split>)
    requires SumBy(s, PercentOf()) == 100 && forall i :: 0 <= i < |s| ==> 0 <= s[i].percent
    ensures Percentages(s)
  {
  }

  lemma ToppedUp(s: seq<Split>, drift: int)
    requires s != [] && drift >= 0 && SumBy(s, PercentOf()) + drift == 100
    requires forall i :: 0 <= i < |s| ==> 0 <= s[i].percent
    ensures Percentages(Top(SortDesc(s), drift)) && Goals(Top(SortDesc(s), drift)) == Goals(s)
  {
    hide SortDesc, SumBy, Goals;
    var t := SortDesc(s);
    SortDescMembers(s);
    SortDescGoals(s);
    forall i | 0 <= i < |t|
      ensures 0 <= t[i].percent
    {
      assert t[i] in multiset(t);
      assert t[i] in s;
    }
    SumUpdate(t, 0, t[0].(percent := t[0].percent + drift), PercentOf());
    SameGoals(Top(t, drift), t);
  }

  /** Normalised splits are non-negative percentages of exactly one hundred, over exactly the goals that had a
      positive entry; there are none only when no entry was positive. */
  lemma NormalizedToOneHundred(splits: seq<Split>)
    ensures Normalize(splits) == [] <==> forall i :: 0 <= i < |splits| ==> splits[i].percent <= 0
    ensures Goals(Normalize(splits)) == Goals(Positive(splits))
    ensures Normalize(splits) != [] ==> Percentages(Normalize(splits))
  {
    hide Scale, SortDesc, SumBy, Goals, Positive, Top, Percentages;
    var kept := Positive(splits);
    PositiveTotals(splits);
    PositiveEmpty(splits);
    var total := SumBy(kept, PercentOf());
    if kept != [] && total == 100 {
      WholePercentages(kept);
    } else if kept != [] {
      var scaled := Scale(kept, total);
      DriftIsSmall(kept, total);
      ScaledIsNonNegative(kept, total);
      ScaledGoals(kept, total);
      SortDescMembers(scaled);
      ToppedUp(scaled, 100 - SumBy(scaled, PercentOf()));
      if SumBy(scaled, PercentOf()) == 100 {
        WholePercentages(scaled);
      }
    }
  }

  lemma {:induction false} PositiveEmpty(s: seq<Split>)
    ensures Positive(s) == [] <==> forall i :: 0 <= i < |s| ==> s[i].percent <= 0
  {
    hide Positive;
    if s == [] {
      NothingPositive();
    } else {
      var n := |s| - 1;
      PositiveEmpty(s[..n]);
      PositiveStep(s);
      assert (forall i :: 0 <= i < |s| ==> s[i].percent <= 0) <==>
             (forall i :: 0 <= i < n ==> s[..n][i].percent <= 0) && s[n].percent <= 0;
    }
  }

  lemma PositiveNext(s: seq<Split>)
    requires s != []
    ensures Positive(s) == Positive(s[..|s| - 1]) + if s[|s| - 1].percent > 0 then [s[|s| - 1]] else []
  {
  }

  lemma NothingPositive()
    ensures Positive([]) == []
  {
  }

  lemma PositiveStep(s: seq<Split>)
    requires s != []
    ensures Positive(s) == [] <==> Positive(s[..|s| - 1]) == [] && s[|s| - 1].percent <= 0
  {
  }

  lemma TopIsLargest(scaled: seq<Split>, drift: int)
    requires scaled != []
    ensures SortDesc(scaled) != []
    ensures var r := Top(SortDesc(scaled), drift);
            && |r| == |scaled|
            && multiset(Top(r, -drift)) == multiset(scaled)
            && forall i :: 1 <= i < |r| ==> r[i].percent <= r[0].percent - drift
  {
    hide SortDesc;
    SortDescMembers(scaled);
    SortDescDescends(scaled);
    var t := SortDesc(scaled);
    assert Top(Top(t, drift), -drift) == t;
  }

  lemma {:induction false} PositiveIsFilter(s: seq<Split>, x: Split)
    ensures multiset(Positive(s))[x] == if x.percent > 0 then multiset(s)[x] else 0
  {
    hide Positive;
    if s == [] {
      NothingPositive();
    } else {
      var n := |s| - 1;
      PositiveIsFilter(s[..n], x);
      PositiveNext(s);
      assert s == s[..n] + [s[n]];
    }
  }

  /** `part` over `whole`, in whole points of a hundred rounded down. */
  ghost predicate Points(points: int, part: int, whole: int) {
    whole * points <= part * 100 < whole * points + whole
  }

  /** The splits normalisation works on are exactly the positive entries, and scaling gives each its points of the total. */
  lemma ScaledPositives(splits: seq<Split>)
    requires Positive(splits) != []
    ensures SumBy(Positive(splits), PercentOf()) > 0
    ensures var kept := Positive(splits);
            var total := SumBy(kept, PercentOf());
            && (forall x :: multiset(kept)[x] == if x.percent > 0 then multiset(splits)[x] else 0)
            && (forall i :: 0 <= i < |kept| ==>
                  var scaled := Scale(kept, total)[i];
                  scaled.goal == kept[i].goal && Points(scaled.percent, kept[i].percent, total))
  {
    hide SumBy, Positive;
    PositiveTotals(splits);
    var kept := Positive(splits);
    var total := SumBy(kept, PercentOf());
    forall x: Split
      ensures multiset(kept)[x] == if x.percent > 0 then multiset(splits)[x] else 0
    {
      PositiveIsFilter(splits, x);
    }
    forall i | 0 <= i < |kept|
      ensures Points(Scale(kept, total)[i].percent, kept[i].percent, total)
    {
      FloorShare(kept[i].percent, total);
    }
  }

  /** When the entries do not already total one hundred, every goal gets the floor of its proportional share, and the
      points lost to rounding, fewer than there are goals, all go to one goal with the largest share. */
  lemma NormalizedShares(splits: seq<Split>)
    requires Positive(splits) != [] && SumBy(Positive(splits), PercentOf()) != 100
    ensures SumBy(Positive(splits), PercentOf()) > 0
    ensures var kept, r := Positive(splits), Normalize(splits);
            var scaled := Scale(kept, SumBy(kept, PercentOf()));
            var drift := 100 - SumBy(scaled, PercentOf());
            && |r| == |kept| && 0 <= drift < |kept|
            && (drift == 0 ==> r == scaled)
            && (drift > 0 ==> multiset(Top(r, -drift)) == multiset(scaled))
            && (drift > 0 ==> forall i :: 1 <= i < |r| ==> r[i].percent <= r[0].percent - drift)
  {
    hide Scale, SortDesc, SumBy, Positive, Top;
    PositiveTotals(splits);
    var kept := Positive(splits);
    var total := SumBy(kept, PercentOf());
    var scaled := Scale(kept, total);
    DriftIsSmall(kept, total);
    TopIsLargest(scaled, 100 - SumBy(scaled, PercentOf()));
  }

  // ----- sharing out cents -----

  /** BigInt division truncates toward zero. */
  function Truncate(n: int, k: int): int
    requires k > 0
  {
    if n >= 0 then n / k else -(-n / k)
  }

  function FloorShares(amount: int, splits: seq<Split>): (r: seq<Share>)
    ensures |r| == |splits|
  {
    seq(|splits|, i requires 0 <= i < |splits| => Share(splits[i].goal, Truncate(amount * splits[i].percent, 100)))
  }

  /** The first index with the largest percentage. */
  ghost predicate FirstLargest(splits: seq<Split>, k: nat) {
    && k < |splits|
    && (forall i :: 0 <= i < |splits| ==> splits[i].percent <= splits[k].percent)
    && (forall i :: 0 <= i < k ==> splits[i].percent < splits[k].percent)
  }

  /** The floor shares with what is left over on the k-th. */
  function Allocation(amount: int, splits: seq<Split>, k: nat): (r: seq<Share>)
    requires k < |splits|
    ensures |r| == |splits|
  {
    var shares := FloorShares(amount, splits);
    shares[k := shares[k].(cents := shares[k].cents + (amount - SumBy(shares, CentsOf())))]
  }

  function LargestIndex(splits: seq<Split>): (k: nat)
    requires splits != []
    ensures FirstLargest(splits, k)
  {
    var n := |splits| - 1;
    if n == 0 then 0
    else
      var k := LargestIndex(splits[..n]);
      assert forall i :: 0 <= i < n ==> splits[..n][i] == splits[i];
      if splits[n].percent > splits[k].percent then n else k
  }

  function Allocate(amount: int, splits: seq<Split>): (r: seq<Share>)
    ensures |r| == |splits|
  {
    if splits == [] then [] else Allocation(amount, splits, LargestIndex(splits))
  }

  lemma LargestNext(splits: seq<Split>, i: nat)
    requires 1 <= i < |splits|
    ensures var k := LargestIndex(splits[..i]);
            LargestIndex(splits[..i + 1]) == if splits[i].percent > splits[k].percent then i else k
  {
    assert splits[..i + 1][..i] == splits[..i];
  }

  lemma AllocationOf(amount: int, splits: seq<Split>)
    requires splits != []
    ensures var shares, k := FloorShares(amount, splits), LargestIndex(splits);
            Allocation(amount, splits, k) ==
            shares[k := shares[k].(cents := shares[k].cents + (amount - SumBy(shares, CentsOf())))]
  {
  }

  method AllocateCents(amount: int, splits: seq<Split>) returns (r: seq<Share>)
    ensures r == Allocate(amount, splits)
  {
    hide SumBy, FloorShares, Allocation, LargestIndex;
    if splits == [] {
      return [];
    }
    AllocationOf(amount, splits);
    assert splits[..1] == [splits[0]];
    var allocations := FloorShares(amount, splits);
    var leftover := amount - SumBy(allocations, CentsOf());
    var largest := 0;
    for i := 1 to |splits|
      invariant largest == LargestIndex(splits[..i])
    {
      LargestNext(splits, i);
      if splits[i].percent > splits[largest].percent {
        largest := i;
      }
    }
    assert splits[..|splits|] == splits;
    if leftover != 0 {
      allocations := allocations[largest := allocations[largest].(cents := allocations[largest].cents + leftover)];
    }
    return allocations;
  }

  /** Every cent is shared out, none is made up: for any amount and any splits at all. */
  lemma AllocationIsExact(amount: int, splits: seq<Split>, k: nat)
    requires k < |splits|
    ensures SumBy(Allocation(amount, splits, k), CentsOf()) == amount
    ensures forall i :: 0 <= i < |splits| ==> Allocation(amount, splits, k)[i].goal == splits[i].goal
  {
    var shares := FloorShares(amount, splits);
    SumUpdate(shares, k, shares[k].(cents := shares[k].cents + (amount - SumBy(shares, CentsOf()))), CentsOf());
  }

  lemma PercentShare(amount: int, p: int)
    requires amount >= 0 && p >= 0
    ensures amount * p >= 0
    ensures 0 <= 100 * Truncate(amount * p, 100) <= amount * p <= 100 * Truncate(amount * p, 100) + 99
  {
    assert amount * p >= 0 by {
      ProductSign(amount, p);
    }
  }

  lemma ProductSign(a: int, b: int)
    requires a >= 0 && b >= 0
    ensures a * b >= 0
  {
  }

  lemma {:induction false} SharesFallShort(amount: int, splits: seq<Split>)
    requires amount >= 0 && forall i :: 0 <= i < |splits| ==> splits[i].percent >= 0
    ensures 100 * SumBy(FloorShares(amount, splits), CentsOf()) <= amount * SumBy(splits, PercentOf())
    ensures amount * SumBy(splits, PercentOf()) <= 100 * SumBy(FloorShares(amount, splits), CentsOf()) + 99 * |splits|
  {
    if splits != [] {
      var n := |splits| - 1;
      SharesFallShort(amount, splits[..n]);
      assert FloorShares(amount, splits)[..n] == FloorShares(amount, splits[..n]);
      PercentShare(amount, splits[n].percent);
      Distribute(amount, SumBy(splits[..n], PercentOf()), splits[n].percent);
    }
  }

  lemma LargestIsFirst(splits: seq<Split>, i: nat)
    requires i < |splits|
    ensures i == LargestIndex(splits) <==> FirstLargest(splits, i)
  {
  }

  /** Sharing by percentages of one hundred: everyone gets the floor of its share, and the first of the largest splits gets
      the rest too, fewer cents than there are splits. */
  lemma AllocationIsFair(amount: int, splits: seq<Split>)
    requires amount >= 0 && Percentages(splits) && splits != []
    ensures exists leftover :: 0 <= leftover < |splits| && Fair(amount, splits, Allocate(amount, splits), leftover)
  {
    hide LargestIndex;
    var k := LargestIndex(splits);
    FloorsAndRest(amount, splits, k);
    forall i | 0 <= i < |splits|
      ensures i == k <==> FirstLargest(splits, i)
    {
      LargestIsFirst(splits, i);
    }
    assert Fair(amount, splits, Allocate(amount, splits), amount - SumBy(FloorShares(amount, splits), CentsOf()));
  }

  /** Every share is its floor, and the first largest has the leftover besides. */
  ghost predicate Fair(amount: int, splits: seq<Split>, shares: seq<Share>, leftover: int) {
    && |shares| == |splits|
    && forall i :: 0 <= i < |shares| ==>
         && shares[i].goal == splits[i].goal && shares[i].cents >= 0
         && shares[i].cents == amount * splits[i].percent / 100 + if FirstLargest(splits, i) then leftover else 0
  }

  lemma FloorsAndRest(amount: int, splits: seq<Split>, k: nat)
    requires amount >= 0 && Percentages(splits) && k < |splits|
    ensures var leftover := amount - SumBy(FloorShares(amount, splits), CentsOf());
            && 0 <= leftover <= |splits| - 1
            && forall i :: 0 <= i < |splits| ==>
                 && Allocation(amount, splits, k)[i].cents == amount * splits[i].percent / 100 + (if i == k then leftover else 0)
                 && Allocation(amount, splits, k)[i].goal == splits[i].goal
                 && Allocation(amount, splits, k)[i].cents >= 0
  {
    SharesFallShort(amount, splits);
    forall i | 0 <= i < |splits|
      ensures 0 <= amount * splits[i].percent
    {
      ProductSign(amount, splits[i].percent);
    }
  }

  /** Normalising and then allocating shares out exactly the amount over exactly the positive goals. */
  lemma NormalizedAllocation(amount: nat, splits: seq<Split>)
    requires Normalize(splits) != []
    ensures var normal := Normalize(splits);
            var shares := Allocate(amount, normal);
            && SumBy(shares, CentsOf()) == amount
            && Goals(normal) == Goals(Positive(splits))
            && exists leftover :: 0 <= leftover < |normal| && Fair(amount, normal, shares, leftover)
  {
    NormalizedToOneHundred(splits);
    AllocationIsExact(amount, Normalize(splits), LargestIndex(Normalize(splits)));
    AllocationIsFair(amount, Normalize(splits));
  }
}
