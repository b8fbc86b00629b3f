/** Byte ranges of a request: validation and coalescing (sections 14.1.2 and 14.2 of RFC 9110). */
module Ranges {
  import opened Basics

  const RANGE_MAX_COUNT: nat := 1024

  /** -1 stands for an absent position. */
  datatype Range = Range(first: int, last: int)

  /** The range with its absent or excessive positions filled in. */
  function Normalised(r: Range, len: int): Range {
    var a := if r.first == -1 && r.last == -1 then Range(0, len) else r;
    var b := if a.first == -1 then Range(len - a.last, len - 1) else a;
    if b.last == -1 || b.last >= len then b.(last := len - 1) else b
  }

  predicate InBounds(r: Range, len: int) { 0 <= r.first <= r.last <= len - 1 }

  /** A range inside the content is its own normal form. */
  lemma NormalisedInBounds(r: Range, len: int)
    requires InBounds(r, len)
    ensures Normalised(r, len) == r
  {
  }

  function AllNormalised(rs: seq<Range>, len: int): (ns: seq<Range>)
    ensures |ns| == |rs| && forall i :: 0 <= i < |rs| ==> ns[i] == Normalised(rs[i], len)
  {
    seq(|rs|, i requires 0 <= i < |rs| => Normalised(rs[i], len))
  }

  predicate Overlap(a: Range, b: Range) { !(a.last < b.first || a.first > b.last) }

  ghost predicate OverlapsEarlier(ns: seq<Range>, i: nat)
    requires i < |ns|
  {
    exists j :: 0 <= j < i && Overlap(ns[i], ns[j])
  }

  /** How many of the first `n` ranges overlap an earlier one. */
  ghost function Overlaps(ns: seq<Range>, n: nat): (k: nat)
    requires n <= |ns|
  {
    if n == 0 then 0 else Overlaps(ns, n - 1) + if OverlapsEarlier(ns, n - 1) then 1 else 0
  }

  lemma {:induction false} OverlapsGrow(ns: seq<Range>, m: nat, n: nat)
    requires m <= n <= |ns|
    ensures Overlaps(ns, m) <= Overlaps(ns, n)
  {
    if m < n {
      OverlapsGrow(ns, m, n - 1);
    }
  }

  /** What range_error accepts. */
  ghost predicate Acceptable(rs: seq<Range>, len: int) {
    var ns := AllNormalised(rs, len);
    && |rs| <= RANGE_MAX_COUNT
    && (forall i :: 0 <= i < |ns| ==> InBounds(ns[i], len))
    && Overlaps(ns, |ns|) <= 2
  }

  // ------------------------------------------------------- what a request asks for

  /** The bytes a range asks for: all, the last `last` ones, those from `first` on, or those up to `last`. */
  predicate Asks(r: Range, len: int, x: int) {
    && 0 <= x < len
    && if r.first == -1 then r.last == -1 || len - r.last <= x
       else r.first <= x && (r.last == -1 || x <= r.last)
  }

  /** The ranges that are served: they ask for some byte, and a suffix is not longer than the content. */
  predicate Satisfiable(r: Range, len: int) {
    && len > 0
    && if r.first == -1 then r.last == -1 || 1 <= r.last <= len
       else 0 <= r.first < len && (r.last == -1 || r.first <= r.last)
  }

  /** Normalising fails just on the ranges that are not satisfiable, and keeps the bytes of the others. */
  lemma NormalisedAsks(r: Range, len: int)
    ensures InBounds(Normalised(r, len), len) <==> Satisfiable(r, len)
    ensures Satisfiable(r, len) ==> forall x :: Holds(Normalised(r, len), x) <==> Asks(r, len, x)
  {
  }

  /** Only a suffix longer than the content asks for bytes and is refused. */
  lemma LongSuffixRefused(r: Range, len: int)
    requires -1 <= r.first && -1 <= r.last
    ensures (exists x :: Asks(r, len, x)) && !Satisfiable(r, len) <==> r.first == -1 && r.last > len > 0
  {
    if exists x :: Asks(r, len, x) {
      var x :| Asks(r, len, x);
    }
    if r.first == -1 && r.last > len > 0 {
      assert Asks(r, len, 0);
    }
  }

  ghost predicate Shared(a: Range, b: Range, len: int) { exists x :: Asks(a, len, x) && Asks(b, len, x) }

  ghost predicate SharesWithEarlier(rs: seq<Range>, len: int, i: nat)
    requires i < |rs|
  {
    exists j :: 0 <= j < i && Shared(rs[i], rs[j], len)
  }

  /** How many of the first `n` ranges ask for a byte that an earlier one asks for. */
  ghost function Sharing(rs: seq<Range>, len: int, n: nat): nat
    requires n <= |rs|
  {
    if n == 0 then 0 else Sharing(rs, len, n - 1) + if SharesWithEarlier(rs, len, n - 1) then 1 else 0
  }

  /** A request that is served, in terms of the bytes it asks for. */
  ghost predicate Servable(rs: seq<Range>, len: int) {
    && |rs| <= RANGE_MAX_COUNT
    && (forall i :: 0 <= i < |rs| ==> Satisfiable(rs[i], len))
    && Sharing(rs, len, |rs|) <= 2
  }

  ghost predicate Asked(rs: seq<Range>, len: int, x: int) { exists i :: 0 <= i < |rs| && Asks(rs[i], len, x) }

  lemma OverlapShares(a: Range, b: Range, len: int)
    requires Satisfiable(a, len) && Satisfiable(b, len)
    ensures Overlap(Normalised(a, len), Normalised(b, len)) <==> Shared(a, b, len)
  {
    var p, q := Normalised(a, len), Normalised(b, len);
    NormalisedAsks(a, len);
    NormalisedAsks(b, len);
    if Overlap(p, q) {
      var x := Max(p.first, q.first);
      assert Holds(p, x) && Holds(q, x);
    }
  }

  lemma {:induction false} OverlapsShare(rs: seq<Range>, len: int, n: nat)
    requires n <= |rs| && forall i :: 0 <= i < |rs| ==> Satisfiable(rs[i], len)
    ensures Overlaps(AllNormalised(rs, len), n) == Sharing(rs, len, n)
  {
    if n > 0 {
      OverlapsShare(rs, len, n - 1);
      var ns := AllNormalised(rs, len);
      forall j | 0 <= j < n - 1
        ensures Overlap(ns[n - 1], ns[j]) <==> Shared(rs[n - 1], rs[j], len)
      {
        OverlapShares(rs[n - 1], rs[j], len);
      }
    }
  }

  lemma AcceptableMeans(rs: seq<Range>, len: int)
    ensures Acceptable(rs, len) <==> Servable(rs, len)
  {
    var ns := AllNormalised(rs, len);
    forall i | 0 <= i < |rs|
      ensures InBounds(ns[i], len) <==> Satisfiable(rs[i], len)
    {
      NormalisedAsks(rs[i], len);
    }
    if forall i :: 0 <= i < |rs| ==> Satisfiable(rs[i], len) {
      OverlapsShare(rs, len, |rs|);
    }
  }

  lemma AllAsks(rs: seq<Range>, len: int)
    ensures Servable(rs, len) ==>
              forall i, x :: 0 <= i < |rs| ==> (Holds(AllNormalised(rs, len)[i], x) <==> Asks(rs[i], len, x))
  {
    forall i, x | 0 <= i < |rs| && Servable(rs, len)
      ensures Holds(AllNormalised(rs, len)[i], x) <==> Asks(rs[i], len, x)
    {
      NormalisedAsks(rs[i], len);
    }
  }

  lemma CoveredAsked(rs: seq<Range>, len: int)
    requires Acceptable(rs, len)
    ensures forall x :: Covered(AllNormalised(rs, len), x) <==> Asked(rs, len, x)
  {
    var ns := AllNormalised(rs, len);
    AcceptableMeans(rs, len);
    AllAsks(rs, len);
    forall x
      ensures Covered(ns, x) <==> Asked(rs, len, x)
    {
      if Covered(ns, x) {
        var i :| 0 <= i < |ns| && Holds(ns[i], x);
        assert Asks(rs[i], len, x);
      }
      if Asked(rs, len, x) {
        var i :| 0 <= i < |rs| && Asks(rs[i], len, x);
        assert Holds(ns[i], x);
      }
    }
  }

  // -------------------------------------------------------------------- coalescing

  ghost predicate SortedByFirst(rs: seq<Range>) {
    forall i, j :: 0 <= i < j < |rs| ==> rs[i].first <= rs[j].first
  }

  ghost predicate Distinct(rs: seq<Range>) {
    forall i, j :: 0 <= i < j < |rs| ==> rs[i] != rs[j]
  }

  /** Every range that occurs twice has the byte before its start covered. */
  ghost predicate DuplicatesCovered(rs: seq<Range>) {
    forall r :: multiset(rs)[r] >= 2 ==> Covered(rs, r.first - 1)
  }

  predicate Holds(r: Range, x: int) { r.first <= x <= r.last }

  ghost predicate Covered(rs: seq<Range>, x: int) {
    exists i :: 0 <= i < |rs| && Holds(rs[i], x)
  }

  ghost predicate AllInBounds(rs: seq<Range>, len: int) {
    forall i :: 0 <= i < |rs| ==> InBounds(rs[i], len)
  }

  /** Consecutive ranges leave at least one byte between them. */
  ghost predicate Separated(rs: seq<Range>) {
    forall i :: 0 <= i < |rs| - 1 ==> rs[i].last + 1 < rs[i + 1].first
  }

  /** What coalescing promises for ranges inside the content. */
  ghost predicate Coalesced(rs: seq<Range>, out: seq<Range>, len: int) {
    && AllInBounds(out, len)
    && SortedByFirst(out)
    && (forall x :: Covered(out, x) <==> Covered(rs, x))
    && (DuplicatesCovered(rs) ==> Separated(out))
  }

  /** One trip of the loop: extend the previous range or add a new one. */
  function Merge(out: seq<Range>, r: Range): seq<Range> {
    if out == [] then [r]
    else
      var prev := out[|out| - 1];
      if r.first <= prev.last + 1 && !(r.first == prev.first && r.last == prev.last)
      then out[|out| - 1 := prev.(last := Max(prev.last, r.last))]
      else out + [r]
  }

  /** What holds after the ranges `seen`, taken in order of their starts. */
  ghost predicate Merged(seen: seq<Range>, out: seq<Range>, len: int) {
    && Coalesced(seen, out, len)
    && (seen == [] <==> out == [])
    && (out != [] ==>
          var prev := out[|out| - 1];
          && prev.first <= seen[|seen| - 1].first
          && exists j :: 0 <= j < |seen| && seen[j].last == prev.last && prev.first <= seen[j].first)
  }

  lemma CoveredSnoc(rs: seq<Range>, r: Range, x: int)
    ensures Covered(rs + [r], x) <==> Covered(rs, x) || Holds(r, x)
  {
    if Covered(rs, x) {
      var i :| 0 <= i < |rs| && Holds(rs[i], x);
      assert (rs + [r])[i] == rs[i];
    }
    if Holds(r, x) {
      assert (rs + [r])[|rs|] == r;
    }
  }

  lemma CoveredLast(out: seq<Range>, prev: Range, r: Range, x: int)
    requires out != [] && out[|out| - 1] == prev
    requires prev.first <= r.first <= prev.last + 1 && prev.first <= prev.last && r.first <= r.last
    ensures Covered(out[|out| - 1 := prev.(last := Max(prev.last, r.last))], x) <==> Covered(out, x) || Holds(r, x)
  {
    var n := |out| - 1;
    var wide := prev.(last := Max(prev.last, r.last));
    assert out == out[..n] + [prev];
    assert out[n := wide] == out[..n] + [wide];
    CoveredSnoc(out[..n], prev, x);
    CoveredSnoc(out[..n], wide, x);
  }

  lemma MergeCovers(seen: seq<Range>, out: seq<Range>, r: Range, len: int)
    requires Merged(seen, out, len) && InBounds(r, len)
    requires seen != [] ==> seen[|seen| - 1].first <= r.first
    ensures forall x :: Covered(Merge(out, r), x) <==> Covered(seen + [r], x)
  {
    forall x
      ensures Covered(Merge(out, r), x) <==> Covered(seen + [r], x)
    {
      CoveredSnoc(seen, r, x);
      if out == [] {
        CoveredSnoc([], r, x);
      } else {
        var prev := out[|out| - 1];
        if Merge(out, r) == out + [r] {
          CoveredSnoc(out, r, x);
        } else {
          CoveredLast(out, prev, r, x);
        }
      }
    }
  }

  /** A range equal to the one being built has been seen already. */
  lemma SeenBefore(seen: seq<Range>, out: seq<Range>, r: Range, len: int)
    requires Merged(seen, out, len) && out != [] && SortedByFirst(seen + [r]) && r == out[|out| - 1]
    ensures multiset(seen + [r])[r] >= 2
  {
    var all, prev := seen + [r], out[|out| - 1];
    var j :| 0 <= j < |seen| && seen[j].last == prev.last && prev.first <= seen[j].first;
    assert all[j] == seen[j] && all[|seen|] == r;
    assert seen[j] == r;
    assert r in multiset(seen);
  }

  /** Nothing that separated ranges cover ends right before the last of them. */
  lemma GapBefore(out: seq<Range>, x: int)
    requires out != [] && Separated(out) && SortedByFirst(out) && x == out[|out| - 1].first - 1
    ensures !Covered(out, x)
  {
    forall k | 0 <= k < |out|
      ensures !Holds(out[k], x)
    {
      if k < |out| - 1 {
        assert out[k].last + 1 < out[k + 1].first <= x + 1;
      }
    }
  }

  /** With the byte before every duplicate covered, the next range is not the one being built. */
  lemma NotTheSame(seen: seq<Range>, out: seq<Range>, r: Range, len: int)
    requires Merged(seen, out, len) && out != [] && SortedByFirst(seen + [r])
    requires DuplicatesCovered(seen + [r]) && Separated(out)
    ensures r != out[|out| - 1]
  {
    if r == out[|out| - 1] {
      SeenBefore(seen, out, r, len);
      CoveredSnoc(seen, r, r.first - 1);
      assert Covered(out, r.first - 1);
      GapBefore(out, r.first - 1);
    }
  }

  lemma DuplicatesBefore(seen: seq<Range>, r: Range)
    requires DuplicatesCovered(seen + [r]) && SortedByFirst(seen + [r])
    ensures DuplicatesCovered(seen)
  {
    var all := seen + [r];
    forall x | multiset(seen)[x] >= 2
      ensures Covered(seen, x.first - 1)
    {
      assert multiset(all)[x] >= 2;
      CoveredSnoc(seen, r, x.first - 1);
      assert x in seen;
      var i :| 0 <= i < |seen| && seen[i] == x;
      assert all[i] == x && all[|seen|] == r;
    }
  }

  lemma MergeApart(out: seq<Range>, r: Range)
    requires Separated(out) && (out != [] ==> r != out[|out| - 1])
    ensures Separated(Merge(out, r))
  {
  }

  lemma MergeSeparates(seen: seq<Range>, out: seq<Range>, r: Range, len: int)
    requires Merged(seen, out, len) && SortedByFirst(seen + [r]) && DuplicatesCovered(seen + [r])
    ensures Separated(Merge(out, r))
  {
    DuplicatesBefore(seen, r);
    if out != [] {
      NotTheSame(seen, out, r, len);
    }
    MergeApart(out, r);
  }

  lemma SortedLast(seen: seq<Range>, r: Range)
    requires SortedByFirst(seen + [r]) && seen != []
    ensures seen[|seen| - 1].first <= r.first
  {
    assert (seen + [r])[|seen|] == r && (seen + [r])[|seen| - 1] == seen[|seen| - 1];
  }

  /** The loop body keeps the loop's promise. */
  lemma MergeStep(seen: seq<Range>, out: seq<Range>, r: Range, len: int)
    requires Merged(seen, out, len) && InBounds(r, len) && SortedByFirst(seen + [r])
    ensures Merged(seen + [r], Merge(out, r), len)
  {
    if seen != [] {
      SortedLast(seen, r);
    }
    MergeCovers(seen, out, r, len);
    if DuplicatesCovered(seen + [r]) {
      MergeSeparates(seen, out, r, len);
    }
    MergeTail(seen, out, r, len);
    MergeOrder(seen, out, r, len);
  }

  lemma MergeOrder(seen: seq<Range>, out: seq<Range>, r: Range, len: int)
    requires Merged(seen, out, len) && InBounds(r, len)
    requires seen != [] ==> seen[|seen| - 1].first <= r.first
    ensures SortedByFirst(Merge(out, r)) && AllInBounds(Merge(out, r), len)
  {
    if out != [] {
      var prev := out[|out| - 1];
      assert InBounds(prev, len);
      forall i | 0 <= i < |out|
        ensures out[i].first <= prev.first
      {
      }
    }
  }

  lemma MergeTail(seen: seq<Range>, out: seq<Range>, r: Range, len: int)
    requires Merged(seen, out, len)
    requires seen != [] ==> seen[|seen| - 1].first <= r.first
    ensures Merge(out, r) != []
    ensures var prev := Merge(out, r)[|Merge(out, r)| - 1];
            && prev.first <= r.first
            && exists j :: 0 <= j < |seen + [r]| && (seen + [r])[j].last == prev.last
                           && prev.first <= (seen + [r])[j].first
  {
    var all, next := seen + [r], Merge(out, r);
    var prev := next[|next| - 1];
    assert all[|seen|] == r;
    if prev.last != r.last {
      var j :| 0 <= j < |seen| && seen[j].last == out[|out| - 1].last && out[|out| - 1].first <= seen[j].first;
      assert all[j] == seen[j];
    }
  }

  /** `std::sort` by start: some sorted rearrangement. */
  method SortByStart(rs: seq<Range>) returns (out: seq<Range>)
    ensures SortedByFirst(out) && multiset(out) == multiset(rs)
  {
    out := [];
    for i := 0 to |rs|
      invariant SortedByFirst(out) && multiset(out) == multiset(rs[..i])
    {
      PrefixCounts(rs, i);
      out := Insert(out, rs[i]);
    }
    assert rs[..|rs|] == rs;
  }

  method Insert(s: seq<Range>, r: Range) returns (out: seq<Range>)
    requires SortedByFirst(s)
    ensures SortedByFirst(out) && multiset(out) == multiset(s) + multiset{r}
  {
    var k := 0;
    while k < |s| && s[k].first <= r.first
      invariant 0 <= k <= |s|
      invariant forall j :: 0 <= j < k ==> s[j].first <= r.first
    {
      k := k + 1;
    }
    InsertAt(s, k, r);
    return s[..k] + [r] + s[k..];
  }

  lemma PrefixCounts(rs: seq<Range>, i: nat)
    requires i < |rs|
    ensures multiset(rs[..i + 1]) == multiset(rs[..i]) + multiset{rs[i]}
  {
    assert rs[..i + 1] == rs[..i] + [rs[i]];
  }

  lemma InsertAt(out: seq<Range>, k: nat, r: Range)
    requires SortedByFirst(out) && k <= |out|
    requires forall j :: 0 <= j < k ==> out[j].first <= r.first
    requires k < |out| ==> r.first <= out[k].first
    ensures SortedByFirst(out[..k] + [r] + out[k..])
    ensures multiset(out[..k] + [r] + out[k..]) == multiset(out) + multiset{r}
  {
    InsertSorted(out, k, r, out[..k] + [r] + out[k..]);
    InsertCounts(out, k, r);
  }

  lemma InsertSorted(out: seq<Range>, k: nat, r: Range, next: seq<Range>)
    requires SortedByFirst(out) && k <= |out| && next == out[..k] + [r] + out[k..]
    requires forall j :: 0 <= j < k ==> out[j].first <= r.first
    requires k < |out| ==> r.first <= out[k].first
    ensures SortedByFirst(next)
  {
    forall i, j | 0 <= i < j < |next|
      ensures next[i].first <= next[j].first
    {
      assert i < k ==> next[i] == out[i];
      assert i > k ==> next[i] == out[i - 1];
      assert j < k ==> next[j] == out[j];
      assert j > k ==> next[j] == out[j - 1];
    }
  }

  lemma InsertCounts(out: seq<Range>, k: nat, r: Range)
    requires k <= |out|
    ensures multiset(out[..k] + [r] + out[k..]) == multiset(out) + multiset{r}
  {
    assert out == out[..k] + out[k..];
  }

  /** Rearranging changes neither what is covered, nor the bounds, nor what is known of duplicates. */
  lemma Rearranged(a: seq<Range>, b: seq<Range>, len: int)
    requires multiset(a) == multiset(b)
    ensures forall x :: Covered(a, x) <==> Covered(b, x)
    ensures AllInBounds(a, len) ==> AllInBounds(b, len)
    ensures DuplicatesCovered(a) ==> DuplicatesCovered(b)
  {
    forall r
      ensures r in a <==> r in b
    {
      assert r in multiset(a) <==> r in multiset(b);
    }
    forall x
      ensures Covered(a, x) <==> Covered(b, x)
    {
      CoveredIn(a, x);
      CoveredIn(b, x);
    }
    if AllInBounds(a, len) {
      forall i | 0 <= i < |b|
        ensures InBounds(b[i], len)
      {
        assert b[i] in a;
      }
    }
  }

  lemma CoveredIn(rs: seq<Range>, x: int)
    ensures Covered(rs, x) <==> exists r :: r in rs && Holds(r, x)
  {
    if r :| r in rs && Holds(r, x) {
      var i :| 0 <= i < |rs| && rs[i] == r;
    }
  }

  lemma {:induction false} DistinctCounts(rs: seq<Range>)
    requires Distinct(rs)
    ensures forall r :: multiset(rs)[r] <= 1
  {
    if rs != [] {
      assert rs == [rs[0]] + rs[1..];
      DistinctCounts(rs[1..]);
    }
  }

  /** Without duplicates there is nothing to cover. */
  lemma DistinctCovered(rs: seq<Range>)
    requires Distinct(rs)
    ensures DuplicatesCovered(rs)
  {
    DistinctCounts(rs);
  }

  /** What `std::sort` may leave: equal starts in any order. */
  ghost predicate Arrangement(sorted: seq<Range>, rs: seq<Range>) {
    SortedByFirst(sorted) && multiset(sorted) == multiset(rs)
  }

  /** coalesce_ranges: a single range is left alone, others are sorted and merged. */
  method CoalesceRanges(rs: seq<Range>, len: int) returns (out: seq<Range>)
    ensures |rs| <= 1 ==> out == rs
    ensures |rs| > 1 ==> exists sorted :: Arrangement(sorted, rs) && out == Kept(sorted, |sorted|, len)
    ensures AllInBounds(rs, len) ==> Coalesced(rs, out, len)
  {
    if |rs| <= 1 {
      SingleSeparated(rs);
      return rs;
    }
    var sorted := SortByStart(rs);
    Rearranged(rs, sorted, len);
    assert Arrangement(sorted, rs);
    out := MergeAll(sorted, len);
  }

  lemma SingleSeparated(rs: seq<Range>)
    requires |rs| <= 1
    ensures Separated(rs) && SortedByFirst(rs)
  {
  }

  /** The ranges kept after the first `n` trips of the coalescing loop. */
  function Kept(sorted: seq<Range>, n: nat, len: int): seq<Range>
    requires n <= |sorted|
  {
    if n == 0 then []
    else
      var out, r := Kept(sorted, n - 1, len), Normalised(sorted[n - 1], len);
      if InBounds(r, len) then Merge(out, r) else out
  }

  /** The coalescing loop; ranges that are out of bounds are skipped. */
  method MergeAll(sorted: seq<Range>, len: int) returns (out: seq<Range>)
    ensures out == Kept(sorted, |sorted|, len)
    ensures SortedByFirst(sorted) && AllInBounds(sorted, len) ==> Coalesced(sorted, out, len)
  {
    out := [];
    for i := 0 to |sorted|
      invariant out == Kept(sorted, i, len)
    {
      var r := Normalised(sorted[i], len);
      if InBounds(r, len) {
        out := Merge(out, r);
      }
    }
    if SortedByFirst(sorted) && AllInBounds(sorted, len) {
      KeptMerged(sorted, |sorted|, len);
      assert sorted[..|sorted|] == sorted;
    }
  }

  lemma {:induction false} KeptMerged(sorted: seq<Range>, n: nat, len: int)
    requires n <= |sorted| && SortedByFirst(sorted) && AllInBounds(sorted, len)
    ensures Merged(sorted[..n], Kept(sorted, n, len), len)
  {
    if n > 0 {
      KeptMerged(sorted, n - 1, len);
      NormalisedInBounds(sorted[n - 1], len);
      Snoc(sorted, n - 1);
      PrefixSorted(sorted, n);
      var before, after := Kept(sorted, n - 1, len), Kept(sorted, n, len);
      MergeNext(sorted[..n - 1], sorted[n - 1], sorted[..n], before, after, len);
    }
  }

  lemma PrefixSorted(sorted: seq<Range>, n: nat)
    requires n <= |sorted| && SortedByFirst(sorted)
    ensures SortedByFirst(sorted[..n])
  {
  }

  lemma MergeNext(seen: seq<Range>, r: Range, next: seq<Range>, out: seq<Range>, kept: seq<Range>, len: int)
    requires next == seen + [r] && kept == Merge(out, r)
    requires Merged(seen, out, len) && InBounds(r, len) && SortedByFirst(next)
    ensures Merged(next, kept, len)
  {
    MergeStep(seen, out, r, len);
  }

  /**
   `range_error`: whether the request is refused, and otherwise the ranges to serve.  It is
   refused exactly when it is not `Servable`; accepted ranges cover what was asked for.  On refusal
   the ranges up to the offending one have been normalised in place, unless there were too many.
   */
  method RangeError(rs: seq<Range>, status: int, len: int) returns (error: bool, out: seq<Range>)
    ensures rs == [] || !(200 <= status < 300) ==> !error && out == rs
    ensures rs != [] && 200 <= status < 300 ==> error == !Servable(rs, len)
    ensures rs != [] && 200 <= status < 300 && !error ==> Coalesced(AllNormalised(rs, len), out, len)
    ensures rs != [] && 200 <= status < 300 && !error ==> forall x :: Covered(out, x) <==> Asked(rs, len, x)
    ensures error && |rs| > RANGE_MAX_COUNT ==> out == rs
    ensures error && |rs| <= RANGE_MAX_COUNT ==> exists k :: 0 <= k < |rs| && StoppedAt(rs, len, k, out)
  {
    if rs == [] || !(200 <= status < 300) {
      return false, rs;
    }
    if |rs| > RANGE_MAX_COUNT {
      return true, rs;
    }
    error, out := CheckRanges(rs, len);
    if !error {
      out := CoalesceRanges(out, len);
      AcceptableMeans(rs, len);
      CoveredAsked(rs, len);
    }
  }

  /** Range `k` is the first to fail a test, and the ranges up to it have been normalised. */
  ghost predicate StoppedAt(rs: seq<Range>, len: int, k: nat, left: seq<Range>)
    requires k < |rs|
  {
    var ns := AllNormalised(rs, len);
    left == ns[..k + 1] + rs[k + 1..] && FailedAt(ns, k, len)
  }

  /**
   The validating loop: every range in bounds, and at most two overlapping an earlier one.  `left` is
   the request's list, which the loop normalises in place.
   */
  method CheckRanges(rs: seq<Range>, len: int) returns (error: bool, left: seq<Range>)
    requires |rs| <= RANGE_MAX_COUNT
    ensures error == !Servable(rs, len)
    ensures !error ==> left == AllNormalised(rs, len) && AllInBounds(left, len)
    ensures !error ==> forall i, x :: 0 <= i < |rs| ==> (Holds(left[i], x) <==> Asks(rs[i], len, x))
    ensures error ==> exists k :: 0 <= k < |rs| && StoppedAt(rs, len, k, left)
  {
    ghost var ns := AllNormalised(rs, len);
    var count, i := 0, 0;
    var processed: seq<Range> := [];
    left, error := rs, false;
    CheckedNone(rs, ns, len);
    while i < |rs| && !error
      invariant 0 <= i <= |rs| && Checked(rs, ns, len, i, error, left, processed, count)
    {
      error, left, processed, count := CheckTrip(rs, ns, len, i, left, processed, count);
      i := i + 1;
    }
    Verdict(rs, ns, len, i, error, left, processed, count);
    AcceptableMeans(rs, len);
    AllAsks(rs, len);
  }

  /** One trip of the loop. */
  method CheckTrip(rs: seq<Range>, ghost ns: seq<Range>, len: int, i: nat, left0: seq<Range>,
                   processed0: seq<Range>, count0: nat)
    returns (error: bool, left: seq<Range>, processed: seq<Range>, count: nat)
    requires ns == AllNormalised(rs, len) && i < |rs| && Checked(rs, ns, len, i, false, left0, processed0, count0)
    ensures Checked(rs, ns, len, i + 1, error, left, processed, count)
  {
    var r := Normalised(rs[i], len);
    left := left0[i := r];
    error, count, processed := CheckOne(r, len, processed0, count0, ns, i);
    CheckedNext(rs, ns, len, i, r, left0, error, left, processed, count);
  }

  lemma CheckedNone(rs: seq<Range>, ns: seq<Range>, len: int)
    requires |ns| == |rs|
    ensures Checked(rs, ns, len, 0, false, rs, [], 0)
  {
  }

  /** The state after `i` ranges that passed. */
  ghost predicate Passed(ns: seq<Range>, i: nat, len: int, processed: seq<Range>, count: nat)
    requires i <= |ns|
  {
    processed == ns[..i] && count == Overlaps(ns, i) && AcceptableSoFar(ns, i, len)
  }

  /** The variables of the loop after `i` trips. */
  ghost predicate Checked(rs: seq<Range>, ns: seq<Range>, len: int, i: nat, error: bool, left: seq<Range>,
                          processed: seq<Range>, count: nat)
    requires i <= |rs| == |ns|
  {
    && left == ns[..i] + rs[i..]
    && if error then i > 0 && FailedAt(ns, i - 1, len) else Passed(ns, i, len, processed, count)
  }

  lemma CheckedNext(rs: seq<Range>, ns: seq<Range>, len: int, i: nat, r: Range, left: seq<Range>,
                    error': bool, left': seq<Range>, processed': seq<Range>, count': nat)
    requires i < |rs| == |ns| && r == ns[i] && left == ns[..i] + rs[i..] && left' == left[i := r]
    requires if error' then FailedAt(ns, i, len) else Passed(ns, i + 1, len, processed', count')
    ensures Checked(rs, ns, len, i + 1, error', left', processed', count')
  {
    NormalisedOne(ns, rs, i, r);
  }

  ghost predicate FailedAt(ns: seq<Range>, i: nat, len: int)
    requires i < |ns|
  {
    AcceptableSoFar(ns, i, len) && !AcceptableSoFar(ns, i + 1, len)
  }

  /** The tests of one range. */
  method CheckOne(r: Range, len: int, processed0: seq<Range>, count0: nat, ghost ns: seq<Range>, ghost i: nat)
    returns (error: bool, count: nat, processed: seq<Range>)
    requires i < |ns| && r == ns[i] && Passed(ns, i, len, processed0, count0)
    ensures !error ==> Passed(ns, i + 1, len, processed, count)
    ensures error ==> FailedAt(ns, i, len)
  {
    error, count, processed := !InBounds(r, len), count0, processed0;
    if !error {
      var hit := AnyOverlap(processed, r);
      EarlierIn(ns, i);
      count := if hit then count + 1 else count;
      error := count > 2;
      processed := processed + [r];
      Snoc(ns, i);
    }
  }

  lemma NormalisedOne(ns: seq<Range>, rs: seq<Range>, i: nat, r: Range)
    requires i < |rs| == |ns| && r == ns[i]
    ensures (ns[..i] + rs[i..])[i := r] == ns[..i + 1] + rs[i + 1..]
  {
  }

  lemma Verdict(rs: seq<Range>, ns: seq<Range>, len: int, i: nat, error: bool, left: seq<Range>,
                processed: seq<Range>, count: nat)
    requires |rs| <= RANGE_MAX_COUNT && i <= |rs| && ns == AllNormalised(rs, len) && (!error ==> i == |rs|)
    requires Checked(rs, ns, len, i, error, left, processed, count)
    ensures error == !Acceptable(rs, len)
    ensures !error ==> left == ns && AllInBounds(left, len)
    ensures error ==> exists k :: 0 <= k < |rs| && StoppedAt(rs, len, k, left)
  {
    if error {
      Refused(ns, i, len);
      assert StoppedAt(rs, len, i - 1, left);
    }
  }

  /** The first `i` ranges pass both tests. */
  ghost predicate AcceptableSoFar(ns: seq<Range>, i: nat, len: int)
    requires i <= |ns|
  {
    (forall j :: 0 <= j < i ==> InBounds(ns[j], len)) && Overlaps(ns, i) <= 2
  }

  lemma Refused(ns: seq<Range>, i: nat, len: int)
    requires i <= |ns| && !AcceptableSoFar(ns, i, len)
    ensures !AcceptableSoFar(ns, |ns|, len)
  {
    OverlapsGrow(ns, i, |ns|);
  }

  lemma Snoc(ns: seq<Range>, i: nat)
    requires i < |ns|
    ensures ns[..i] + [ns[i]] == ns[..i + 1]
  {
  }

  lemma EarlierIn(ns: seq<Range>, i: nat)
    requires i < |ns|
    ensures OverlapsEarlier(ns, i) <==> exists j :: 0 <= j < |ns[..i]| && Overlap(ns[i], ns[..i][j])
  {
    if OverlapsEarlier(ns, i) {
      var j :| 0 <= j < i && Overlap(ns[i], ns[j]);
      assert ns[..i][j] == ns[j];
    }
  }

  method AnyOverlap(processed: seq<Range>, r: Range) returns (hit: bool)
    ensures hit <==> exists j :: 0 <= j < |processed| && Overlap(r, processed[j])
  {
    for j := 0 to |processed|
      invariant forall i :: 0 <= i < j ==> !Overlap(r, processed[i])
    {
      if Overlap(r, processed[j]) {
        return true;
      }
    }
    return false;
  }

  // ------------------------------------------------------- when results are separate

  function Place(s: seq<Range>, x: int): (k: nat)
    ensures k <= |s| && (k < |s| ==> x <= s[k].first)
    ensures forall j :: 0 <= j < k ==> s[j].first < x
  {
    if s == [] || x <= s[0].first then 0 else 1 + Place(s[1..], x)
  }

  /** Every list has an arrangement. */
  lemma {:induction false} Arrange(rs: seq<Range>) returns (sorted: seq<Range>)
    ensures Arrangement(sorted, rs)
  {
    sorted := [];
    if rs != [] {
      var n := |rs| - 1;
      var s := Arrange(rs[..n]);
      var k := Place(s, rs[n].first);
      InsertAt(s, k, rs[n]);
      sorted := s[..k] + [rs[n]] + s[k..];
      PrefixCounts(rs, n);
      assert rs[..n + 1] == rs;
    }
  }

  lemma {:induction false} TakeOut(rs: seq<Range>, r: Range) returns (rest: seq<Range>)
    requires r in rs
    ensures multiset(rs) == multiset(rest) + multiset{r}
  {
    var i :| 0 <= i < |rs| && rs[i] == r;
    rest := rs[..i] + rs[i + 1..];
    assert rs == rs[..i] + [r] + rs[i + 1..];
  }

  /** An arrangement that begins the ranges with the start of `r` by two copies of `r`. */
  lemma ArrangeTwice(rs: seq<Range>, r: Range) returns (sorted: seq<Range>, p: nat)
    requires multiset(rs)[r] >= 2
    ensures Arrangement(sorted, rs) && p + 2 <= |sorted| && sorted[p] == sorted[p + 1] == r
    ensures forall j :: 0 <= j < p ==> sorted[j].first < r.first
  {
    assert r in multiset(rs);
    var one := TakeOut(rs, r);
    assert r in multiset(one);
    var rest := TakeOut(one, r);
    var s := Arrange(rest);
    p := Place(s, r.first);
    var s1 := PutAt(s, p, r);
    sorted := PutAt(s1, p, r);
  }

  lemma PutAt(s: seq<Range>, p: nat, r: Range) returns (t: seq<Range>)
    requires SortedByFirst(s) && p <= |s| && (p < |s| ==> r.first <= s[p].first)
    requires forall j :: 0 <= j < p ==> s[j].first < r.first
    ensures SortedByFirst(t) && multiset(t) == multiset(s) + multiset{r} && |t| == |s| + 1
    ensures t[p] == r && (p < |s| ==> t[p + 1] == s[p])
    ensures forall j :: 0 <= j < p ==> t[j].first < r.first
  {
    t := s[..p] + [r] + s[p..];
    InsertAt(s, p, r);
    assert forall j :: 0 <= j < p ==> t[j] == s[j];
  }

  /** Ranges that start before `a` and leave `a - 1` uncovered end before it. */
  lemma EndsBefore(seen: seq<Range>, out: seq<Range>, a: int, len: int)
    requires Merged(seen, out, len) && out != []
    requires forall j :: 0 <= j < |seen| ==> seen[j].first < a && !Holds(seen[j], a - 1)
    ensures out[|out| - 1].last + 1 < a
  {
    var prev := out[|out| - 1];
    assert InBounds(prev, len) && Holds(prev, prev.last);
    assert Covered(out, prev.last);
    assert Covered(seen, prev.last);
    var j :| 0 <= j < |seen| && Holds(seen[j], prev.last);
    assert !Holds(seen[j], a - 1);
  }

  /** Two copies of `r` stand at place `m`, the second perhaps extended. */
  ghost predicate TwiceAt(out: seq<Range>, m: nat, r: Range) {
    m + 2 <= |out| && out[m] == r && out[m + 1].first == r.first
  }

  lemma {:induction false} TwiceStays(sorted: seq<Range>, p: nat, n: nat, m: nat, r: Range, len: int)
    requires p <= n <= |sorted| && TwiceAt(Kept(sorted, p, len), m, r)
    ensures TwiceAt(Kept(sorted, n, len), m, r)
  {
    if p < n {
      TwiceStays(sorted, p, n - 1, m, r, len);
    }
  }

  lemma TwiceKept(sorted: seq<Range>, p: nat, r: Range, len: int)
    requires p + 2 <= |sorted| && sorted[p] == sorted[p + 1] == r
    requires SortedByFirst(sorted) && AllInBounds(sorted, len)
    requires forall j :: 0 <= j < p ==> sorted[j].first < r.first && !Holds(sorted[j], r.first - 1)
    ensures TwiceAt(Kept(sorted, p + 2, len), |Kept(sorted, p, len)|, r)
  {
    var out := Kept(sorted, p, len);
    KeptMerged(sorted, p, len);
    NormalisedInBounds(r, len);
    if out != [] {
      forall j | 0 <= j < |sorted[..p]|
        ensures sorted[..p][j].first < r.first && !Holds(sorted[..p][j], r.first - 1)
      {
        assert sorted[..p][j] == sorted[j];
      }
      EndsBefore(sorted[..p], out, r.first, len);
    }
    assert Kept(sorted, p + 1, len) == out + [r];
    assert Kept(sorted, p + 2, len) == out + [r] + [r];
  }

  /** A duplicate with nothing before it: sorted in some order, its copies come out touching. */
  lemma UncoveredDuplicate(rs: seq<Range>, r: Range, len: int) returns (sorted: seq<Range>)
    requires AllInBounds(rs, len) && multiset(rs)[r] >= 2 && !Covered(rs, r.first - 1)
    ensures Arrangement(sorted, rs) && !Separated(Kept(sorted, |sorted|, len))
  {
    var p;
    sorted, p := ArrangeTwice(rs, r);
    Rearranged(rs, sorted, len);
    assert !Covered(sorted, r.first - 1);
    TouchingCopies(sorted, p, r, len);
  }

  lemma TouchingCopies(sorted: seq<Range>, p: nat, r: Range, len: int)
    requires p + 2 <= |sorted| && sorted[p] == sorted[p + 1] == r
    requires forall j :: 0 <= j < p ==> sorted[j].first < r.first
    requires SortedByFirst(sorted) && AllInBounds(sorted, len) && !Covered(sorted, r.first - 1)
    ensures !Separated(Kept(sorted, |sorted|, len))
  {
    TwiceKept(sorted, p, r, len);
    var m := |Kept(sorted, p, len)|;
    TwiceStays(sorted, p + 2, |sorted|, m, r, len);
    assert InBounds(sorted[p], len);
    NotApart(Kept(sorted, |sorted|, len), m, r);
  }

  lemma NotApart(out: seq<Range>, m: nat, r: Range)
    requires TwiceAt(out, m, r) && r.first <= r.last
    ensures !Separated(out)
  {
    assert !(out[m].last + 1 < out[m + 1].first);
  }

  lemma CoveredDuplicates(rs: seq<Range>, sorted: seq<Range>, len: int)
    requires AllInBounds(rs, len) && DuplicatesCovered(rs) && Arrangement(sorted, rs)
    ensures Separated(Kept(sorted, |sorted|, len))
  {
    Rearranged(rs, sorted, len);
    KeptMerged(sorted, |sorted|, len);
    assert sorted[..|sorted|] == sorted;
  }

  /**
   However equal starts are sorted, the results are separated by uncovered bytes: exactly when every range
   that occurs twice has the byte before its start covered.
   */
  lemma SeparationExact(rs: seq<Range>, len: int)
    requires AllInBounds(rs, len)
    ensures DuplicatesCovered(rs) <==>
            forall sorted :: Arrangement(sorted, rs) ==> Separated(Kept(sorted, |sorted|, len))
  {
    if DuplicatesCovered(rs) {
      forall sorted | Arrangement(sorted, rs)
        ensures Separated(Kept(sorted, |sorted|, len))
      {
        CoveredDuplicates(rs, sorted, len);
      }
    } else {
      var r :| multiset(rs)[r] >= 2 && !Covered(rs, r.first - 1);
      var sorted := UncoveredDuplicate(rs, r, len);
    }
  }

  /** A request that is accepted and served with overlapping ranges. */
  lemma DuplicatesOverlap()
    ensures var rs := [Range(0, 5), Range(0, 5), Range(3, 9)];
            && Acceptable(rs, 10) && Arrangement(rs, AllNormalised(rs, 10))
            && Kept(rs, 3, 10) == [Range(0, 5), Range(0, 9)] && !Separated(Kept(rs, 3, 10))
  {
    var rs := [Range(0, 5), Range(0, 5), Range(3, 9)];
    assert AllNormalised(rs, 10) == rs;
    assert Overlaps(rs, 0) == 0 && Overlaps(rs, 1) <= 1;
    assert !OverlapsEarlier(rs, 0);
    assert Overlaps(rs, 3) <= Overlaps(rs, 2) + 1 <= Overlaps(rs, 1) + 2;
    assert Kept(rs, 1, 10) == [Range(0, 5)];
    assert Kept(rs, 2, 10) == [Range(0, 5), Range(0, 5)];
    var out := Kept(rs, 3, 10);
    assert out == [Range(0, 5), Range(0, 9)];
    assert !(out[0].last + 1 < out[0 + 1].first);
  }
}
