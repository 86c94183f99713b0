/** The list of received ranges that acknowledgements are built from (sacks.c), and its
    pruning when an acknowledgement is itself acknowledged. */
module Sack {

  datatype Range = Range(lo: nat, hi: nat)

  /** Non-empty ranges, largest first, with at least one missing number between neighbours. */
  ghost predicate WellFormed(l: seq<Range>) {
    && (forall k :: 0 <= k < |l| ==> l[k].lo <= l[k].hi)
    && (forall j, k :: 0 <= j < k < |l| ==> l[k].hi + 1 < l[j].lo)
  }

  predicate Inside(r: Range, n: nat) {
    r.lo <= n <= r.hi
  }

  ghost predicate Has(l: seq<Range>, n: nat) {
    exists k :: 0 <= k < |l| && Inside(l[k], n)
  }

  /** `m` holds exactly the numbers of `l` and those of `r`. */
  ghost predicate Adds(l: seq<Range>, m: seq<Range>, r: Range) {
    forall n :: Has(m, n) <==> Has(l, n) || Inside(r, n)
  }

  lemma HasConcat(a: seq<Range>, b: seq<Range>, n: nat)
    ensures Has(a + b, n) <==> Has(a, n) || Has(b, n)
  {
    if k :| 0 <= k < |a| && Inside(a[k], n) {
      assert Inside((a + b)[k], n);
    }
    if k :| 0 <= k < |b| && Inside(b[k], n) {
      assert Inside((a + b)[|a| + k], n);
    }
    if k :| 0 <= k < |a + b| && Inside((a + b)[k], n) {
      assert if k < |a| then Inside(a[k], n) else Inside(b[k - |a|], n);
    }
  }

  lemma HasAround(a: seq<Range>, r: Range, b: seq<Range>, n: nat)
    ensures Has(a + [r] + b, n) <==> Has(a, n) || Inside(r, n) || Has(b, n)
  {
    HasConcat(a + [r], b, n);
    HasConcat(a, [r], n);
    assert Inside([r][0], n) <==> Inside(r, n);
  }

  /** Two well-formed parts and a range that keeps its distance from both make a well-formed list. */
  lemma Joined(a: seq<Range>, r: Range, b: seq<Range>)
    requires WellFormed(a) && WellFormed(b) && r.lo <= r.hi
    requires a != [] ==> r.hi + 1 < a[|a| - 1].lo
    requires b != [] ==> b[0].hi + 1 < r.lo
    ensures WellFormed(a + [r] + b)
  {
  }

  lemma Split(l: seq<Range>, i: nat)
    requires WellFormed(l) && i <= |l|
    ensures WellFormed(l[..i]) && WellFormed(l[i..]) && l == l[..i] + l[i..]
  {
  }

  lemma Parts(l: seq<Range>, i: nat, j: nat)
    requires WellFormed(l) && i <= |l| && j <= |l|
    ensures WellFormed(l[..i]) && WellFormed(l[j..])
  {
  }

  lemma ReplacedAdds(a: seq<Range>, x: Range, r: Range, b: seq<Range>)
    requires r.lo <= x.lo && x.hi <= r.hi
    ensures Adds(a + [x] + b, a + [r] + b, r)
  {
    forall n
      ensures Has(a + [r] + b, n) <==> Has(a + [x] + b, n) || Inside(r, n)
    {
      HasAround(a, r, b, n);
      HasAround(a, x, b, n);
    }
  }

  lemma FusedAdds(a: seq<Range>, x: Range, y: Range, r: Range, b: seq<Range>)
    requires r.lo <= x.lo && x.hi <= r.hi && r.lo <= y.lo && y.hi <= r.hi
    ensures Adds(a + [x] + ([y] + b), a + [r] + b, r)
  {
    forall n
      ensures Has(a + [r] + b, n) <==> Has(a + [x] + ([y] + b), n) || Inside(r, n)
    {
      HasAround(a, r, b, n);
      HasAround(a, x, [y] + b, n);
      HasConcat([y], b, n);
      assert Inside([y][0], n) <==> Inside(y, n);
    }
  }

  lemma Widened(l: seq<Range>, i: nat, r: Range)
    requires WellFormed(l) && i < |l| && r.lo <= l[i].lo && l[i].hi <= r.hi
    requires i > 0 ==> r.hi + 1 < l[i - 1].lo
    requires i + 1 < |l| ==> l[i + 1].hi + 1 < r.lo
    ensures WellFormed(l[i := r]) && Adds(l, l[i := r], r)
  {
    var a, b := l[..i], l[i + 1..];
    Parts(l, i, i + 1);
    Joined(a, r, b);
    ReplacedAdds(a, l[i], r, b);
    assert l == a + [l[i]] + b;
    assert l[i := r] == a + [r] + b;
  }

  lemma Merged(l: seq<Range>, i: nat)
    requires WellFormed(l) && 0 < i < |l|
    ensures var r := Range(l[i].lo, l[i - 1].hi); var m := l[..i - 1] + [r] + l[i + 1..]; WellFormed(m) && Adds(l, m, r)
  {
    var r, a, b := Range(l[i].lo, l[i - 1].hi), l[..i - 1], l[i + 1..];
    assert l[i].hi + 1 < l[i - 1].lo;
    Parts(l, i - 1, i + 1);
    Joined(a, r, b);
    FusedAdds(a, l[i - 1], l[i], r, b);
    assert l == a + [l[i - 1]] + ([l[i]] + b);
  }

  lemma Placed(l: seq<Range>, i: nat, r: Range)
    requires WellFormed(l) && i <= |l| && r.lo <= r.hi
    requires i > 0 ==> r.hi + 1 < l[i - 1].lo
    requires i < |l| ==> l[i].hi + 1 < r.lo
    ensures var m := l[..i] + [r] + l[i..]; WellFormed(m) && Adds(l, m, r)
  {
    Split(l, i);
    Joined(l[..i], r, l[i..]);
    forall n
      ensures Has(l[..i] + [r] + l[i..], n) <==> Has(l, n) || Inside(r, n)
    {
      HasAround(l[..i], r, l[i..], n);
      HasConcat(l[..i], l[i..], n);
    }
  }

  /** A number between two neighbours is missing. */
  lemma Missing(l: seq<Range>, i: nat, n: nat)
    requires WellFormed(l) && i <= |l|
    requires i > 0 ==> n < l[i - 1].lo
    requires i < |l| ==> l[i].hi < n
    ensures !Has(l, n)
  {
  }

  /** What one iteration achieves: the numbers from `from` to `hi` are recorded; without news
      they all were there already. */
  ghost predicate Recorded(l: seq<Range>, m: seq<Range>, lo: nat, hi: nat, from: nat, news: bool) {
    && WellFormed(m) && Adds(l, m, Range(from, hi))
    && (if news then exists n :: lo <= n <= hi && !Has(l, n) else m == l)
  }

  /** The new range ends above the current item and touches or overlaps it. */
  method Raise(l: seq<Range>, i: nat, lo: nat, hi: nat) returns (m: seq<Range>, j: nat)
    requires WellFormed(l) && i < |l| && lo <= hi && (i > 0 ==> hi < l[i - 1].lo) && l[i].hi < hi && lo <= l[i].hi + 1
    ensures WellFormed(m) && Adds(l, m, Range(l[i].hi + 1, hi)) && !Has(l, hi)
    ensures j < |m| && |m| - j == |l| - i && m[j].lo == l[i].lo && hi <= m[j].hi && m[j + 1..] == l[i + 1..]
  {
    Missing(l, i, hi);
    if i > 0 && hi + 1 >= l[i - 1].lo {
      Merged(l, i);
      m := l[..i - 1] + [Range(l[i].lo, l[i - 1].hi)] + l[i + 1..];
      j := i - 1;
      forall n
        ensures Has(m, n) <==> Has(l, n) || Inside(Range(l[i].hi + 1, hi), n)
      {
        assert Inside(l[i], n) ==> Has(l, n);
        assert Inside(l[i - 1], n) ==> Has(l, n);
      }
    } else {
      Widened(l, i, Range(l[i].lo, hi));
      m := l[i := Range(l[i].lo, hi)];
      j := i;
      forall n
        ensures Has(m, n) <==> Has(l, n) || Inside(Range(l[i].hi + 1, hi), n)
      {
        assert Inside(l[i], n) ==> Has(l, n);
      }
    }
  }

  lemma AddsChain(l: seq<Range>, m: seq<Range>, m': seq<Range>, r: Range, s: Range, t: Range)
    requires Adds(l, m, r) && Adds(m, m', s)
    requires forall n :: Inside(t, n) || Has(l, n) <==> Inside(r, n) || Inside(s, n) || Has(l, n)
    ensures Adds(l, m', t)
  {
  }

  lemma AddsLess(l: seq<Range>, m: seq<Range>, r: Range, t: Range)
    requires Adds(l, m, r)
    requires forall n :: Inside(t, n) || Has(l, n) <==> Inside(r, n) || Has(l, n)
    ensures Adds(l, m, t)
  {
  }

  /** The range starts above the current item: it fills the gap in front of it. */
  method VisitGap(l: seq<Range>, i: nat, lo: nat, hi: nat) returns (m: seq<Range>)
    requires WellFormed(l) && i < |l| && lo <= hi && (i > 0 ==> hi < l[i - 1].lo) && l[i].hi + 1 < lo
    ensures Recorded(l, m, lo, hi, lo, true)
  {
    Missing(l, i, hi);
    if i > 0 && hi + 1 >= l[i - 1].lo {
      Widened(l, i - 1, Range(lo, l[i - 1].hi));
      m := l[i - 1 := Range(lo, l[i - 1].hi)];
      assert forall n :: Inside(l[i - 1], n) ==> Has(l, n);
      AddsLess(l, m, Range(lo, l[i - 1].hi), Range(lo, hi));
    } else {
      Placed(l, i, Range(lo, hi));
      m := l[..i] + [Range(lo, hi)] + l[i..];
    }
  }

  /** The range ends above the current item and touches it. */
  method VisitAbove(l: seq<Range>, i: nat, lo: nat, hi: nat)
    returns (m: seq<Range>, j: nat, from: nat, done: bool, news: bool)
    requires WellFormed(l) && i < |l| && lo <= hi && (i > 0 ==> hi < l[i - 1].lo) && l[i].hi < hi && lo <= l[i].hi + 1
    ensures Recorded(l, m, lo, hi, from, news)
    ensures done ==> from == lo
    ensures !done ==> lo < from <= hi + 1 && j < |m| && (j > 0 ==> from - 1 < m[j - 1].lo) && |m| - j < |l| - i
  {
    from, done, news := lo, true, true;
    m, j := Raise(l, i, lo, hi);
    assert forall n :: Inside(l[i], n) ==> Has(l, n);
    if lo >= m[j].lo {
      AddsLess(l, m, Range(l[i].hi + 1, hi), Range(lo, hi));
    } else if j + 1 == |m| {
      ghost var mid := m;
      Widened(m, j, Range(lo, m[j].hi));
      m := m[j := Range(lo, m[j].hi)];
      assert forall n :: Inside(mid[j], n) ==> Has(mid, n);
      AddsLess(mid, m, Range(lo, mid[j].hi), Range(lo, l[i].lo - 1));
      AddsChain(l, mid, m, Range(l[i].hi + 1, hi), Range(lo, l[i].lo - 1), Range(lo, hi));
    } else {
      from, done := m[j].lo, false;
      AddsLess(l, m, Range(l[i].hi + 1, hi), Range(from, hi));
      j := j + 1;
    }
  }

  /** One iteration of the walk down the list: either done, or on to item `j` with what is left below `from`. */
  method Visit(l: seq<Range>, i: nat, lo: nat, hi: nat)
    returns (m: seq<Range>, j: nat, from: nat, done: bool, news: bool)
    requires WellFormed(l) && i < |l| && lo <= hi && (i > 0 ==> hi < l[i - 1].lo)
    ensures Recorded(l, m, lo, hi, from, news)
    ensures done ==> from == lo
    ensures !done ==> lo < from <= hi + 1 && j < |m| && (j > 0 ==> from - 1 < m[j - 1].lo) && |m| - j < |l| - i
  {
    m, j, from, done, news := l, i, lo, true, true;
    if hi > l[i].hi {
      if lo <= l[i].hi + 1 {
        m, j, from, done, news := VisitAbove(l, i, lo, hi);
      } else {
        m := VisitGap(l, i, lo, hi);
      }
    } else if hi >= l[i].lo {
      assert forall n :: Inside(l[i], n) ==> Has(l, n);
      if lo < l[i].lo {
        Missing(l, i + 1, l[i].lo - 1);
        if i + 1 == |l| {
          Widened(l, i, Range(lo, l[i].hi));
          m := l[i := Range(lo, l[i].hi)];
          AddsLess(l, m, Range(lo, l[i].hi), Range(lo, hi));
        } else {
          from, done, j := l[i].lo, false, i + 1;
        }
      } else {
        news := false;
      }
    } else if i + 1 == |l| {
      Missing(l, i + 1, hi);
      if hi + 1 == l[i].lo {
        Widened(l, i, Range(lo, l[i].hi));
        m := l[i := Range(lo, l[i].hi)];
        assert forall n :: Inside(l[i], n) ==> Has(l, n);
        AddsLess(l, m, Range(lo, l[i].hi), Range(lo, hi));
      } else {
        Placed(l, i + 1, Range(lo, hi));
        m := l[..i + 1] + [Range(lo, hi)] + l[i + 1..];
      }
    } else {
      from, done, news, j := hi + 1, false, false, i + 1;
    }
  }

  class SackList {
    var items: seq<Range> // empty while the first item of the source holds its start marker

    /** Record the numbers from `lo` to `hi`; true when all of them were recorded before. */
    method Update(lo: nat, hi: nat) returns (duplicate: bool)
      requires WellFormed(items) && lo <= hi
      modifies this
      ensures WellFormed(items) && Adds(old(items), items, Range(lo, hi))
      ensures duplicate <==> forall n :: lo <= n <= hi ==> Has(old(items), n)
    {
      duplicate := true;
      if items == [] {
        items := [Range(lo, hi)];
        duplicate := false;
        Placed([], 0, Range(lo, hi));
        assert items == [] + [Range(lo, hi)] + [] && !Has(old(items), lo);
        return;
      }
      var i: nat, top: nat, done := 0, hi, false;
      while !done
        invariant WellFormed(items)
        invariant !done ==> lo <= top <= hi && i < |items| && (i > 0 ==> top < items[i - 1].lo)
        invariant Adds(old(items), items, Range(if done then lo else top + 1, hi))
        invariant duplicate ==> items == old(items)
        invariant !duplicate ==> exists n :: lo <= n <= hi && !Has(old(items), n)
        decreases !done, |items| - i
      {
        var m, j, from, stop, news := Visit(items, i, lo, top);
        if news {
          ghost var n :| lo <= n <= top && !Has(items, n);
          assert !Has(old(items), n);
          duplicate := false;
        }
        AddsChain(old(items), items, m, Range(top + 1, hi), Range(from, top), Range(from, hi));
        items, i, done := m, j, stop;
        if !done {
          top := from - 1;
        }
      }
    }

    /** Whether a packet number has been recorded. */
    method AlreadyReceived(pn: nat) returns (yes: bool)
      requires WellFormed(items)
      ensures yes <==> Has(items, pn)
    {
      var k := 0;
      while k < |items|
        invariant k <= |items| && forall j :: 0 <= j < k ==> pn < items[j].lo
      {
        if pn > items[k].hi {
          Missing(items, k, pn);
          return false;
        } else if pn >= items[k].lo {
          assert Inside(items[k], pn);
          return true;
        }
        k := k + 1;
      }
      Missing(items, k, pn);
      yes := false;
    }

    /** An acknowledgement of the range from `start` to `end` has itself been acknowledged. */
    method AckOfAck(start: nat, end: nat)
      requires WellFormed(items) && start <= end
      modifies this
      ensures items == Pruned(old(items), start, end)
    {
      if items == [] {
        return;
      }
      if items[0].lo == start {
        if end < items[0].hi {
          items := items[0 := Range(end + 1, items[0].hi)];
        } else {
          items := items[0 := Range(items[0].hi, items[0].hi)];
        }
        return;
      }
      var k := 1;
      while k < |items|
        invariant 1 <= k <= |items| && items == old(items)
        invariant Range(start, end) !in items[1..k]
      {
        if items[k] == Range(start, end) {
          FoundAt(items, k, start, end);
          items := items[..k] + items[k + 1..];
          return;
        } else if items[k].hi > end {
          assert items[1..k + 1] == items[1..k] + [items[k]];
          k := k + 1;
        } else {
          forall j | k < j < |items|
            ensures items[j] != Range(start, end)
          {
            assert items[j].hi + 1 < items[k].lo;
          }
          break;
        }
      }
      assert forall j :: 1 <= j < |items| ==> items[j] != Range(start, end) by {
        forall j | 1 <= j < |items|
          ensures items[j] != Range(start, end)
        {
          if j < k {
            assert items[1..k][j - 1] == items[j];
          }
        }
      }
    }
  }

  /** Where a range stands in the list, if it does, beyond the first item. */
  ghost predicate ListedAt(l: seq<Range>, k: nat, start: nat, end: nat) {
    0 < k < |l| && l[k] == Range(start, end)
  }

  /** Pruning: the first range keeps its last number, any other range goes when it matches exactly. */
  ghost function Pruned(l: seq<Range>, start: nat, end: nat): seq<Range> {
    if l == [] then []
    else if l[0].lo == start then l[0 := Range(if end < l[0].hi then end + 1 else l[0].hi, l[0].hi)]
    else if k: nat :| ListedAt(l, k, start, end) then l[..k] + l[k + 1..]
    else l
  }

  lemma FoundAt(l: seq<Range>, k: nat, start: nat, end: nat)
    requires WellFormed(l) && ListedAt(l, k, start, end) && l[0].lo != start && start <= end
    ensures Pruned(l, start, end) == l[..k] + l[k + 1..]
  {
  }

  /** `m` holds nothing new and misses only numbers from `start` to `end`. */
  ghost predicate Forgets(l: seq<Range>, m: seq<Range>, start: int, end: int) {
    forall n: nat :: (Has(m, n) ==> Has(l, n)) && (Has(l, n) && !Has(m, n) ==> start <= n <= end)
  }

  lemma Shrunk(a: seq<Range>, x: Range, r: Range, b: seq<Range>)
    requires WellFormed(a + [x] + b) && x.lo <= r.lo <= r.hi == x.hi
    ensures WellFormed(a + [r] + b) && Forgets(a + [x] + b, a + [r] + b, x.lo, r.lo - 1)
  {
    var l, m := a + [x] + b, a + [r] + b;
    assert forall k :: 0 <= k < |l| && k != |a| ==> l[k] == m[k];
    forall n: nat
      ensures (Has(m, n) ==> Has(l, n)) && (Has(l, n) && !Has(m, n) ==> x.lo <= n <= r.lo - 1)
    {
      HasAround(a, x, b, n);
      HasAround(a, r, b, n);
    }
  }

  lemma Dropped(a: seq<Range>, x: Range, b: seq<Range>)
    requires WellFormed(a + [x] + b)
    ensures WellFormed(a + b) && Forgets(a + [x] + b, a + b, x.lo, x.hi)
  {
    var l, m := a + [x] + b, a + b;
    assert forall k :: 0 <= k < |m| ==> m[k] == l[if k < |a| then k else k + 1];
    forall n: nat
      ensures (Has(m, n) ==> Has(l, n)) && (Has(l, n) && !Has(m, n) ==> x.lo <= n <= x.hi)
    {
      HasAround(a, x, b, n);
      HasConcat(a, b, n);
    }
  }

  lemma FirstShrunk(l: seq<Range>, lo: nat)
    requires WellFormed(l) && l != [] && l[0].lo <= lo <= l[0].hi
    ensures var m := l[0 := Range(lo, l[0].hi)]; WellFormed(m) && Forgets(l, m, l[0].lo, lo - 1)
  {
    var r := Range(lo, l[0].hi);
    Shrunk([], l[0], r, l[1..]);
    assert [] + [l[0]] + l[1..] == l && [] + [r] + l[1..] == l[0 := r];
  }

  lemma ItemDropped(l: seq<Range>, k: nat)
    requires WellFormed(l) && k < |l|
    ensures var m := l[..k] + l[k + 1..]; WellFormed(m) && Forgets(l, m, l[k].lo, l[k].hi)
  {
    assert l == l[..k] + [l[k]] + l[k + 1..];
    Dropped(l[..k], l[k], l[k + 1..]);
  }

  /** Pruning only forgets numbers of the acknowledged range, never the largest one, and keeps the
      list well formed. */
  lemma PrunedIsSafe(l: seq<Range>, start: nat, end: nat)
    requires WellFormed(l) && start <= end
    ensures WellFormed(Pruned(l, start, end)) && Forgets(l, Pruned(l, start, end), start, end)
    ensures l != [] ==> Pruned(l, start, end) != [] && Pruned(l, start, end)[0].hi == l[0].hi
  {
    if l == [] {
    } else if l[0].lo == start {
      FirstShrunk(l, if end < l[0].hi then end + 1 else l[0].hi);
    } else if k: nat :| ListedAt(l, k, start, end) {
      FoundAt(l, k, start, end);
      ItemDropped(l, k);
    }
  }
}
