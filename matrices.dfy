/** The matrix-number allocator: `MatrixCategories` reserves one half-open
    range of numbers per matrix category, and `Matrix` draws the number of every
    matrix it adds from the range of its current category, falling back to the
    `_fallback` range once that one is used up. */
module Matrices {
  import opened Wrappers
  import opened Schema
  import opened Tables
  import opened Text

  // ---------------------------------------------------------------------------
  // the category table and its order

  /** `MatrixCategories._end_block`: category to the end of its range, in the
      order of the dict literal. */
  const EndBlock: seq<(string, int)> := [
    ("Visem_Demand", 20), ("Visem_OV_Stunden", 30), ("Other_Demand", 90),
    ("OV_Demand", 100), ("DestinationChoiceSkims", 110), ("IV_Skims", 150),
    ("IV_Skims_Parking", 200), ("OV_Skims_Fare", 250), ("OV_Skims_PJT", 700),
    ("Activities", 800), ("Activities_Homebased", 900), ("Activities_Balancing", 1000),
    ("Commuters", 1100), ("VL_Activities", 1200), ("VL_Activities_Homebased", 1300),
    ("VL_Activities_OBB", 1600), ("Activities_OBB", 1700), ("OV_TimeSeries_Skims_Formula", 1800),
    ("OV_TimeSeries_Skims", 2000), ("Demand_Pgr", 4000), ("Demand_Wiver", 4500),
    ("Demand_Wiver_OBB", 5000), ("OV_Demand_Activities", 5500), ("Modes_Demand_Activities", 6000),
    ("Demand_OV_Tagesgang", 6100), ("Demand_Verkehrsleistung", 7000), ("LogsumsPendler", 7500),
    ("Logsums", 9000), ("Accessibilities", 10000)]

  /** The name of the overflow range and its (exclusive) end. */
  const Fallback: string := "_fallback"
  const FallbackEnd: int := 9999999

  predicate SortedByEnd(s: seq<(string, int)>)
  {
    forall i, j :: 0 <= i < j < |s| ==> s[i].1 <= s[j].1
  }

  /** A list whose neighbours are in order is in order. */
  lemma {:induction false} AdjacentSorted(s: seq<(string, int)>)
    requires forall k :: 0 <= k < |s| - 1 ==> s[k].1 <= s[k + 1].1
    ensures SortedByEnd(s)
  {
    if |s| > 1 {
      var rest := s[1..];
      forall k | 0 <= k < |rest| - 1 ensures rest[k].1 <= rest[k + 1].1 {
        assert rest[k] == s[k + 1] && rest[k + 1] == s[k + 2];
      }
      AdjacentSorted(rest);
      forall i, j | 0 <= i < j < |s| ensures s[i].1 <= s[j].1 {
        if 0 < i {
          assert s[i] == rest[i - 1] && s[j] == rest[j - 1];
        } else if 1 < j {
          assert s[1] == rest[0] && s[j] == rest[j - 1];
        }
      }
    }
  }

  /** The category names of a list of (category, end) pairs. */
  function NamesOf(s: seq<(string, int)>): (r: seq<string>)
    ensures |r| == |s| && forall i {:trigger r[i]} :: 0 <= i < |s| ==> r[i] == s[i].0
  {
    seq(|s|, i requires 0 <= i < |s| => s[i].0)
  }

  /** Inserts `x` after every element whose end is not larger, as a stable sort does. */
  function InsertByEnd(x: (string, int), s: seq<(string, int)>): (r: seq<(string, int)>)
    requires SortedByEnd(s)
    ensures SortedByEnd(r)
    ensures multiset(r) == multiset(s) + multiset{x}
    ensures |r| == |s| + 1
    decreases |s|, 1
  {
    if |s| == 0 then [x]
    else if s[|s| - 1].1 <= x.1 then s + [x]
    else
      var front := s[..|s| - 1];
      var rest := InsertByEnd(x, front);
      assert s == front + [s[|s| - 1]];
      assert SortedByEnd(rest + [s[|s| - 1]]) by {
        InsertedBelow(x, front, s[|s| - 1]);
      }
      rest + [s[|s| - 1]]
  }

  /** Every element of an insertion into `s` ends no later than `last`, when `x` and
      every element of `s` end no later than it. */
  lemma InsertedBelow(x: (string, int), s: seq<(string, int)>, last: (string, int))
    requires SortedByEnd(s) && SortedByEnd(s + [last]) && x.1 <= last.1
    ensures SortedByEnd(InsertByEnd(x, s) + [last])
    decreases |s|, 2
  {
    var r := InsertByEnd(x, s);
    forall i | 0 <= i < |r|
      ensures r[i].1 <= last.1
    {
      assert r[i] in multiset(r);
      if r[i] != x {
        assert r[i] in multiset(s);
        var k :| 0 <= k < |s| && s[k] == r[i];
        assert (s + [last])[k] == s[k] && (s + [last])[|s|] == last;
      }
    }
    var r' := r + [last];
    forall i, j | 0 <= i < j < |r'|
      ensures r'[i].1 <= r'[j].1
    {
      if j < |r| { assert r'[i] == r[i] && r'[j] == r[j]; }
    }
  }

  /** `sorted(_end_block.items(), key=lambda x: x[1])`: a stable sort by the end of the range. */
  function SortByEnd(s: seq<(string, int)>): (r: seq<(string, int)>)
    ensures SortedByEnd(r)
    ensures multiset(r) == multiset(s)
    ensures |r| == |s|
  {
    if |s| == 0 then []
    else
      assert s == s[..|s| - 1] + [s[|s| - 1]];
      InsertByEnd(s[|s| - 1], SortByEnd(s[..|s| - 1]))
  }

  /** A list already ordered by its ends is left as it is. */
  lemma {:induction false} SortSortedIdentity(s: seq<(string, int)>)
    requires SortedByEnd(s)
    ensures SortByEnd(s) == s
  {
    if |s| > 0 {
      SortedFront(s);
      SortSortedIdentity(s[..|s| - 1]);
      AppendInOrder(s);
      SortByEndLast(s);
    }
  }

  /** Dropping the last element keeps a list ordered by its ends. */
  lemma SortedFront(s: seq<(string, int)>)
    requires SortedByEnd(s) && |s| > 0
    ensures SortedByEnd(s[..|s| - 1])
  {
    var front := s[..|s| - 1];
    forall i, j | 0 <= i < j < |front| ensures front[i].1 <= front[j].1 {
      assert front[i] == s[i] && front[j] == s[j];
    }
  }

  /** Inserting the last element of an ordered list into the others puts it back at the end. */
  lemma AppendInOrder(s: seq<(string, int)>)
    requires SortedByEnd(s) && |s| > 0 && SortedByEnd(s[..|s| - 1])
    ensures InsertByEnd(s[|s| - 1], s[..|s| - 1]) == s
  {
    var front := s[..|s| - 1];
    if |front| > 0 {
      assert front[|front| - 1] == s[|s| - 2];
    }
    assert front + [s[|s| - 1]] == s;
  }

  /** `SortByEnd` inserts the last element into the sorted others. */
  lemma SortByEndLast(s: seq<(string, int)>)
    requires |s| > 0
    ensures SortByEnd(s) == InsertByEnd(s[|s| - 1], SortByEnd(s[..|s| - 1]))
  {
  }

  /** The ranges the constructor assigns: each category `[start, end)`, the next
      one starting where the previous one ends. */
  function Ranges(sorted: seq<(string, int)>, start: int): (r: seq<(string, int, int)>)
    ensures |r| == |sorted|
    ensures forall i {:trigger r[i]} :: 0 <= i < |r| ==> r[i].0 == sorted[i].0 && r[i].2 == sorted[i].1
    ensures forall i {:trigger r[i]} :: 0 < i < |r| ==> r[i].1 == sorted[i - 1].1
    ensures |r| > 0 ==> r[0].1 == start
  {
    if |sorted| == 0 then []
    else [(sorted[0].0, start, sorted[0].1)] + Ranges(sorted[1..], sorted[0].1)
  }

  /** Where the `_fallback` range starts: after the last boundary, or at 1. */
  function FallbackStart(sorted: seq<(string, int)>): int
  {
    if |sorted| == 0 then 1 else sorted[|sorted| - 1].1
  }

  /** Two half-open ranges that share no number. */
  predicate Apart(lo1: int, hi1: int, lo2: int, hi2: int)
  {
    hi1 <= lo2 || hi2 <= lo1 || hi1 <= lo1 || hi2 <= lo2
  }

  predicate DistinctNames(s: seq<(string, int)>)
  {
    forall i, j :: 0 <= i < j < |s| ==> s[i].0 != s[j].0
  }

  /** The ends of the category table grow from one entry to the next. */
  lemma EndBlockSorted()
    ensures SortedByEnd(EndBlock)
  {
    assert forall k :: 0 <= k < |EndBlock| - 1 ==> EndBlock[k].1 < EndBlock[k + 1].1;
    AdjacentSorted(EndBlock);
  }

  lemma EndBlockDistinctHead()
    ensures forall i, j :: 0 <= i < 7 && i < j < |EndBlock| ==> EndBlock[i].0 != EndBlock[j].0
  {
  }

  lemma EndBlockDistinctMiddle()
    ensures forall i, j :: 7 <= i < 16 && i < j < |EndBlock| ==> EndBlock[i].0 != EndBlock[j].0
  {
  }

  lemma EndBlockDistinctTail()
    ensures forall i, j :: 16 <= i < j < |EndBlock| ==> EndBlock[i].0 != EndBlock[j].0
  {
  }

  /** The category table is a dict: its names are distinct, and none is `_fallback`. */
  lemma EndBlockDistinct()
    ensures DistinctNames(EndBlock)
    ensures Fallback !in NamesOf(EndBlock)
  {
    EndBlockDistinctHead();
    EndBlockDistinctMiddle();
    EndBlockDistinctTail();
  }

  /** Reordering a list keeps its set of names. */
  lemma PermutedNames(s: seq<(string, int)>, r: seq<(string, int)>)
    requires multiset(r) == multiset(s)
    ensures forall c :: c in NamesOf(r) <==> c in NamesOf(s)
  {
    forall c ensures c in NamesOf(r) ==> c in NamesOf(s) {
      if c in NamesOf(r) {
        var i :| 0 <= i < |r| && NamesOf(r)[i] == c;
        assert r[i] in multiset(s);
        var k :| 0 <= k < |s| && s[k] == r[i];
        assert NamesOf(s)[k] == c;
      }
    }
    forall c ensures c in NamesOf(s) ==> c in NamesOf(r) {
      if c in NamesOf(s) {
        var i :| 0 <= i < |s| && NamesOf(s)[i] == c;
        assert s[i] in multiset(r);
        var k :| 0 <= k < |r| && r[k] == s[i];
        assert NamesOf(r)[k] == c;
      }
    }
  }

  /** An element at two positions occurs at least twice. */
  lemma Twice(r: seq<(string, int)>, i: nat, j: nat)
    requires i < j < |r| && r[i] == r[j]
    ensures multiset(r)[r[i]] >= 2
  {
    assert r == r[..j] + r[j..];
    assert r[i] in r[..j] && r[j] in r[j..];
    assert multiset(r) == multiset(r[..j]) + multiset(r[j..]);
  }

  /** Reordering a list with distinct names keeps its names distinct. */
  lemma PermutedDistinct(s: seq<(string, int)>, r: seq<(string, int)>)
    requires multiset(r) == multiset(s) && DistinctNames(s)
    ensures DistinctNames(r)
  {
    forall i, j | 0 <= i < j < |r| ensures r[i].0 != r[j].0 {
      if r[i].0 == r[j].0 {
        assert r[i] in multiset(s) && r[j] in multiset(s);
        var a :| 0 <= a < |s| && s[a] == r[i];
        var b :| 0 <= b < |s| && s[b] == r[j];
        if r[i] == r[j] {
          Twice(r, i, j);
          Single(s, a);
          assert false;
        } else {
          assert false;
        }
      }
    }
  }

  /** In a list with distinct names, each element occurs once. */
  lemma Single(s: seq<(string, int)>, a: nat)
    requires DistinctNames(s) && a < |s|
    ensures multiset(s)[s[a]] == 1
  {
    var front, back := s[..a], s[a + 1..];
    assert s == front + [s[a]] + back;
    assert s[a] !in front by {
      forall k | 0 <= k < |front| ensures front[k] != s[a] { assert front[k] == s[k]; }
    }
    assert s[a] !in back by {
      forall k | 0 <= k < |back| ensures back[k] != s[a] { assert back[k] == s[a + 1 + k]; }
    }
  }

  /** Maps that give every category of `sorted` its range from `Ranges`. */
  ghost predicate Assigned(sorted: seq<(string, int)>, l: map<string, int>, h: map<string, int>)
  {
    && l.Keys == h.Keys
    && (forall c :: c in l <==> c in NamesOf(sorted))
    && forall i :: 0 <= i < |sorted| ==>
         sorted[i].0 in l && l[sorted[i].0] == Ranges(sorted, 1)[i].1 && h[sorted[i].0] == Ranges(sorted, 1)[i].2
  }

  /** The position of a category among the assigned ones. */
  lemma AssignedAt(sorted: seq<(string, int)>, l: map<string, int>, h: map<string, int>, c: string)
      returns (i: nat)
    requires Assigned(sorted, l, h) && c in l
    ensures i < |sorted| && sorted[i].0 == c
    ensures l[c] == (if i == 0 then 1 else sorted[i - 1].1) && h[c] == sorted[i].1
  {
    var names := NamesOf(sorted);
    i :| 0 <= i < |names| && names[i] == c;
  }

  /** With the boundaries in order, all assigned ranges end before the
      `_fallback` range starts. */
  lemma AssignedBelow(sorted: seq<(string, int)>, l: map<string, int>, h: map<string, int>)
    requires SortedByEnd(sorted) && Assigned(sorted, l, h)
    ensures forall c :: c in h ==> h[c] <= FallbackStart(sorted)
  {
    forall c | c in h ensures h[c] <= FallbackStart(sorted) {
      var i := AssignedAt(sorted, l, h, c);
    }
  }

  /** With the boundaries in order, the assigned ranges are pairwise apart. */
  lemma AssignedApart(sorted: seq<(string, int)>, l: map<string, int>, h: map<string, int>)
    requires SortedByEnd(sorted) && Assigned(sorted, l, h)
    ensures forall c, d :: c in l && d in l && c != d ==> Apart(l[c], h[c], l[d], h[d])
  {
    forall c, d | c in l && d in l && c != d ensures Apart(l[c], h[c], l[d], h[d]) {
      var i := AssignedAt(sorted, l, h, c);
      var j := AssignedAt(sorted, l, h, d);
      if i < j {
        assert h[c] <= l[d];
      } else {
        assert i != j;
        assert h[d] <= l[c];
      }
    }
  }

  /** Every cursor is at or after the start of its range. */
  predicate CursorsFrom(lo: map<string, int>, cursor: map<string, int>)
  {
    forall c :: c in lo && c in cursor ==> lo[c] <= cursor[c]
  }

  /** The ranges share no number. */
  predicate RangesApart(lo: map<string, int>, hi: map<string, int>)
  {
    forall c, d :: c in lo && c in hi && d in lo && d in hi && c != d ==> Apart(lo[c], hi[c], lo[d], hi[d])
  }

  /** A number handed out that lies in a range lies before that range's cursor. */
  ghost predicate IssuedBelow(lo: map<string, int>, hi: map<string, int>, cursor: map<string, int>, issued: set<int>)
  {
    forall c, n :: c in lo && c in hi && c in cursor && n in issued && lo[c] <= n < hi[c] ==> n < cursor[c]
  }

  /** Handing out the cursor of `c` and moving it on: the number is new, and the
      cursors still bound what was handed out. */
  lemma DrawStep(lo: map<string, int>, hi: map<string, int>, cursor: map<string, int>, issued: set<int>, c: string)
    requires lo.Keys == hi.Keys == cursor.Keys && c in lo && cursor[c] < hi[c]
    requires CursorsFrom(lo, cursor) && RangesApart(lo, hi) && IssuedBelow(lo, hi, cursor, issued)
    ensures cursor[c] !in issued
    ensures CursorsFrom(lo, cursor[c := cursor[c] + 1])
    ensures IssuedBelow(lo, hi, cursor[c := cursor[c] + 1], issued + {cursor[c]})
  {
    var n := cursor[c];
    var cur', iss' := cursor[c := n + 1], issued + {n};
    forall d, m | d in lo && d in hi && d in cur' && m in iss' && lo[d] <= m < hi[d] ensures m < cur'[d] {
      if m == n && d != c {
        assert false;
      }
    }
  }

  /** A range starting after every range of `h` ends is apart from each of them. */
  lemma FallbackApart(l: map<string, int>, h: map<string, int>, start: int)
    requires l.Keys == h.Keys && Fallback !in l
    requires forall c :: c in h ==> h[c] <= start
    requires forall c, d :: c in l && d in l && c != d ==> Apart(l[c], h[c], l[d], h[d])
    ensures RangesApart(l[Fallback := start], h[Fallback := FallbackEnd])
  {
    var l', h' := l[Fallback := start], h[Fallback := FallbackEnd];
    forall c, d | c in l' && c in h' && d in l' && d in h' && c != d ensures Apart(l'[c], h'[c], l'[d], h'[d]) {
      if c != Fallback && d != Fallback {
        assert Apart(l[c], h[c], l[d], h[d]);
      }
    }
  }

  /** The ranges of the first `k` categories are assigned. */
  ghost predicate AssignedUpTo(sorted: seq<(string, int)>, l: map<string, int>, h: map<string, int>, k: nat)
    requires k <= |sorted|
  {
    && l.Keys == h.Keys
    && KeysUpTo(NamesOf(sorted), l, k)
    && ValuesUpTo(NamesOf(sorted), Ranges(sorted, 1), l, h, k)
  }

  /** The keys of `l` are the first `k` names. */
  ghost predicate KeysUpTo(names: seq<string>, l: map<string, int>, k: nat)
    requires k <= |names|
  {
    forall c :: c in l <==> c in names[..k]
  }

  /** The first `k` names have the ranges of `rs`. */
  predicate ValuesUpTo(names: seq<string>, rs: seq<(string, int, int)>, l: map<string, int>, h: map<string, int>, k: nat)
    requires k <= |names| == |rs|
  {
    forall i :: 0 <= i < k ==> names[i] in l && names[i] in h && l[names[i]] == rs[i].1 && h[names[i]] == rs[i].2
  }

  /** One more round of the constructor's loop. */
  lemma AssignStep(sorted: seq<(string, int)>, l: map<string, int>, h: map<string, int>, k: nat)
    requires DistinctNames(sorted) && k < |sorted| && AssignedUpTo(sorted, l, h, k)
    ensures AssignedUpTo(sorted, l[sorted[k].0 := Ranges(sorted, 1)[k].1], h[sorted[k].0 := sorted[k].1], k + 1)
  {
    var names, rs := NamesOf(sorted), Ranges(sorted, 1);
    assert sorted[k].0 == names[k] && sorted[k].1 == rs[k].2;
    NamesBefore(sorted, k);
    KeysStep(names, l, k, rs[k].1);
    ValuesStep(names, rs, l, h, k);
  }

  /** No name before position `k` is the name at `k`. */
  lemma NamesBefore(sorted: seq<(string, int)>, k: nat)
    requires DistinctNames(sorted) && k < |sorted|
    ensures forall i :: 0 <= i < k ==> NamesOf(sorted)[i] != NamesOf(sorted)[k]
  {
  }

  lemma KeysStep(names: seq<string>, l: map<string, int>, k: nat, v: int)
    requires k < |names| && KeysUpTo(names, l, k)
    ensures KeysUpTo(names, l[names[k] := v], k + 1)
  {
    assert names[..k + 1] == names[..k] + [names[k]];
  }

  lemma ValuesStep(names: seq<string>, rs: seq<(string, int, int)>, l: map<string, int>, h: map<string, int>, k: nat)
    requires k < |names| == |rs| && ValuesUpTo(names, rs, l, h, k)
    requires forall i :: 0 <= i < k ==> names[i] != names[k]
    ensures ValuesUpTo(names, rs, l[names[k] := rs[k].1], h[names[k] := rs[k].2], k + 1)
  {
  }

  /** Once every category is assigned, the maps are those of `Assigned`. */
  lemma AssignDone(sorted: seq<(string, int)>, l: map<string, int>, h: map<string, int>)
    requires AssignedUpTo(sorted, l, h, |sorted|)
    ensures Assigned(sorted, l, h)
  {
    var names, rs := NamesOf(sorted), Ranges(sorted, 1);
    assert names[..|sorted|] == names;
    assert forall c :: c in l <==> c in names;
    forall i | 0 <= i < |sorted|
      ensures sorted[i].0 in l && l[sorted[i].0] == rs[i].1 && h[sorted[i].0] == rs[i].2
    {
      assert names[i] == sorted[i].0;
    }
  }

  /** The loop of the constructor: one range for each category of the sorted
      list, each starting where the previous one ended (the first at 1). */
  method AssignRanges(sorted: seq<(string, int)>) returns (l: map<string, int>, h: map<string, int>)
    requires DistinctNames(sorted)
    ensures Assigned(sorted, l, h)
  {
    l, h := map[], map[];
    var start := 1;
    var k := 0;
    while k < |sorted|
      invariant 0 <= k <= |sorted| && AssignedUpTo(sorted, l, h, k)
      invariant k < |sorted| ==> start == Ranges(sorted, 1)[k].1
    {
      AssignStep(sorted, l, h, k);
      l, h := l[sorted[k].0 := start], h[sorted[k].0 := sorted[k].1];
      start := sorted[k].1;
      k := k + 1;
    }
    AssignDone(sorted, l, h);
  }

  /** The ranges of `MatrixCategories()`: every category of the table sorted by
      end, each from where the previous one ended (the first from 1), and
      `_fallback` from the last end up to 9999999. */
  ghost predicate Allotted(endBlock: seq<(string, int)>, l: map<string, int>, h: map<string, int>)
  {
    var sorted := SortByEnd(endBlock);
    && l.Keys == h.Keys
    && (forall c :: c in l <==> c in NamesOf(endBlock) || c == Fallback)
    && (forall i :: 0 <= i < |sorted| ==>
          && sorted[i].0 in l && sorted[i].0 != Fallback
          && l[sorted[i].0] == Ranges(sorted, 1)[i].1 && h[sorted[i].0] == Ranges(sorted, 1)[i].2)
    && l[Fallback] == FallbackStart(sorted) && h[Fallback] == FallbackEnd
  }

  /** The ranges of the constructor, which share no number. */
  method Allot(endBlock: seq<(string, int)>) returns (l: map<string, int>, h: map<string, int>)
    requires DistinctNames(endBlock) && Fallback !in NamesOf(endBlock)
    ensures Allotted(endBlock, l, h) && RangesApart(l, h)
  {
    var sorted := SortByEnd(endBlock);
    PermutedNames(endBlock, sorted);
    PermutedDistinct(endBlock, sorted);
    var l0, h0 := AssignRanges(sorted);
    AssignedBelow(sorted, l0, h0);
    AssignedApart(sorted, l0, h0);
    var start := FallbackStart(sorted);
    assert Fallback !in l0;
    l, h := l0[Fallback := start], h0[Fallback := FallbackEnd];
    FallbackApart(l0, h0, start);
  }

  // ---------------------------------------------------------------------------
  // the allocator

  /** A dict of iterators over ranges: category `c` hands out `cursor[c]`,
      `cursor[c] + 1`, ... up to `hi[c]` (exclusive). `issued` holds every number
      handed out so far. */
  class MatrixCategories {
    var lo: map<string, int>
    var hi: map<string, int>
    var cursor: map<string, int>
    ghost var issued: set<int>

    /** The ranges are pairwise apart, every cursor is within its range, and
        a number handed out that lies in a range lies before that range's cursor. */
    ghost predicate Valid()
      reads this
    {
      && lo.Keys == hi.Keys == cursor.Keys
      && Fallback in lo
      && CursorsFrom(lo, cursor)
      && RangesApart(lo, hi)
      && IssuedBelow(lo, hi, cursor, issued)
    }

    /** `MatrixCategories()`: the categories sorted by end, each from where the
        previous one ended (the first from 1), then `_fallback` up to 9999999. */
    constructor (endBlock: seq<(string, int)>)
      requires DistinctNames(endBlock) && Fallback !in NamesOf(endBlock)
      ensures Valid() && issued == {} && cursor == lo
      ensures Allotted(endBlock, lo, hi)
    {
      var l, h := Allot(endBlock);
      lo, hi, cursor := l, h, l;
      issued := {};
    }

    /** `next(self[c])`: the cursor of `c` while its range lasts, StopIteration
        once it is used up, KeyError for an unknown category. */
    method Draw(c: string) returns (r: Result<int>)
      requires Valid()
      modifies this`cursor, this`issued
      ensures Valid() && lo == old(lo) && hi == old(hi)
      ensures c !in lo ==> r == Err(KeyError(c))
      ensures c in lo && old(cursor)[c] >= hi[c] ==> r == Err(StopIteration)
      ensures c in lo && old(cursor)[c] < hi[c] ==>
                && r == Ok(old(cursor)[c])
                && cursor == old(cursor)[c := old(cursor)[c] + 1]
                && issued == old(issued) + {old(cursor)[c]}
                && old(cursor)[c] !in old(issued)
      ensures r.Err? ==> cursor == old(cursor) && issued == old(issued)
    {
      if c !in cursor {
        return Err(KeyError(c));
      }
      var n := cursor[c];
      if n >= hi[c] {
        return Err(StopIteration);
      }
      DrawStep(lo, hi, cursor, issued, c);
      cursor := cursor[c := n + 1];
      issued := issued + {n};
      return Ok(n);
    }
  }

  // ---------------------------------------------------------------------------
  // the matrix table

  /** The columns of `Matrix`, in the pieces the class writes its column string in. */
  const MatrixColsIdentity: seq<string> :=
    ["NR", "CODE", "NAME", "MATRIXTYP", "BEZUGSTYP", "NSEGCODE", "NSCHICHTSET", "DATNAME"]
  const MatrixColsSource: seq<string> :=
    ["ANZDEZSTELLEN", "DATENQUELLENTYP", "FORMEL", "TAG", "VONZEIT", "BISZEIT", "ZEITBEZUG"]
  const MatrixColsSegment: seq<string> :=
    ["MODUSCODE", "MODUSSET", "PERSONENGRUPPENSET", "PGRUPPENCODE", "AKTIVCODE"]
  const MatrixColsActivities: seq<string> := ["QUELLAKTIVITAETSET", "ZIELAKTIVITAETSET"]
  const MatrixColsStorage: seq<string> := ["INITMATRIX", "SAVEMATRIX", "LOADMATRIX", "MATRIXFOLDER"]
  const MatrixColsModel: seq<string> := ["CALIBRATIONCODE", "NACHFRMODELLCODE", "CATEGORY"]

  const MatrixCols: seq<string> :=
    MatrixColsIdentity + MatrixColsSource + MatrixColsSegment + MatrixColsActivities +
    MatrixColsStorage + MatrixColsModel

  const MatrixDefaults: map<string, Value> :=
    map["ANZDEZSTELLEN" := VInt(2), "MATRIXTYP" := VStr("Nachfrage"), "BEZUGSTYP" := VStr("Bezirk"),
        "INITMATRIX" := VInt(0), "SAVEMATRIX" := VInt(0), "LOADMATRIX" := VInt(0)]

  /** The `Matrix` table class: code MATRIX, keyed by its first column NR; its `__init__` takes no `mode`. */
  const MatrixClass: TableClass := TableClass("MATRIX", "Matrizen", Join(MatrixCols, ";"), "", MatrixDefaults, "+", false)

  /** Once `Matrix` is registered, `self.visum_tables['MATRIX'](mode=mode)` in the read
      scan raises TypeError, as `Matrix.__init__` takes no `mode`: a file holding a
      MATRIX section cannot be read back. */
  lemma MatrixSectionRefused(reg: Registry)
    ensures var r := Register(reg, MatrixClass);
            "MATRIX" in r && !Opens(r, "MATRIX")
  {
  }

  lemma PlainIdentity()
    ensures PlainColumns(MatrixColsIdentity)
  {
  }

  lemma PlainSource()
    ensures PlainColumns(MatrixColsSource)
  {
  }

  lemma PlainSegment()
    ensures PlainColumns(MatrixColsSegment)
  {
  }

  lemma PlainActivities()
    ensures PlainColumns(MatrixColsActivities)
  {
  }

  lemma PlainStorage()
    ensures PlainColumns(MatrixColsStorage)
  {
  }

  lemma PlainModel()
    ensures PlainColumns(MatrixColsModel)
  {
  }

  /** Reading the column string of `Matrix` back gives its 29 columns. */
  lemma MatrixColumns()
    ensures ColsOf(MatrixClass.cols) == MatrixCols
    ensures |MatrixCols| == 29
  {
    PlainIdentity();
    PlainSource();
    PlainSegment();
    PlainActivities();
    PlainStorage();
    PlainModel();
    PlainConcat(MatrixColsIdentity, MatrixColsSource);
    PlainConcat(MatrixColsIdentity + MatrixColsSource, MatrixColsSegment);
    PlainConcat(MatrixColsIdentity + MatrixColsSource + MatrixColsSegment, MatrixColsActivities);
    PlainConcat(MatrixColsIdentity + MatrixColsSource + MatrixColsSegment + MatrixColsActivities,
                MatrixColsStorage);
    PlainConcat(MatrixColsIdentity + MatrixColsSource + MatrixColsSegment + MatrixColsActivities +
                MatrixColsStorage, MatrixColsModel);
    ColsOfJoin(MatrixCols);
  }

  /** Columns carrying, at the positions of `Matrix`, the fields the add methods set. */
  predicate MatrixFieldsAt(cols: seq<string>)
  {
    && |cols| >= 29 && cols[0] == "NR"
    && FieldName(cols[0]) == "nr" && FieldName(cols[1]) == "code" && FieldName(cols[2]) == "name"
    && FieldName(cols[7]) == "datname" && FieldName(cols[9]) == "datenquellentyp"
    && FieldName(cols[10]) == "formel" && FieldName(cols[24]) == "loadmatrix"
    && FieldName(cols[25]) == "matrixfolder" && FieldName(cols[28]) == "category"
  }

  lemma IdentityFields()
    ensures FieldName("NR") == "nr" && FieldName("CODE") == "code" && FieldName("NAME") == "name"
    ensures FieldName("DATNAME") == "datname"
  {
    FieldOf("NR", "nr");
    FieldOf("CODE", "code");
    FieldOf("NAME", "name");
    FieldOf("DATNAME", "datname");
  }

  lemma SourceFields()
    ensures FieldName("DATENQUELLENTYP") == "datenquellentyp" && FieldName("FORMEL") == "formel"
  {
    FieldOf("DATENQUELLENTYP", "datenquellentyp");
    FieldOf("FORMEL", "formel");
  }

  lemma StorageFields()
    ensures FieldName("LOADMATRIX") == "loadmatrix" && FieldName("MATRIXFOLDER") == "matrixfolder"
    ensures FieldName("CATEGORY") == "category"
  {
    FieldOf("LOADMATRIX", "loadmatrix");
    FieldOf("MATRIXFOLDER", "matrixfolder");
    FieldOf("CATEGORY", "category");
  }

  /** The columns of `Matrix` carry the fields the add methods set where `Row` expects them. */
  lemma MatrixFields()
    ensures MatrixFieldsAt(MatrixCols)
  {
    IdentityFields();
    SourceFields();
    StorageFields();
    assert MatrixCols[0] == "NR" && MatrixCols[1] == "CODE" && MatrixCols[2] == "NAME";
    assert MatrixCols[7] == "DATNAME" && MatrixCols[9] == "DATENQUELLENTYP" && MatrixCols[10] == "FORMEL";
    assert MatrixCols[24] == "LOADMATRIX" && MatrixCols[25] == "MATRIXFOLDER" && MatrixCols[28] == "CATEGORY";
  }

  /** A matrix table: the columns of `Matrix`, keyed by its first column NR. */
  predicate MatrixShaped(t: VisumTable)
    reads t
  {
    t.Cols() == MatrixCols && t.pkeyRaw == ""
  }

  /** A key of the keyed frame that is a number handed out. */
  predicate IssuedKey(key: seq<Value>, issued: set<int>)
  {
    |key| == 1 && key[0].VInt? && key[0].i in issued
  }

  /** Every key of a keyed frame is a number handed out. */
  predicate AllIssued(frame: seq<Entry>, issued: set<int>)
  {
    forall i :: 0 <= i < |frame| ==> IssuedKey(frame[i].key, issued)
  }

  /** Appending an entry keyed by a number handed out keeps every key handed out. */
  lemma AllIssuedAppend(frame: seq<Entry>, e: Entry, issued: set<int>)
    requires AllIssued(frame, issued) && IssuedKey(e.key, issued)
    ensures AllIssued(frame + [e], issued)
  {
    forall i | 0 <= i < |frame + [e]| ensures IssuedKey((frame + [e])[i].key, issued) {
      if i < |frame| { assert (frame + [e])[i] == frame[i]; }
    }
  }

  /** Handing out more numbers keeps every key handed out. */
  lemma AllIssuedGrow(frame: seq<Entry>, issued: set<int>, more: set<int>)
    requires AllIssued(frame, issued) && issued <= more
    ensures AllIssued(frame, more)
  {
  }

  /** The keyword arguments `add_daten_matrix` passes to `Row`, besides `**kwargs`. */
  function DatenOverrides(nr: int, code: string, name: string, loadmatrix: Value, matrixfolder: string,
                          datname: string, category: string): map<string, Value>
  {
    map["nr" := VInt(nr), "code" := VStr(code), "name" := VStr(name), "datenquellentyp" := VStr("DATEN"),
        "loadmatrix" := loadmatrix, "matrixfolder" := VStr(matrixfolder), "datname" := VStr(datname),
        "category" := VStr(category)]
  }

  /** The keyword arguments `add_formel_matrix` passes to `Row`, besides `**kwargs`. */
  function FormelOverrides(nr: int, code: string, formel: string, name: string, datname: string,
                           category: string): map<string, Value>
  {
    map["nr" := VInt(nr), "code" := VStr(code), "formel" := VStr(formel), "name" := VStr(name),
        "loadmatrix" := VInt(0), "datenquellentyp" := VStr("FORMEL"), "datname" := VStr(datname),
        "category" := VStr(category)]
  }

  /** Both sets of keyword arguments carry the number under `nr`. */
  lemma OverridesNumber(nr: int, code: string, formel: string, name: string, loadmatrix: Value,
                        matrixfolder: string, datname: string, category: string)
    ensures var d := DatenOverrides(nr, code, name, loadmatrix, matrixfolder, datname, category);
            "nr" in d && d["nr"] == VInt(nr)
    ensures var f := FormelOverrides(nr, code, formel, name, datname, category);
            "nr" in f && f["nr"] == VInt(nr)
  {
  }

  /** `a or b` on strings. */
  function Or(a: string, b: string): string
  {
    if a == "" then b else a
  }

  /** A row made from `fixed` and keyword arguments that do not repeat them carries
      the fixed value of a field in the column of that field. */
  lemma FixedCell(cols: seq<string>, defaults: map<string, Value>, fixed: map<string, Value>,
                  kwargs: map<string, Value>, i: nat, f: string)
    requires fixed.Keys !! kwargs.Keys
    requires MakeRow(cols, defaults, fixed + kwargs).Ok?
    requires i < |cols| && FieldName(cols[i]) == f && f in fixed
    ensures MakeRow(cols, defaults, fixed + kwargs).value[i] == fixed[f]
  {
  }

  /** A data matrix row holds its number, its code, `name or code`, `datname or code`,
      source type DATEN, the folder, the load flag and `category or matrix_category`. */
  lemma DatenRow(cols: seq<string>, defaults: map<string, Value>, nr: int, code: string, name: string,
                 loadmatrix: Value, matrixfolder: string, datname: string, category: string,
                 matrixCategory: string, kwargs: map<string, Value>)
    requires MatrixFieldsAt(cols)
    requires var fixed := DatenOverrides(nr, code, Or(name, code), loadmatrix, matrixfolder, Or(datname, code),
                                         Or(category, matrixCategory));
             fixed.Keys !! kwargs.Keys && MakeRow(cols, defaults, fixed + kwargs).Ok?
    ensures var row := MakeRow(cols, defaults,
                               DatenOverrides(nr, code, Or(name, code), loadmatrix, matrixfolder, Or(datname, code),
                                              Or(category, matrixCategory)) + kwargs).value;
            && row[0] == VInt(nr) && row[1] == VStr(code)
            && row[2] == VStr(if name == "" then code else name)
            && row[7] == VStr(if datname == "" then code else datname)
            && row[9] == VStr("DATEN") && row[24] == loadmatrix && row[25] == VStr(matrixfolder)
            && row[28] == VStr(if category == "" then matrixCategory else category)
  {
    var fixed := DatenOverrides(nr, code, Or(name, code), loadmatrix, matrixfolder, Or(datname, code),
                                Or(category, matrixCategory));
    IdentityCells(cols, defaults, fixed, kwargs, nr, code, name, datname);
    SourceCells(cols, defaults, fixed, kwargs, VStr("DATEN"), loadmatrix, Or(category, matrixCategory));
    FixedCell(cols, defaults, fixed, kwargs, 25, "matrixfolder");
  }

  /** A row made from keyword arguments that give DATENQUELLENTYP, LOADMATRIX and
      CATEGORY holds them. */
  lemma SourceCells(cols: seq<string>, defaults: map<string, Value>, fixed: map<string, Value>,
                    kwargs: map<string, Value>, source: Value, loadmatrix: Value, category: string)
    requires MatrixFieldsAt(cols)
    requires fixed.Keys !! kwargs.Keys && MakeRow(cols, defaults, fixed + kwargs).Ok?
    requires "datenquellentyp" in fixed && fixed["datenquellentyp"] == source
    requires "loadmatrix" in fixed && fixed["loadmatrix"] == loadmatrix
    requires "category" in fixed && fixed["category"] == VStr(category)
    ensures var row := MakeRow(cols, defaults, fixed + kwargs).value;
            row[9] == source && row[24] == loadmatrix && row[28] == VStr(category)
  {
    FixedCell(cols, defaults, fixed, kwargs, 9, "datenquellentyp");
    FixedCell(cols, defaults, fixed, kwargs, 24, "loadmatrix");
    FixedCell(cols, defaults, fixed, kwargs, 28, "category");
  }

  /** A row made from keyword arguments that give NR, CODE, NAME and DATNAME holds them. */
  lemma IdentityCells(cols: seq<string>, defaults: map<string, Value>, fixed: map<string, Value>,
                      kwargs: map<string, Value>, nr: int, code: string, name: string, datname: string)
    requires MatrixFieldsAt(cols)
    requires fixed.Keys !! kwargs.Keys && MakeRow(cols, defaults, fixed + kwargs).Ok?
    requires "nr" in fixed && fixed["nr"] == VInt(nr) && "code" in fixed && fixed["code"] == VStr(code)
    requires "name" in fixed && fixed["name"] == VStr(Or(name, code))
    requires "datname" in fixed && fixed["datname"] == VStr(Or(datname, code))
    ensures var row := MakeRow(cols, defaults, fixed + kwargs).value;
            && row[0] == VInt(nr) && row[1] == VStr(code)
            && row[2] == VStr(if name == "" then code else name)
            && row[7] == VStr(if datname == "" then code else datname)
  {
    FixedCell(cols, defaults, fixed, kwargs, 0, "nr");
    FixedCell(cols, defaults, fixed, kwargs, 1, "code");
    FixedCell(cols, defaults, fixed, kwargs, 2, "name");
    FixedCell(cols, defaults, fixed, kwargs, 7, "datname");
  }

  /** A formula matrix row holds its number, its code, its formula, `name or code`,
      `datname or code`, source type FORMEL, load flag 0 and `category or matrix_category`. */
  lemma FormelRow(cols: seq<string>, defaults: map<string, Value>, nr: int, code: string, formel: string,
                  name: string, datname: string, category: string, matrixCategory: string,
                  kwargs: map<string, Value>)
    requires MatrixFieldsAt(cols)
    requires var fixed := FormelOverrides(nr, code, formel, Or(name, code), Or(datname, code),
                                          Or(category, matrixCategory));
             fixed.Keys !! kwargs.Keys && MakeRow(cols, defaults, fixed + kwargs).Ok?
    ensures var row := MakeRow(cols, defaults,
                               FormelOverrides(nr, code, formel, Or(name, code), Or(datname, code),
                                               Or(category, matrixCategory)) + kwargs).value;
            && row[0] == VInt(nr) && row[1] == VStr(code) && row[10] == VStr(formel)
            && row[2] == VStr(if name == "" then code else name)
            && row[7] == VStr(if datname == "" then code else datname)
            && row[9] == VStr("FORMEL") && row[24] == VInt(0)
            && row[28] == VStr(if category == "" then matrixCategory else category)
  {
    var fixed := FormelOverrides(nr, code, formel, Or(name, code), Or(datname, code),
                                 Or(category, matrixCategory));
    IdentityCells(cols, defaults, fixed, kwargs, nr, code, name, datname);
    SourceCells(cols, defaults, fixed, kwargs, VStr("FORMEL"), VInt(0), Or(category, matrixCategory));
    FixedCell(cols, defaults, fixed, kwargs, 10, "formel");
  }

  /** The ranges assigned to a category table already ordered by its ends: each
      category runs from the end of the one before it (the first from 1). */
  lemma SortedAssigned(s: seq<(string, int)>, l: map<string, int>, h: map<string, int>)
    requires SortedByEnd(s)
    requires var sorted := SortByEnd(s);
             forall i :: 0 <= i < |sorted| ==>
               && sorted[i].0 in l && sorted[i].0 in h
               && l[sorted[i].0] == Ranges(sorted, 1)[i].1 && h[sorted[i].0] == Ranges(sorted, 1)[i].2
    ensures forall i :: 0 <= i < |s| ==>
              && s[i].0 in l && s[i].0 in h
              && l[s[i].0] == (if i == 0 then 1 else s[i - 1].1) && h[s[i].0] == s[i].1
    ensures FallbackStart(SortByEnd(s)) == FallbackStart(s)
  {
    SortSortedIdentity(s);
    var sorted := SortByEnd(s);
    var rs := Ranges(sorted, 1);
    forall i | 0 <= i < |s|
      ensures && s[i].0 in l && s[i].0 in h
              && l[s[i].0] == (if i == 0 then 1 else s[i - 1].1) && h[s[i].0] == s[i].1
    {
      assert sorted[i] == s[i];
      assert i > 0 ==> sorted[i - 1] == s[i - 1];
      assert rs[i].1 == (if i == 0 then 1 else s[i - 1].1) && rs[i].2 == s[i].1;
    }
  }

  /** The allocator built from a category table already ordered by its ends. */
  method SortedCategories(s: seq<(string, int)>) returns (b: MatrixCategories)
    requires SortedByEnd(s) && DistinctNames(s) && Fallback !in NamesOf(s)
    ensures fresh(b) && b.Valid() && b.issued == {} && b.cursor == b.lo
    ensures forall c :: c in b.lo <==> c in NamesOf(s) || c == Fallback
    ensures forall i :: 0 <= i < |s| ==>
              && s[i].0 in b.lo && b.lo[s[i].0] == (if i == 0 then 1 else s[i - 1].1) && b.hi[s[i].0] == s[i].1
    ensures b.lo[Fallback] == FallbackStart(s) && b.hi[Fallback] == FallbackEnd
  {
    b := new MatrixCategories(s);
    SortedAssigned(s, b.lo, b.hi);
  }

  /** `Matrix`: the matrix table, its allocator and the current category. */
  class Matrix {
    const table: VisumTable
    const numberBlock: MatrixCategories
    var matrixCategory: string

    /** Every key of the keyed frame is a number the allocator handed out. */
    ghost predicate Valid()
      reads this, table, numberBlock
    {
      && table.Valid() && numberBlock.Valid() && MatrixShaped(table)
      && AllIssued(table.frame, numberBlock.issued)
    }

    /** `Matrix()`: an empty matrix table, no category set, every range untouched. */
    constructor ()
      ensures Valid() && fresh(table) && fresh(numberBlock)
      ensures matrixCategory == "" && table.table == [] && table.frame == [] && numberBlock.issued == {}
      ensures table.code == "MATRIX" && table.Cols() == MatrixCols
      ensures numberBlock.cursor == numberBlock.lo
      ensures forall c :: c in numberBlock.lo <==> c in NamesOf(EndBlock) || c == Fallback
      ensures forall i :: 0 <= i < |EndBlock| ==>
                && EndBlock[i].0 in numberBlock.lo
                && numberBlock.lo[EndBlock[i].0] == (if i == 0 then 1 else EndBlock[i - 1].1)
                && numberBlock.hi[EndBlock[i].0] == EndBlock[i].1
      ensures numberBlock.lo[Fallback] == 10000 && numberBlock.hi[Fallback] == FallbackEnd
    {
      EndBlockDistinct();
      EndBlockSorted();
      var b := SortedCategories(EndBlock);
      table := new VisumTable(MatrixClass, None);
      numberBlock := b;
      matrixCategory := "";
      new;
      MatrixColumns();
      MatrixFields();
      assert FallbackStart(EndBlock) == 10000;
    }

    /** `set_category`: only the category changes; no number is drawn. */
    method SetCategory(c: string)
      modifies this`matrixCategory
      ensures matrixCategory == c
    {
      matrixCategory := c;
    }

    /** `matrix_numbers`: the next number and the end of the current category's
        range; KeyError for the initial '' and every unknown category. */
    function MatrixNumbers(): (r: Result<(int, int)>)
      reads this, numberBlock
      ensures r.Ok? <==> matrixCategory in numberBlock.cursor && matrixCategory in numberBlock.hi
      ensures r.Err? ==> r.error == KeyError(matrixCategory)
      ensures r.Ok? ==> r.value == (numberBlock.cursor[matrixCategory], numberBlock.hi[matrixCategory])
    {
      if matrixCategory in numberBlock.cursor && matrixCategory in numberBlock.hi
      then Ok((numberBlock.cursor[matrixCategory], numberBlock.hi[matrixCategory]))
      else Err(KeyError(matrixCategory))
    }

    /** The number `next_number` hands out next: the current category's cursor
        while its range lasts, else the cursor of `_fallback`. */
    function Upcoming(): (r: Result<int>)
      reads this, numberBlock
      ensures r.Ok? ==> r.value in numberBlock.cursor.Values
      ensures matrixCategory !in numberBlock.cursor ==> r == Err(KeyError(matrixCategory))
    {
      var b := numberBlock;
      if matrixCategory !in b.cursor || matrixCategory !in b.hi then Err(KeyError(matrixCategory))
      else if b.cursor[matrixCategory] < b.hi[matrixCategory] then Ok(b.cursor[matrixCategory])
      else if Fallback !in b.cursor || Fallback !in b.hi then Err(KeyError(Fallback))
      else if b.cursor[Fallback] < b.hi[Fallback] then Ok(b.cursor[Fallback])
      else Err(StopIteration)
    }

    /** The cursors after `next_number`: the current category's cursor advances while
        its range lasts, else the cursor of `_fallback`; a failed draw moves none. */
    function CursorAfter(): map<string, int>
      reads this, numberBlock
    {
      var b, c := numberBlock, matrixCategory;
      if c in b.cursor && c in b.hi && b.cursor[c] < b.hi[c] then b.cursor[c := b.cursor[c] + 1]
      else if c in b.cursor && c in b.hi && Fallback in b.cursor && Fallback in b.hi
              && b.cursor[Fallback] < b.hi[Fallback] then b.cursor[Fallback := b.cursor[Fallback] + 1]
      else b.cursor
    }

    /** `next_number`: the next number of the current category; once that is
        used up, the next number of `_fallback`. A number is never handed out twice. */
    method NextNumber() returns (r: Result<int>)
      requires Valid()
      modifies numberBlock`cursor, numberBlock`issued
      ensures Valid()
      ensures numberBlock.lo == old(numberBlock.lo) && numberBlock.hi == old(numberBlock.hi)
      ensures r.Ok? ==> r.value !in old(numberBlock.issued) && numberBlock.issued == old(numberBlock.issued) + {r.value}
      ensures r.Err? ==> numberBlock.cursor == old(numberBlock.cursor) && numberBlock.issued == old(numberBlock.issued)
      ensures r == old(Upcoming()) && numberBlock.cursor == old(CursorAfter())
      ensures var c, lo, hi, cur := matrixCategory, numberBlock.lo, numberBlock.hi, old(numberBlock.cursor);
              && (c !in lo ==> r == Err(KeyError(c)))
              && (c in lo && cur[c] < hi[c] ==> r == Ok(cur[c]) && numberBlock.cursor == cur[c := cur[c] + 1])
              && (c in lo && cur[c] >= hi[c] && cur[Fallback] < hi[Fallback] ==>
                    r == Ok(cur[Fallback]) && numberBlock.cursor == cur[Fallback := cur[Fallback] + 1])
              && (c in lo && cur[c] >= hi[c] && cur[Fallback] >= hi[Fallback] ==> r == Err(StopIteration))
    {
      ghost var before := numberBlock.issued;
      r := numberBlock.Draw(matrixCategory);
      if r == Err(StopIteration) {
        r := numberBlock.Draw(Fallback);
      }
      AllIssuedGrow(table.frame, before, numberBlock.issued);
    }

    /** The number `next_number` hands out next was never handed out before, and
        an unknown category is a KeyError. */
    lemma UpcomingFresh()
      requires Valid()
      ensures Upcoming().Ok? ==> Upcoming().value !in numberBlock.issued
      ensures matrixCategory !in numberBlock.lo ==> Upcoming() == Err(KeyError(matrixCategory))
    {
    }

    /** A frame whose keys are all handed out does not hold a number not yet handed out. */
    lemma FreshKey(n: int)
      requires Valid() && n !in numberBlock.issued
      ensures [VInt(n)] !in KeysOf(table.frame)
    {
    }

    /** The key of a row of a matrix table is its number. */
    lemma NumberKey(row: Row)
      requires MatrixShaped(table) && |row| == |table.Cols()|
      ensures KeyPositions(table.Cols(), table.Pkey()) == Ok([0])
      ensures Project(row, [0]) == [row[0]]
    {
      MatrixFields();
      var cols, key := table.Cols(), table.Pkey();
      assert key == ["NR"];
      assert IndexOf(cols, "NR") == Some(0);
      assert key[1..] == [];
      assert KeyPositions(cols, key[1..]) == Ok([]);
      var ps: seq<nat> := [0];
      assert ps == [0] + [];
      assert KeyPositions(cols, key) == Ok(ps);
    }

    /** `add_row` of a row whose NR is a number handed out and not yet a key:
        it cannot fail, and the frame gains the row keyed by its number. */
    method AddNumbered(row: Row, nr: int)
      requires Valid() && |row| == |table.Cols()| && row[0] == VInt(nr) && nr in numberBlock.issued
      requires [VInt(nr)] !in KeysOf(table.frame)
      modifies table`table, table`frame, table`frameCols
      ensures Valid()
      ensures table.table == old(table.table) + [row]
      ensures table.frame == old(table.frame) + [EntryOf(table.Cols(), table.Pkey(), [0], row)]
    {
      NumberKey(row);
      ghost var before := table.frame;
      var o := table.AddRow(row);
      assert o.Pass?;
      AllIssuedAppend(before, EntryOf(table.Cols(), table.Pkey(), [0], row), numberBlock.issued);
    }

    /** A number handed out, a row from `fixed` and `kwargs`, appended by `add_row`.
        A keyword given twice or unknown to `Row` is a TypeError, and `add_row`
        itself cannot fail, because the number is a new key. */
    method AddMatrixRow(fixed: map<string, Value>, kwargs: map<string, Value>, nr: int) returns (r: Result<int>)
      requires Valid() && "nr" in fixed && fixed["nr"] == VInt(nr) && nr in numberBlock.issued
      requires [VInt(nr)] !in KeysOf(table.frame)
      modifies table`table, table`frame, table`frameCols
      ensures Valid()
      ensures r.Ok? <==> fixed.Keys !! kwargs.Keys && MakeRow(table.Cols(), table.defaults, fixed + kwargs).Ok?
      ensures r.Err? ==> r.error.TypeError? && table.table == old(table.table) && table.frame == old(table.frame)
      ensures r.Ok? ==>
                && r.value == nr
                && var row := MakeRow(table.Cols(), table.defaults, fixed + kwargs).value;
                && table.table == old(table.table) + [row]
                && table.frame == old(table.frame) + [EntryOf(table.Cols(), table.Pkey(), [0], row)]
    {
      if !(fixed.Keys !! kwargs.Keys) {
        return Err(TypeError("got multiple values for a keyword argument"));
      }
      var row := table.NewRow(fixed + kwargs);
      if row.Err? {
        return Err(row.error);
      }
      MatrixFields();
      FixedCell(table.Cols(), table.defaults, fixed, kwargs, 0, "nr");
      AddNumbered(row.value, nr);
      return Ok(nr);
    }

    /** `add_daten_matrix`: NAME is `name or code`, DATNAME `datname or code`,
        DATENQUELLENTYP 'DATEN' and CATEGORY `category or matrix_category`; NR is
        drawn from the current category whatever `category` says, and returned.
        The number is drawn before the row is built, so a bad keyword still uses it up. */
    method AddDatenMatrix(code: string, name: string, loadmatrix: Value, matrixfolder: string, datname: string,
                          category: string, kwargs: map<string, Value>) returns (r: Result<int>)
      requires Valid()
      modifies table`table, table`frame, table`frameCols, numberBlock`cursor, numberBlock`issued
      ensures Valid()
      ensures r.Ok? <==> && old(Upcoming()).Ok?
                         && var fixed := DatenOverrides(old(Upcoming()).value, code, Or(name, code), loadmatrix, matrixfolder,
                                         Or(datname, code), Or(category, matrixCategory));
                         && fixed.Keys !! kwargs.Keys && MakeRow(table.Cols(), table.defaults, fixed + kwargs).Ok?
      ensures r.Err? ==> r.error.TypeError? || r == old(Upcoming())
      ensures numberBlock.cursor == old(CursorAfter())
      ensures old(Upcoming()).Err? ==> r == old(Upcoming()) && numberBlock.issued == old(numberBlock.issued)
      ensures old(Upcoming()).Ok? ==> numberBlock.issued == old(numberBlock.issued) + {old(Upcoming()).value}
      ensures r.Err? ==> table.table == old(table.table) && table.frame == old(table.frame)
      ensures r.Ok? ==>
                && r == old(Upcoming())
                && var row := MakeRow(table.Cols(), table.defaults,
                                      DatenOverrides(r.value, code, Or(name, code), loadmatrix, matrixfolder,
                                                     Or(datname, code), Or(category, matrixCategory)) + kwargs);
                && row.Ok?
                && table.table == old(table.table) + [row.value]
                && table.frame == old(table.frame) + [EntryOf(table.Cols(), table.Pkey(), [0], row.value)]
    {
      UpcomingFresh();
      ghost var up := Upcoming();
      if up.Ok? {
        FreshKey(up.value);
      }
      var nr := NextNumber();
      assert nr == up;
      if nr.Err? {
        return nr;
      }
      var fixed := DatenOverrides(nr.value, code, Or(name, code), loadmatrix, matrixfolder,
                                  Or(datname, code), Or(category, matrixCategory));
      OverridesNumber(nr.value, code, "", Or(name, code), loadmatrix, matrixfolder, Or(datname, code),
                      Or(category, matrixCategory));
      r := AddMatrixRow(fixed, kwargs, nr.value);
    }

    /** `add_formel_matrix`: as `add_daten_matrix`, with the formula, LOADMATRIX 0
        and DATENQUELLENTYP 'FORMEL'. */
    method AddFormelMatrix(code: string, formel: string, name: string, datname: string, category: string,
                           kwargs: map<string, Value>) returns (r: Result<int>)
      requires Valid()
      modifies table`table, table`frame, table`frameCols, numberBlock`cursor, numberBlock`issued
      ensures Valid()
      ensures r.Ok? <==> && old(Upcoming()).Ok?
                         && var fixed := FormelOverrides(old(Upcoming()).value, code, formel, Or(name, code), Or(datname, code),
                                          Or(category, matrixCategory));
                         && fixed.Keys !! kwargs.Keys && MakeRow(table.Cols(), table.defaults, fixed + kwargs).Ok?
      ensures r.Err? ==> r.error.TypeError? || r == old(Upcoming())
      ensures numberBlock.cursor == old(CursorAfter())
      ensures old(Upcoming()).Err? ==> r == old(Upcoming()) && numberBlock.issued == old(numberBlock.issued)
      ensures old(Upcoming()).Ok? ==> numberBlock.issued == old(numberBlock.issued) + {old(Upcoming()).value}
      ensures r.Err? ==> table.table == old(table.table) && table.frame == old(table.frame)
      ensures r.Ok? ==>
                && r == old(Upcoming())
                && var row := MakeRow(table.Cols(), table.defaults,
                                      FormelOverrides(r.value, code, formel, Or(name, code), Or(datname, code),
                                                      Or(category, matrixCategory)) + kwargs);
                && row.Ok?
                && table.table == old(table.table) + [row.value]
                && table.frame == old(table.frame) + [EntryOf(table.Cols(), table.Pkey(), [0], row.value)]
    {
      UpcomingFresh();
      ghost var up := Upcoming();
      if up.Ok? {
        FreshKey(up.value);
      }
      var nr := NextNumber();
      assert nr == up;
      if nr.Err? {
        return nr;
      }
      var fixed := FormelOverrides(nr.value, code, formel, Or(name, code), Or(datname, code),
                                   Or(category, matrixCategory));
      OverridesNumber(nr.value, code, formel, Or(name, code), VInt(0), "", Or(datname, code),
                      Or(category, matrixCategory));
      r := AddMatrixRow(fixed, kwargs, nr.value);
    }
  }

  /** No category of the table is called '', the category a new `Matrix` starts with. */
  lemma EmptyCategoryUnknown()
    ensures "" !in NamesOf(EndBlock) && "" != Fallback
  {
  }

  /** `Matrix().next_number()` before any `set_category`: `self._number_block['']`
      raises KeyError. */
  method FirstDrawUnset() returns (r: Result<int>)
    ensures r == Err(KeyError(""))
  {
    var m := new Matrix();
    EmptyCategoryUnknown();
    r := m.NextNumber();
  }
}
