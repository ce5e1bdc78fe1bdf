/** The activities of a demand model (`Aktivitaet`): their ranking, the main
    activity of an activity chain, the composite-activity sets, the table
    rows `create_tables` adds, and the activity pairs (`Aktivitaetenpaar`). */
module Demand {
  import opened Wrappers
  import opened Text
  import opened Schema
  import opened Tables

  // ---------------------------------------------------------------------------
  // the order of strings

  /** Python's `a < b` on str: lexicographic by code point. */
  predicate StrLess(a: string, b: string)
  {
    if |a| == 0 then |b| > 0
    else if |b| == 0 then false
    else if a[0] != b[0] then a[0] < b[0]
    else StrLess(a[1..], b[1..])
  }

  lemma {:induction false} StrLessIrreflexive(a: string)
    ensures !StrLess(a, a)
  {
    if |a| > 0 {
      StrLessIrreflexive(a[1..]);
    }
  }

  lemma {:induction false} StrLessTransitive(a: string, b: string, c: string)
    requires StrLess(a, b) && StrLess(b, c)
    ensures StrLess(a, c)
  {
    if |a| > 0 && a[0] == b[0] && b[0] == c[0] {
      StrLessTransitive(a[1..], b[1..], c[1..]);
    }
  }

  lemma {:induction false} StrLessTotal(a: string, b: string)
    requires a != b
    ensures StrLess(a, b) || StrLess(b, a)
  {
    if |a| > 0 && |b| > 0 && a[0] == b[0] {
      assert a == [a[0]] + a[1..] && b == [b[0]] + b[1..];
      StrLessTotal(a[1..], b[1..]);
    }
  }

  // ---------------------------------------------------------------------------
  // activities

  /** A row of the keyed frame of `Aktivitaet`, column by column.  A `Placeholder`
      is a row that a `df.loc` assignment to an unknown code appended: every cell
      but its code and its activity set is NaN. */
  datatype Activity =
    | Activity(code: string, rank: int, name: string, model: string, home: bool,
               potential: string, coupling: bool, rsa: Value, composite: string,
               autocalibrate: Value, calcDestMode: bool, activitySet: set<string>, baseLs: Value)
    | Placeholder(code: string, activitySet: set<string>)

  function CodesOf(acts: seq<Activity>): (r: seq<string>)
    ensures |r| == |acts| && forall i :: 0 <= i < |acts| ==> r[i] == acts[i].code
  {
    seq(|acts|, i requires 0 <= i < |acts| => acts[i].code)
  }

  /** The codes are the index of the frame, so no two rows share one. */
  predicate DistinctCodes(acts: seq<Activity>)
  {
    forall i, j :: 0 <= i < j < |acts| ==> acts[i].code != acts[j].code
  }

  /** `a` comes before `b` in `sort_values(['ISTHEIMATAKTIVITAET', 'RANG', 'CODE'])`:
      False before True, smaller ranks first, then the smaller code.  NaN, which a
      placeholder holds in the first two columns, sorts last. */
  predicate Precedes(a: Activity, b: Activity)
  {
    if a.Placeholder? || b.Placeholder? then
      (a.Activity? && b.Placeholder?) || (a.Placeholder? && b.Placeholder? && StrLess(a.code, b.code))
    else if a.home != b.home then !a.home
    else if a.rank != b.rank then a.rank < b.rank
    else StrLess(a.code, b.code)
  }

  lemma PrecedesIrreflexive(a: Activity)
    ensures !Precedes(a, a)
  {
    StrLessIrreflexive(a.code);
  }

  lemma PrecedesTransitive(a: Activity, b: Activity, c: Activity)
    requires Precedes(a, b) && Precedes(b, c)
    ensures Precedes(a, c)
  {
    if StrLess(a.code, b.code) && StrLess(b.code, c.code) {
      StrLessTransitive(a.code, b.code, c.code);
    }
  }

  /** Two rows with different codes are always ordered one way or the other. */
  lemma PrecedesTotal(a: Activity, b: Activity)
    requires a.code != b.code
    ensures Precedes(a, b) || Precedes(b, a)
  {
    StrLessTotal(a.code, b.code);
  }

  /** Sorted: no row precedes one before it. */
  predicate Ordered(s: seq<Activity>)
  {
    forall i, j :: 0 <= i < j < |s| ==> !Precedes(s[j], s[i])
  }

  /** `x` inserted before the first row it precedes. */
  function Insert(x: Activity, s: seq<Activity>): (r: seq<Activity>)
    ensures |r| == |s| + 1
    ensures multiset(r) == multiset(s) + multiset{x}
  {
    if |s| == 0 then [x]
    else if Precedes(x, s[0]) then [x] + s
    else
      assert s == [s[0]] + s[1..];
      [s[0]] + Insert(x, s[1..])
  }

  /** Two lists with the same rows have the same codes. */
  lemma SameCodes(a: seq<Activity>, b: seq<Activity>)
    requires multiset(a) == multiset(b)
    ensures forall c :: c in CodesOf(a) <==> c in CodesOf(b)
  {
    forall c | c in CodesOf(a) ensures c in CodesOf(b) {
      var i :| 0 <= i < |a| && a[i].code == c;
      assert a[i] in multiset(b);
      var j :| 0 <= j < |b| && b[j] == a[i];
      assert CodesOf(b)[j] == c;
    }
    forall c | c in CodesOf(b) ensures c in CodesOf(a) {
      var i :| 0 <= i < |b| && b[i].code == c;
      assert b[i] in multiset(a);
      var j :| 0 <= j < |a| && a[j] == b[i];
      assert CodesOf(a)[j] == c;
    }
  }

  /** Inserting a row with a new code keeps the codes distinct. */
  lemma {:induction false} InsertDistinct(x: Activity, s: seq<Activity>)
    requires DistinctCodes(s) && x.code !in CodesOf(s)
    ensures DistinctCodes(Insert(x, s))
  {
    if |s| == 0 {
    } else if Precedes(x, s[0]) {
      ConsDistinct(x, s);
    } else {
      var tail := s[1..];
      TailDistinct(s);
      InsertDistinct(x, tail);
      var rest := Insert(x, tail);
      SameCodes(rest, tail + [x]);
      assert s[0].code !in CodesOf(tail + [x]) by {
        assert CodesOf(tail + [x]) == CodesOf(tail) + [x.code];
      }
      ConsDistinct(s[0], rest);
    }
  }

  /** The tail of a list with distinct codes has distinct codes, none of them the head's,
      and no other code either. */
  lemma TailDistinct(s: seq<Activity>)
    requires DistinctCodes(s) && |s| > 0
    ensures DistinctCodes(s[1..]) && s[0].code !in CodesOf(s[1..])
    ensures forall c :: c in CodesOf(s[1..]) ==> c in CodesOf(s)
  {
    assert CodesOf(s) == [s[0].code] + CodesOf(s[1..]);
  }

  /** A row before a list with distinct codes, none of them its own. */
  lemma ConsDistinct(h: Activity, s: seq<Activity>)
    requires DistinctCodes(s) && h.code !in CodesOf(s)
    ensures DistinctCodes([h] + s)
  {
    var r := [h] + s;
    forall i, j | 0 <= i < j < |r| ensures r[i].code != r[j].code {
      assert r[j] == s[j - 1];
      if i == 0 {
        assert CodesOf(s)[j - 1] == r[j].code;
      } else {
        assert r[i] == s[i - 1];
      }
    }
  }

  /** Inserting into a sorted list keeps it sorted. */
  lemma {:induction false} InsertOrdered(x: Activity, s: seq<Activity>)
    requires Ordered(s)
    ensures Ordered(Insert(x, s))
  {
    if |s| > 0 {
      if Precedes(x, s[0]) {
        var r := [x] + s;
        forall j | 1 <= j < |r| ensures !Precedes(r[j], x) {
          assert r[j] == s[j - 1];
          if Precedes(s[j - 1], x) {
            PrecedesTransitive(s[j - 1], x, s[0]);
            if j == 1 { PrecedesIrreflexive(s[0]); }
          }
        }
        assert Ordered(r);
      } else {
        InsertOrdered(x, s[1..]);
        var rest := Insert(x, s[1..]);
        var r := [s[0]] + rest;
        forall k | 0 <= k < |rest| ensures !Precedes(rest[k], s[0]) {
          assert rest[k] in multiset(rest);
          if rest[k] != x {
            assert rest[k] in multiset(s[1..]);
            var j :| 0 <= j < |s[1..]| && s[1..][j] == rest[k];
            assert s[j + 1] == rest[k];
          }
        }
        forall i, j | 0 <= i < j < |r| ensures !Precedes(r[j], r[i]) {
          assert r[j] == rest[j - 1];
          if i > 0 { assert r[i] == rest[i - 1]; }
        }
      }
    }
  }

  /** The rows in sorted order (the sort itself is pandas'; with distinct codes
      the order is total, so every sorting algorithm gives this list). */
  function SortActs(acts: seq<Activity>): (r: seq<Activity>)
    ensures |r| == |acts|
    ensures multiset(r) == multiset(acts)
  {
    if |acts| == 0 then []
    else
      assert acts == [acts[0]] + acts[1..];
      Insert(acts[0], SortActs(acts[1..]))
  }

  /** Sorting keeps the codes distinct. */
  lemma {:induction false} SortDistinct(acts: seq<Activity>)
    requires DistinctCodes(acts)
    ensures DistinctCodes(SortActs(acts))
  {
    if |acts| > 0 {
      var rest := SortActs(acts[1..]);
      assert DistinctCodes(acts[1..]) by {
        forall i, j | 0 <= i < j < |acts[1..]| ensures acts[1..][i].code != acts[1..][j].code {
          assert acts[1..][i] == acts[i + 1] && acts[1..][j] == acts[j + 1];
        }
      }
      SortDistinct(acts[1..]);
      SameCodes(rest, acts[1..]);
      assert acts[0].code !in CodesOf(acts[1..]);
      InsertDistinct(acts[0], rest);
    }
  }

  lemma {:induction false} SortOrdered(acts: seq<Activity>)
    ensures Ordered(SortActs(acts))
  {
    if |acts| > 0 {
      SortOrdered(acts[1..]);
      InsertOrdered(acts[0], SortActs(acts[1..]));
    }
  }

  // ---------------------------------------------------------------------------
  // get_hierarchy and get_main_activity

  /** `get_hierarchy`: every code to its position among the sorted rows. */
  function Hierarchy(acts: seq<Activity>): map<string, int>
  {
    var codes := CodesOf(SortActs(acts));
    map c | c in codes :: IndexOf(codes, c).value
  }

  /** In a list of distinct codes the first position of a code is its position. */
  lemma IndexOfDistinct(codes: seq<string>, i: nat)
    requires i < |codes|
    requires forall a, b :: 0 <= a < b < |codes| ==> codes[a] != codes[b]
    ensures IndexOf(codes, codes[i]) == Some(i)
  {
  }

  /** The hierarchy holds the position of each sorted row under its code. */
  lemma HierarchyAt(acts: seq<Activity>, i: nat)
    requires DistinctCodes(acts) && i < |acts|
    ensures var s := SortActs(acts); s[i].code in Hierarchy(acts) && Hierarchy(acts)[s[i].code] == i
  {
    SortDistinct(acts);
    var codes := CodesOf(SortActs(acts));
    IndexOfDistinct(codes, i);
  }

  /** `get_hierarchy` has a key for every code of the frame and no other. */
  lemma HierarchyKeys(acts: seq<Activity>)
    ensures forall c :: c in Hierarchy(acts) <==> c in CodesOf(acts)
  {
    SameCodes(SortActs(acts), acts);
  }

  /** `get_hierarchy` numbers the codes of the frame one to one by 0 .. n-1. */
  lemma HierarchyBijective(acts: seq<Activity>)
    requires DistinctCodes(acts)
    ensures forall c :: c in Hierarchy(acts) ==> 0 <= Hierarchy(acts)[c] < |acts|
    ensures forall c, d :: c in Hierarchy(acts) && d in Hierarchy(acts) && c != d ==>
              Hierarchy(acts)[c] != Hierarchy(acts)[d]
    ensures forall k :: 0 <= k < |acts| ==>
              (SortActs(acts)[k].code in Hierarchy(acts) && Hierarchy(acts)[SortActs(acts)[k].code] == k)
  {
    var s, h := SortActs(acts), Hierarchy(acts);
    forall k | 0 <= k < |acts| ensures s[k].code in h && h[s[k].code] == k {
      HierarchyAt(acts, k);
    }
    forall c | c in h ensures 0 <= h[c] < |acts| && s[h[c]].code == c {
      var i :| 0 <= i < |s| && CodesOf(s)[i] == c;
      HierarchyAt(acts, i);
    }
  }

  /** The position of a row of the frame among the sorted rows. */
  lemma SortedPosition(acts: seq<Activity>, a: Activity) returns (i: nat)
    requires a in acts
    ensures i < |SortActs(acts)| && SortActs(acts)[i] == a
  {
    assert a in multiset(SortActs(acts));
    i :| 0 <= i < |SortActs(acts)| && SortActs(acts)[i] == a;
  }

  /** One row ranks before another exactly when it precedes it in the sort order. */
  lemma HierarchyOrder(acts: seq<Activity>, a: Activity, b: Activity)
    requires DistinctCodes(acts) && a in acts && b in acts
    ensures a.code in Hierarchy(acts) && b.code in Hierarchy(acts)
    ensures Precedes(a, b) <==> Hierarchy(acts)[a.code] < Hierarchy(acts)[b.code]
  {
    var s := SortActs(acts);
    var i := SortedPosition(acts, a);
    var j := SortedPosition(acts, b);
    HierarchyAt(acts, i);
    HierarchyAt(acts, j);
    SortOrdered(acts);
    if i == j {
      PrecedesIrreflexive(a);
    } else if i < j {
      assert s[i].code != s[j].code;
      PrecedesTotal(a, b);
    }
  }

  /** Every activity that is not a home activity ranks before every home activity. */
  lemma NonHomeFirst(acts: seq<Activity>, a: Activity, b: Activity)
    requires DistinctCodes(acts) && a in acts && b in acts
    requires a.Activity? && !a.home && b.Activity? && b.home
    ensures a.code in Hierarchy(acts) && b.code in Hierarchy(acts)
    ensures Hierarchy(acts)[a.code] < Hierarchy(acts)[b.code]
  {
    HierarchyOrder(acts, a, b);
  }

  /** Every element of the chain is a key of the hierarchy. */
  predicate AllRanked(h: map<string, int>, ac: seq<string>)
  {
    forall i :: 0 <= i < |ac| ==> ac[i] in h
  }

  /** The hierarchy values of the elements of an activity chain; the first element
      that is no key of the hierarchy is a KeyError. */
  function Ranks(h: map<string, int>, ac: seq<string>): (r: Result<seq<int>>)
    ensures r.Ok? <==> AllRanked(h, ac)
    ensures r.Ok? ==> |r.value| == |ac| && forall i :: 0 <= i < |ac| ==> r.value[i] == h[ac[i]]
    ensures r.Err? ==> r.error.KeyError? && r.error.key in ac && r.error.key !in h &&
                       forall j :: 0 <= j < IndexOf(ac, r.error.key).value ==> ac[j] in h
  {
    if |ac| == 0 then Ok([])
    else if ac[0] !in h then Err(KeyError(ac[0]))
    else match Ranks(h, ac[1..])
      case Err(e) =>
        assert e.key in ac[1..] && e.key != ac[0];
        Err(e)
      case Ok(vs) => Ok([h[ac[0]]] + vs)
  }

  /** `np.argmin`: the first position of a smallest value. */
  function ArgMin(vs: seq<int>): (k: nat)
    requires |vs| >= 1
    ensures k < |vs|
    ensures forall j :: 0 <= j < |vs| ==> vs[k] <= vs[j]
    ensures forall j :: 0 <= j < k ==> vs[k] < vs[j]
  {
    if |vs| == 1 then 0
    else
      var k := ArgMin(vs[..|vs| - 1]);
      if vs[|vs| - 1] < vs[k] then |vs| - 1 else k
  }

  /** `get_main_activity`: the element of the comma-separated chain with the
      smallest hierarchy value, the first one on a tie; an element that is no
      key of the hierarchy is a KeyError. */
  function MainActivity(h: map<string, int>, sequence: string): (r: Result<string>)
    ensures var ac := Split(sequence, ',');
            r.Ok? <==> AllRanked(h, ac)
    ensures var ac := Split(sequence, ',');
            r.Ok? ==> r.value in ac && (forall a :: a in ac ==> h[r.value] <= h[a]) &&
                      forall j :: 0 <= j < IndexOf(ac, r.value).value ==> h[r.value] < h[ac[j]]
    ensures var ac := Split(sequence, ',');
            r.Err? ==> r.error.KeyError? && r.error.key in ac && r.error.key !in h &&
                       forall j :: 0 <= j < IndexOf(ac, r.error.key).value ==> ac[j] in h
  {
    var ac := Split(sequence, ',');
    match Ranks(h, ac)
    case Err(e) =>
      Err(e)
    case Ok(vs) =>
      var k := ArgMin(vs);
      assert IndexOf(ac, ac[k]).value <= k;
      Ok(ac[k])
  }

  // ---------------------------------------------------------------------------
  // all_non_composite_activites

  /** A home or CALCDESTMODE activity; a placeholder's NaN counts as neither. */
  predicate SelfMember(a: Activity)
  {
    a.Activity? && (a.home || a.calcDestMode)
  }

  /** The codes of the home and CALCDESTMODE rows, in frame order. */
  function NonCompositeCodes(acts: seq<Activity>): (r: seq<string>)
    ensures |r| <= |acts|
    ensures forall c :: c in r <==> exists i :: 0 <= i < |acts| && SelfMember(acts[i]) && acts[i].code == c
  {
    if |acts| == 0 then []
    else
      var rest := NonCompositeCodes(acts[1..]);
      assert forall i :: 1 <= i < |acts| ==> acts[i] == acts[1..][i - 1];
      if SelfMember(acts[0]) then [acts[0].code] + rest else rest
  }

  /** `all_non_composite_activites`. */
  function AllNonComposite(acts: seq<Activity>): string
  {
    Join(NonCompositeCodes(acts), ",")
  }

  /** Splitting the result on ',' gives the codes back, when no code holds a comma
      and there is at least one such code. */
  lemma AllNonCompositeSplit(acts: seq<Activity>)
    requires forall i :: 0 <= i < |acts| ==> ',' !in acts[i].code
    requires exists i :: 0 <= i < |acts| && SelfMember(acts[i])
    ensures Split(AllNonComposite(acts), ',') == NonCompositeCodes(acts)
    ensures forall c :: c in Split(AllNonComposite(acts), ',') <==>
              exists i :: 0 <= i < |acts| && SelfMember(acts[i]) && acts[i].code == c
  {
    var codes := NonCompositeCodes(acts);
    var i :| 0 <= i < |acts| && SelfMember(acts[i]);
    assert acts[i].code in codes;
    forall k | 0 <= k < |codes| ensures ',' !in codes[k] {
      assert codes[k] in codes;
    }
    SplitJoin(codes, ',');
  }

  // ---------------------------------------------------------------------------
  // set_activityset

  /** The dict of sets `set_activityset` collects, with its keys in the order
      they were first added (the order a dict iterates in). */
  datatype Sets = Sets(sets: map<string, set<string>>, order: seq<string>)

  /** `order` lists the keys of `sets`, each once, and no set is empty. */
  predicate SetsValid(st: Sets)
  {
    && (forall k :: k in st.sets ==> st.sets[k] != {})
    && (forall i, j :: 0 <= i < j < |st.order| ==> st.order[i] != st.order[j])
    && (forall k :: k in st.sets ==> k in st.order)
    && (forall i :: 0 <= i < |st.order| ==> st.order[i] in st.sets)
  }

  /** `activitysets[key].add(code)` on a defaultdict of sets. */
  function AddTo(st: Sets, key: string, code: string): (r: Sets)
    ensures SetsValid(st) ==> SetsValid(r)
    ensures forall y, x :: (y in r.sets && x in r.sets[y]) <==> (y in st.sets && x in st.sets[y]) || (y == key && x == code)
  {
    if key in st.sets then Sets(st.sets[key := st.sets[key] + {code}], st.order)
    else Sets(st.sets[key := {code}], st.order + [key])
  }

  /** The inner loop over the comma-separated composite activities: an empty part is skipped. */
  function AddParts(st: Sets, parts: seq<string>, code: string): (r: Sets)
    ensures SetsValid(st) ==> SetsValid(r)
  {
    if |parts| == 0 then st
    else
      var before := AddParts(st, parts[..|parts| - 1], code);
      var p := parts[|parts| - 1];
      if p == "" then before else AddTo(before, p, code)
  }

  /** The sets of `AddParts`: the old members, and `code` in the set of every non-empty part. */
  lemma {:induction false} AddPartsMembers(st: Sets, parts: seq<string>, code: string, y: string, x: string)
    ensures var r := AddParts(st, parts, code);
            (y in r.sets && x in r.sets[y]) <==> (y in st.sets && x in st.sets[y]) || (x == code && y != "" && y in parts)
  {
    if |parts| > 0 {
      var front := parts[..|parts| - 1];
      AddPartsMembers(st, front, code, y, x);
      assert parts == front + [parts[|parts| - 1]];
    }
  }

  /** One row of the outer loop; a placeholder has no composite activities to split. */
  function AddActivity(st: Sets, a: Activity): (r: Sets)
    requires a.Activity?
    ensures SetsValid(st) ==> SetsValid(r)
  {
    var self := if SelfMember(a) then AddTo(st, a.code, a.code) else st;
    AddParts(self, Split(a.composite, ','), a.code)
  }

  /** Every row of the frame is an activity of its own; no placeholder. */
  predicate NoPlaceholder(acts: seq<Activity>)
  {
    forall i :: 0 <= i < |acts| ==> acts[i].Activity?
  }

  /** The dict the outer loop has collected after the given rows. */
  function Collect(acts: seq<Activity>): (r: Sets)
    requires NoPlaceholder(acts)
    ensures SetsValid(r)
  {
    if |acts| == 0 then Sets(map[], [])
    else AddActivity(Collect(acts[..|acts| - 1]), acts[|acts| - 1])
  }

  /** One more row for `Collect`. */
  lemma CollectStep(acts: seq<Activity>, i: int)
    requires 0 <= i < |acts| && NoPlaceholder(acts[..i]) && acts[i].Activity?
    ensures NoPlaceholder(acts[..i + 1])
    ensures Collect(acts[..i + 1]) == AddActivity(Collect(acts[..i]), acts[i])
  {
    assert acts[..i + 1][..i] == acts[..i];
  }

  /** Row `a` puts its code into the set of `y`: `y` is its own code and it is a home or
      CALCDESTMODE activity, or `y` is one of its non-empty composite activities. */
  predicate Contributes(a: Activity, y: string)
  {
    a.Activity? && ((a.code == y && SelfMember(a)) || (y != "" && y in Split(a.composite, ',')))
  }

  /** Some row with code `x` contributes to the set of `y`. */
  ghost predicate Contributed(acts: seq<Activity>, y: string, x: string)
  {
    exists i :: 0 <= i < |acts| && acts[i].code == x && Contributes(acts[i], y)
  }

  lemma ContributedLast(acts: seq<Activity>, y: string, x: string)
    requires |acts| > 0
    ensures var front, a := acts[..|acts| - 1], acts[|acts| - 1];
            Contributed(acts, y, x) <==> Contributed(front, y, x) || (a.code == x && Contributes(a, y))
  {
    var front := acts[..|acts| - 1];
    if Contributed(front, y, x) {
      var i :| 0 <= i < |front| && front[i].code == x && Contributes(front[i], y);
      assert acts[i] == front[i];
    }
    if Contributed(acts, y, x) {
      var i :| 0 <= i < |acts| && acts[i].code == x && Contributes(acts[i], y);
      if i < |front| { assert front[i] == acts[i]; }
    }
  }

  lemma NoPlaceholderFront(acts: seq<Activity>)
    requires |acts| > 0 && NoPlaceholder(acts)
    ensures NoPlaceholder(acts[..|acts| - 1])
  {
    var front := acts[..|acts| - 1];
    forall i | 0 <= i < |front| ensures front[i].Activity? { assert front[i] == acts[i]; }
  }

  /** The set of `y` holds exactly the codes of the rows that contribute to it,
      and `y` has a set only if some row contributes to it. */
  lemma {:induction false} CollectMembers(acts: seq<Activity>, y: string, x: string)
    requires NoPlaceholder(acts)
    ensures var st := Collect(acts); (y in st.sets && x in st.sets[y]) <==> Contributed(acts, y, x)
  {
    if |acts| > 0 {
      var front, a := acts[..|acts| - 1], acts[|acts| - 1];
      NoPlaceholderFront(acts);
      CollectMembers(front, y, x);
      ContributedLast(acts, y, x);
      var before := Collect(front);
      var self := if SelfMember(a) then AddTo(before, a.code, a.code) else before;
      AddPartsMembers(self, Split(a.composite, ','), a.code, y, x);
    }
  }

  // ---------------------------------------------------------------------------
  // writing the sets back: df.loc[code, 'AKTIVITAETSET'] = ...

  /** `df.loc[code, 'AKTIVITAETSET'] = s`: the row with that code takes the set; an
      unknown code appends a placeholder row. */
  function Assign(acts: seq<Activity>, code: string, s: set<string>): (r: seq<Activity>)
  {
    match IndexOf(CodesOf(acts), code)
    case Some(i) => acts[i := acts[i].(activitySet := s)]
    case None => acts + [Placeholder(code, s)]
  }

  /** The frame after the write-back loop has assigned the sets of the given keys. */
  function Written(acts: seq<Activity>, sets: map<string, set<string>>, keys: seq<string>): seq<Activity>
    requires forall i :: 0 <= i < |keys| ==> keys[i] in sets
  {
    if |keys| == 0 then acts
    else Assign(Written(acts, sets, keys[..|keys| - 1]), keys[|keys| - 1], sets[keys[|keys| - 1]])
  }

  /** One more key for `Written`. */
  lemma WrittenNext(acts: seq<Activity>, sets: map<string, set<string>>, keys: seq<string>, k: int)
    requires 0 <= k < |keys| && forall i :: 0 <= i < |keys| ==> keys[i] in sets
    ensures Written(acts, sets, keys[..k + 1]) == Assign(Written(acts, sets, keys[..k]), keys[k], sets[keys[k]])
  {
    assert keys[..k + 1][..k] == keys[..k];
  }

  /** What the write-back does to a frame with distinct codes, key by key: a row whose
      code is a key takes its set, another row stays as it was, and each key that names
      no row appends one placeholder row; the codes stay distinct. */
  lemma {:induction false} WrittenRows(acts: seq<Activity>, sets: map<string, set<string>>, keys: seq<string>)
    requires DistinctCodes(acts)
    requires forall i :: 0 <= i < |keys| ==> keys[i] in sets
    requires forall i, j :: 0 <= i < j < |keys| ==> keys[i] != keys[j]
    ensures var r := Written(acts, sets, keys);
            && DistinctCodes(r) && |r| >= |acts|
            && (forall i :: 0 <= i < |acts| ==>
                  r[i] == if acts[i].code in keys then acts[i].(activitySet := sets[acts[i].code]) else acts[i])
            && (forall i :: |acts| <= i < |r| ==>
                  r[i].Placeholder? && r[i].code in keys && r[i].code !in CodesOf(acts) &&
                  r[i].activitySet == sets[r[i].code])
            && (forall c :: c in CodesOf(r) <==> c in CodesOf(acts) || c in keys)
  {
    if |keys| > 0 {
      var front, k := keys[..|keys| - 1], keys[|keys| - 1];
      WrittenRows(acts, sets, front);
      var w := Written(acts, sets, front);
      assert keys == front + [k];
      assert k !in front;
      WrittenStep(acts, w, sets, front, k);
    }
  }

  lemma WrittenStep(acts: seq<Activity>, w: seq<Activity>, sets: map<string, set<string>>, front: seq<string>, k: string)
    requires k in sets && k !in front
    requires forall i :: 0 <= i < |front| ==> front[i] in sets
    requires DistinctCodes(acts) && DistinctCodes(w) && |w| >= |acts|
    requires forall i :: 0 <= i < |acts| ==>
               w[i] == if acts[i].code in front then acts[i].(activitySet := sets[acts[i].code]) else acts[i]
    requires forall i :: |acts| <= i < |w| ==>
               w[i].Placeholder? && w[i].code in front && w[i].code !in CodesOf(acts) &&
               w[i].activitySet == sets[w[i].code]
    requires forall c :: c in CodesOf(w) <==> c in CodesOf(acts) || c in front
    ensures var r := Assign(w, k, sets[k]); var keys := front + [k];
            && DistinctCodes(r) && |r| >= |acts|
            && (forall i :: 0 <= i < |acts| ==>
                  r[i] == if acts[i].code in keys then acts[i].(activitySet := sets[acts[i].code]) else acts[i])
            && (forall i :: |acts| <= i < |r| ==>
                  r[i].Placeholder? && r[i].code in keys && r[i].code !in CodesOf(acts) &&
                  r[i].activitySet == sets[r[i].code])
            && (forall c :: c in CodesOf(r) <==> c in CodesOf(acts) || c in keys)
  {
    var r := Assign(w, k, sets[k]);
    var keys := front + [k];
    match IndexOf(CodesOf(w), k)
    case Some(p) =>
      assert r == w[p := w[p].(activitySet := sets[k])];
      assert CodesOf(r) == CodesOf(w);
      if p >= |acts| {
        assert false;
      }
      forall i | 0 <= i < |acts| && i != p ensures acts[i].code != k {
        assert acts[p].code == k;
      }
    case None =>
      assert r == w + [Placeholder(k, sets[k])];
      assert k !in CodesOf(acts);
      assert CodesOf(r) == CodesOf(w) + [k];
      forall i | 0 <= i < |acts| ensures acts[i].code != k {
        assert CodesOf(acts)[i] == acts[i].code;
      }
      forall i, j | 0 <= i < j < |r| ensures r[i].code != r[j].code {
        if j == |w| { assert CodesOf(w)[i] == r[i].code; }
      }
  }

  // ---------------------------------------------------------------------------
  // the Aktivitaet table

  /** The frame after `set_activityset` when it runs through. */
  function SetsWritten(acts: seq<Activity>): seq<Activity>
    requires NoPlaceholder(acts)
  {
    var st := Collect(acts);
    Written(acts, st.sets, st.order)
  }

  /** A row of the `activities` frame that `create_tables` reads. */
  datatype ActivityInput = ActivityInput(code: string, name: string, potential: string, home: bool,
                                         rank: int, rsa: Value, autocalibrate: Value, composite: string,
                                         calcDestMode: bool)

  /** The row `create_tables` builds from an input row: `rang` is `rank or 1`, the
      home flag is both ISTHEIMATAKTIVITAET and KOPPLUNGZIEL, and the suffix goes
      after both the code and the structural-size codes. */
  function NewActivity(a: ActivityInput, model: string, suffix: string): (r: Activity)
    ensures r.Activity? && r.rank != 0 && (a.rank != 0 ==> r.rank == a.rank)
    ensures r.home == a.home && r.coupling == a.home
    ensures |r.code| == |a.code| + |suffix| && |r.potential| == |a.potential| + |suffix|
    ensures r.code[..|a.code|] == a.code && r.code[|a.code|..] == suffix
    ensures r.potential[..|a.potential|] == a.potential && r.potential[|a.potential|..] == suffix
    ensures r.model == model && r.activitySet == {}
  {
    Activity(a.code + suffix, if a.rank == 0 then 1 else a.rank, a.name, model, a.home,
             a.potential + suffix, a.home, a.rsa, a.composite, a.autocalibrate, a.calcDestMode,
             {}, VStr(""))
  }

  function NewActivities(inputs: seq<ActivityInput>, model: string, suffix: string): (r: seq<Activity>)
    ensures |r| == |inputs| && forall k :: 0 <= k < |inputs| ==> r[k] == NewActivity(inputs[k], model, suffix)
  {
    seq(|inputs|, k requires 0 <= k < |inputs| => NewActivity(inputs[k], model, suffix))
  }

  /** Rows of their own added to a frame without placeholders leave it without placeholders. */
  lemma NoPlaceholderAppend(acts: seq<Activity>, rows: seq<Activity>)
    requires NoPlaceholder(rows)
    ensures NoPlaceholder(acts + rows) <==> NoPlaceholder(acts)
  {
    if NoPlaceholder(acts) {
      forall i | 0 <= i < |acts + rows| ensures (acts + rows)[i].Activity? {
        if i >= |acts| { assert (acts + rows)[i] == rows[i - |acts|]; }
      }
    }
    if NoPlaceholder(acts + rows) {
      forall i | 0 <= i < |acts| ensures acts[i].Activity? { assert (acts + rows)[i] == acts[i]; }
    }
  }

  /** `Aktivitaet`: the record array and the keyed frame of the activities table. */
  class Aktivitaet {
    /** The record array `self.table`. */
    var table: seq<Activity>
    /** The keyed frame `self.df`, indexed by CODE. */
    var acts: seq<Activity>

    ghost predicate Valid()
      reads this
    {
      DistinctCodes(acts)
    }

    constructor ()
      ensures Valid() && table == [] && acts == []
    {
      table := [];
      acts := [];
    }

    /** `add_rows` on this table: an empty batch on an empty record array is an
        IndexError; otherwise the record array takes the batch first, and the frame
        takes it only when no code occurs twice in the old and new rows together. */
    method AddRows(rows: seq<Activity>) returns (r: Outcome)
      requires Valid()
      modifies this`table, this`acts
      ensures Valid()
      ensures table == old(table) + rows
      ensures r.Pass? <==> (|old(table)| > 0 || |rows| > 0) && DistinctCodes(old(acts) + rows)
      ensures r.Pass? ==> acts == old(acts) + rows
      ensures r.Fail? ==> acts == old(acts)
      ensures r.Fail? ==> r == if |old(table)| == 0 && |rows| == 0 then Fail(IndexError)
                               else Fail(ValueError("Indexes have overlapping values"))
    {
      if |table| == 0 && |rows| == 0 {
        return Fail(IndexError);
      }
      table := table + rows;
      if !DistinctCodes(acts + rows) {
        return Fail(ValueError("Indexes have overlapping values"));
      }
      acts := acts + rows;
      return Pass;
    }

    /** `set_activityset`: collects the set of every activity row by row, then
        writes each set into its row, appending a placeholder row for a set whose
        key names no row.  A placeholder row already in the frame stops the collection:
        its composite activities are NaN, which has no `split`. */
    method SetActivitySet() returns (r: Outcome)
      requires Valid()
      modifies this`acts
      ensures Valid()
      ensures !NoPlaceholder(old(acts)) ==> r == Fail(AttributeError("split")) && acts == old(acts)
      ensures NoPlaceholder(old(acts)) ==> r == Pass && acts == SetsWritten(old(acts))
    {
      var ok, st := CollectSets(acts);
      if !ok {
        return Fail(AttributeError("split"));
      }
      WriteSets(st);
      return Pass;
    }

    /** The first loop of `set_activityset`, over the rows of the frame. */
    static method CollectSets(acts: seq<Activity>) returns (ok: bool, st: Sets)
      ensures ok <==> NoPlaceholder(acts)
      ensures ok ==> st == Collect(acts)
    {
      st := Sets(map[], []);
      var i := 0;
      while i < |acts|
        invariant 0 <= i <= |acts|
        invariant NoPlaceholder(acts[..i])
        invariant st == Collect(acts[..i])
      {
        var a := acts[i];
        if a.Placeholder? {
          // NaN or NaN is NaN, which is true: the row lands in its own set, then NaN has no split
          assert !NoPlaceholder(acts);
          return false, st;
        }
        CollectStep(acts, i);
        st := AddRowSets(st, a);
        i := i + 1;
      }
      assert acts[..i] == acts;
      return true, st;
    }

    /** One pass of the first loop: the row's own code, then its composite parts. */
    static method AddRowSets(st0: Sets, a: Activity) returns (st: Sets)
      requires a.Activity?
      ensures st == AddActivity(st0, a)
    {
      st := st0;
      if SelfMember(a) {
        st := AddTo(st, a.code, a.code);
      }
      var parts := Split(a.composite, ',');
      ghost var self := st;
      var j := 0;
      while j < |parts|
        invariant 0 <= j <= |parts|
        invariant st == AddParts(self, parts[..j], a.code)
      {
        assert parts[..j + 1][..j] == parts[..j];
        if parts[j] != "" {
          st := AddTo(st, parts[j], a.code);
        }
        j := j + 1;
      }
      assert parts[..j] == parts;
    }

    /** The second loop of `set_activityset`: `df.loc[code, 'AKTIVITAETSET'] = ...`
        for every key, in dict order. */
    method WriteSets(st: Sets)
      requires Valid() && SetsValid(st)
      modifies this`acts
      ensures Valid()
      ensures acts == Written(old(acts), st.sets, st.order)
    {
      ghost var acts0 := acts;
      var order := st.order;
      var k := 0;
      while k < |order|
        invariant 0 <= k <= |order|
        invariant acts == Written(acts0, st.sets, order[..k])
      {
        WrittenNext(acts0, st.sets, order, k);
        var code := order[k];
        match IndexOf(CodesOf(acts), code) {
          case Some(p) =>
            acts := acts[p := acts[p].(activitySet := st.sets[code])];
          case None =>
            acts := acts + [Placeholder(code, st.sets[code])];
        }
        k := k + 1;
      }
      assert order[..k] == order;
      WrittenRows(acts0, st.sets, order);
    }

    /** `create_tables`: one row per input row, added in one batch, then the
        activity sets; a duplicate code, or no rows at all on an empty table, stops
        before the sets are computed. */
    method CreateTables(inputs: seq<ActivityInput>, model: string, suffix: string) returns (r: Outcome)
      requires Valid()
      modifies this`table, this`acts
      ensures Valid()
      ensures table == old(table) + NewActivities(inputs, model, suffix)
      ensures |old(table)| == 0 && |inputs| == 0 ==> r == Fail(IndexError) && acts == old(acts)
      ensures var rows := NewActivities(inputs, model, suffix);
              (|old(table)| > 0 || |inputs| > 0) && !DistinctCodes(old(acts) + rows) ==>
                r == Fail(ValueError("Indexes have overlapping values")) && acts == old(acts)
      ensures var rows := NewActivities(inputs, model, suffix);
              (|old(table)| > 0 || |inputs| > 0) && DistinctCodes(old(acts) + rows) && !NoPlaceholder(old(acts)) ==>
                r == Fail(AttributeError("split")) && acts == old(acts) + rows
      ensures var rows := NewActivities(inputs, model, suffix);
              (|old(table)| > 0 || |inputs| > 0) && DistinctCodes(old(acts) + rows) && NoPlaceholder(old(acts)) ==>
                r == Pass && NoPlaceholder(old(acts) + rows) && acts == SetsWritten(old(acts) + rows)
    {
      var rows: seq<Activity> := [];
      var i := 0;
      while i < |inputs|
        invariant 0 <= i <= |inputs|
        invariant |rows| == i && forall k :: 0 <= k < i ==> rows[k] == NewActivity(inputs[k], model, suffix)
      {
        rows := rows + [NewActivity(inputs[i], model, suffix)];
        i := i + 1;
      }
      assert rows == NewActivities(inputs, model, suffix);
      NoPlaceholderAppend(acts, rows);
      r := AddRows(rows);
      if r.Pass? {
        r := SetActivitySet();
      }
    }
  }

  /** `_homeactivity`: the code of the first home activity; an IndexError when there is none. */
  function HomeActivity(acts: seq<Activity>): (r: Result<string>)
    ensures r.Ok? <==> exists i :: 0 <= i < |acts| && acts[i].Activity? && acts[i].home
    ensures r.Ok? ==> exists i :: 0 <= i < |acts| && acts[i].Activity? && acts[i].home && acts[i].code == r.value &&
                        forall j :: 0 <= j < i ==> !(acts[j].Activity? && acts[j].home)
    ensures r.Err? ==> r.error == IndexError
  {
    if |acts| == 0 then Err(IndexError)
    else if acts[0].Activity? && acts[0].home then Ok(acts[0].code)
    else
      var rest := HomeActivity(acts[1..]);
      assert forall i :: 1 <= i < |acts| ==> acts[i] == acts[1..][i - 1];
      if rest.Ok? then
        var i :| 0 <= i < |acts[1..]| && acts[1..][i].Activity? && acts[1..][i].home && acts[1..][i].code == rest.value &&
                 forall j :: 0 <= j < i ==> !(acts[1..][j].Activity? && acts[1..][j].home);
        assert acts[i + 1] == acts[1..][i];
        assert forall j :: 1 <= j < i + 1 ==> !(acts[j].Activity? && acts[j].home);
        rest
      else rest
  }

  // ---------------------------------------------------------------------------
  // Aktivitaetenpaar

  const PairCols: seq<string> :=
    ["CODE", "NAME", "NACHFRAGEMODELLCODE", "QUELLAKTIVITAETCODE", "ZIELAKTIVITAETCODE", "QUELLEZIELTYP"]

  /** The class default names QUELLZIELTYP, which is not the column QUELLEZIELTYP. */
  const PairDefaults: map<string, Value> := map["QUELLZIELTYP" := VInt(3)]

  const PairClass: TableClass :=
    TableClass("AKTIVITAETENPAAR", "Aktivitätenpaare", Join(PairCols, ";"), "CODE", PairDefaults, "+", true)

  /** Reading the column string of `Aktivitaetenpaar` back gives its six columns. */
  lemma PairColumns()
    ensures ColsOf(PairClass.cols) == PairCols
  {
    PairPlain();
    ColsOfJoin(PairCols);
  }

  lemma PairPlain()
    ensures PlainColumns(PairCols)
  {
  }

  /** A row of the `activitypairs` frame: its code and its origin and destination activities. */
  datatype ActivityPair = ActivityPair(code: string, origin: string, dest: string)

  /** The keyword arguments `create_tables` passes to `Row`. */
  function PairOverrides(p: ActivityPair, model: string): map<string, Value>
  {
    map["code" := VStr(p.origin + "_" + p.dest), "name" := VStr(p.code), "nachfragemodellcode" := VStr(model),
        "quellaktivitaetcode" := VStr(p.origin), "zielaktivitaetcode" := VStr(p.dest)]
  }

  /** The row of a pair: new code `qa_za`, the old code as its name, and an empty QUELLEZIELTYP. */
  function PairRow(p: ActivityPair, model: string): Row
  {
    [VStr(p.origin + "_" + p.dest), VStr(p.code), VStr(model), VStr(p.origin), VStr(p.dest), VStr("")]
  }

  /** Columns carrying the fields of `Aktivitaetenpaar` in its order. */
  predicate PairFieldsAt(cols: seq<string>)
  {
    && |cols| == 6 && cols[0] == "CODE" && cols[5] == "QUELLEZIELTYP"
    && FieldName(cols[0]) == "code" && FieldName(cols[1]) == "name"
    && FieldName(cols[2]) == "nachfragemodellcode" && FieldName(cols[3]) == "quellaktivitaetcode"
    && FieldName(cols[4]) == "zielaktivitaetcode" && FieldName(cols[5]) == "quellezieltyp"
  }

  lemma PairEndFields()
    ensures FieldName("QUELLAKTIVITAETCODE") == "quellaktivitaetcode"
    ensures FieldName("ZIELAKTIVITAETCODE") == "zielaktivitaetcode"
    ensures FieldName("QUELLEZIELTYP") == "quellezieltyp"
  {
    FieldOf("QUELLAKTIVITAETCODE", "quellaktivitaetcode");
    FieldOf("ZIELAKTIVITAETCODE", "zielaktivitaetcode");
    FieldOf("QUELLEZIELTYP", "quellezieltyp");
  }

  lemma PairFieldsOfPairCols()
    ensures PairFieldsAt(PairCols)
  {
    assert PairCols[0] == "CODE" && PairCols[1] == "NAME" && PairCols[2] == "NACHFRAGEMODELLCODE";
    assert PairCols[3] == "QUELLAKTIVITAETCODE" && PairCols[4] == "ZIELAKTIVITAETCODE" && PairCols[5] == "QUELLEZIELTYP";
    CodeNameFields();
    ModelCodeField();
    PairEndFields();
  }

  /** Every keyword of a pair is a field of the pair columns. */
  lemma PairKeywords(cols: seq<string>, p: ActivityPair, model: string)
    requires PairFieldsAt(cols)
    ensures forall k :: k in PairOverrides(p, model) ==> k in FieldNames(cols)
  {
    var f := FieldNames(cols);
    assert f[0] == "code" && f[1] == "name" && f[2] == "nachfragemodellcode";
    assert f[3] == "quellaktivitaetcode" && f[4] == "zielaktivitaetcode";
  }

  /** `Row(...)` of a pair is its pair row: the default 3 never reaches QUELLEZIELTYP. */
  lemma PairRowOf(cols: seq<string>, p: ActivityPair, model: string)
    requires PairFieldsAt(cols)
    ensures MakeRow(cols, PairDefaults, PairOverrides(p, model)) == Ok(PairRow(p, model))
    ensures DefaultFor(PairDefaults, cols[5]) == VStr("")
  {
    PairKeywords(cols, p, model);
    var o := PairOverrides(p, model);
    PairGivenCells(cols, p, model);
    PairDefaultCell(cols, p, model);
    MakeRowOfSix(cols, PairDefaults, o, VStr(p.origin + "_" + p.dest), VStr(p.code), VStr(model),
                 VStr(p.origin), VStr(p.dest), VStr(""));
  }

  lemma PairGivenCells(cols: seq<string>, p: ActivityPair, model: string)
    requires PairFieldsAt(cols)
    ensures var o := PairOverrides(p, model);
            && CellFor(cols, PairDefaults, o, 0) == VStr(p.origin + "_" + p.dest)
            && CellFor(cols, PairDefaults, o, 1) == VStr(p.code)
            && CellFor(cols, PairDefaults, o, 2) == VStr(model)
            && CellFor(cols, PairDefaults, o, 3) == VStr(p.origin)
            && CellFor(cols, PairDefaults, o, 4) == VStr(p.dest)
  {
    var o := PairOverrides(p, model);
    GivenCell(cols, PairDefaults, o, 0, "code");
    GivenCell(cols, PairDefaults, o, 1, "name");
    GivenCell(cols, PairDefaults, o, 2, "nachfragemodellcode");
    GivenCell(cols, PairDefaults, o, 3, "quellaktivitaetcode");
    GivenCell(cols, PairDefaults, o, 4, "zielaktivitaetcode");
  }

  /** QUELLEZIELTYP is given no keyword and has no default of its own. */
  lemma PairDefaultCell(cols: seq<string>, p: ActivityPair, model: string)
    requires PairFieldsAt(cols)
    ensures DefaultFor(PairDefaults, cols[5]) == VStr("")
    ensures CellFor(cols, PairDefaults, PairOverrides(p, model), 5) == VStr("")
  {
    PairNoDefault();
    PairNotGiven(p, model);
  }

  /** The default 3 is filed under QUELLZIELTYP, so the column QUELLEZIELTYP has none. */
  lemma PairNoDefault()
    ensures DefaultFor(PairDefaults, "QUELLEZIELTYP") == VStr("")
  {
    assert CapitalColumn("QUELLEZIELTYP");
    DefaultOfCapitals(PairDefaults, "QUELLEZIELTYP");
  }

  lemma PairNotGiven(p: ActivityPair, model: string)
    ensures "quellezieltyp" !in PairOverrides(p, model)
  {
  }

  function PairRows(pairs: seq<ActivityPair>, model: string): (r: seq<Row>)
    ensures |r| == |pairs| && forall k :: 0 <= k < |pairs| ==> r[k] == PairRow(pairs[k], model)
  {
    seq(|pairs|, k requires 0 <= k < |pairs| => PairRow(pairs[k], model))
  }

  /** The frame entries of the pair rows: each is keyed by its `qa_za` code. */
  function PairEntries(cols: seq<string>, pairs: seq<ActivityPair>, model: string): (r: seq<Entry>)
    requires PairFieldsAt(cols)
    ensures |r| == |pairs|
    ensures forall k :: 0 <= k < |pairs| ==> r[k].key == [VStr(pairs[k].origin + "_" + pairs[k].dest)]
  {
    EntriesOf(cols, [cols[0]], [0], PairRows(pairs, model))
  }

  /** A table of the class `Aktivitaetenpaar`: its columns, its key CODE and its defaults. */
  predicate PairShaped(t: VisumTable)
    reads t
  {
    PairFieldsAt(t.Cols()) && t.pkeyRaw == "CODE" && t.defaults == PairDefaults
  }

  /** A table made from the class has that shape. */
  lemma PairClassShaped(t: VisumTable)
    requires t.colsRaw == PairClass.cols && t.pkeyRaw == PairClass.pkey && t.defaults == PairClass.defaults
    ensures PairShaped(t)
  {
    PairColumns();
    PairFieldsOfPairCols();
  }

  /** A pair table is keyed by its first column CODE. */
  lemma PairKey(t: VisumTable)
    requires PairShaped(t)
    ensures t.Pkey() == [t.Cols()[0]] && KeyPositions(t.Cols(), t.Pkey()) == Ok([0])
  {
    assert Split("CODE", ';') == ["CODE"];
    FirstColumnKey(t.Cols());
  }

  /** `Aktivitaetenpaar.create_tables`: one row per pair, added in one batch; two
      pairs with the same origin and destination, or one already in the table, make
      the batch fail with nothing added to the frame, and so does an empty batch on
      a table without records. */
  method CreatePairs(t: VisumTable, pairs: seq<ActivityPair>, model: string) returns (r: Outcome)
    requires t.Valid() && PairShaped(t)
    modifies t`table, t`frame, t`frameCols
    ensures t.Valid()
    ensures t.table == old(t.table) + PairRows(pairs, model)
    ensures r.Pass? <==> (|old(t.table)| > 0 || |pairs| > 0) && DistinctKeys(old(t.frame) + PairEntries(t.Cols(), pairs, model))
    ensures r.Pass? ==> t.frame == old(t.frame) + PairEntries(t.Cols(), pairs, model)
    ensures r.Fail? ==> t.frame == old(t.frame)
    ensures r.Fail? ==> r == if |old(t.table)| == 0 && |pairs| == 0 then Fail(IndexError)
                             else Fail(ValueError("Indexes have overlapping values"))
  {
    var rows := NewPairRows(t, pairs, model);
    PairKey(t);
    r := t.AddRows(rows);
  }

  /** The loop of `create_tables`: `Row(...)` for every pair, in order. */
  method NewPairRows(t: VisumTable, pairs: seq<ActivityPair>, model: string) returns (rows: seq<Row>)
    requires PairShaped(t)
    ensures rows == PairRows(pairs, model)
  {
    rows := [];
    var i := 0;
    while i < |pairs|
      invariant 0 <= i <= |pairs|
      invariant |rows| == i && forall k :: 0 <= k < i ==> rows[k] == PairRow(pairs[k], model)
    {
      PairRowOf(t.Cols(), pairs[i], model);
      var row := t.NewRow(PairOverrides(pairs[i], model));
      rows := rows + [row.value];
      i := i + 1;
    }
  }
}
