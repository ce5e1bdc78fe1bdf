/** Personengruppe: the person-group table, the groups the destination-mode
    model derives from trip chains (one per group and main activity) and the
    cross join of group categories. */
module PersonGroups {
  import opened Wrappers
  import opened Text
  import opened Schema
  import opened Tables
  import opened Demand

  const GroupClass: TableClass :=
    TableClass("PERSONENGRUPPE", "Personengruppen", "CODE;NAME;NACHFRAGEMODELLCODE", "", map[], "+", true)

  // ---------------------------------------------------------------------------
  // get_groups_destmode: the cross join of categories

  /** A row of the person-group frame as `get_groups_destmode` reads it. */
  datatype Group = Group(code: string, name: string, category: string, groupsConstants: string,
                         namePart: string, codePart: string)

  /** A row of the result while the categories are joined: CODE, NAME and GROUPS_CONSTANTS. */
  datatype Combined = Combined(code: string, name: string, groupsConstants: string)

  /** A row of the result, after CATEGORY is set. */
  datatype Composite = Composite(code: string, name: string, groupsConstants: string, category: string)

  /** `df.loc[df['CATEGORY'] == category]`: the groups of one category, in frame order. */
  function InCategory(groups: seq<Group>, category: string): (r: seq<Group>)
  {
    if |groups| == 0 then []
    else (if groups[0].category == category then [groups[0]] else []) + InCategory(groups[1..], category)
  }

  /** The selection holds the groups of the category and no other, at most all of them. */
  lemma {:induction false} InCategoryMembers(groups: seq<Group>, category: string)
    ensures |InCategory(groups, category)| <= |groups|
    ensures forall g :: g in InCategory(groups, category) <==> g in groups && g.category == category
  {
    if |groups| > 0 {
      InCategoryMembers(groups[1..], category);
      assert groups == [groups[0]] + groups[1..];
    }
  }

  /** The first category's rows, restricted to CODE, NAME and GROUPS_CONSTANTS. */
  function Start(sel: seq<Group>): (r: seq<Combined>)
    ensures |r| == |sel|
    ensures forall i :: 0 <= i < |sel| ==> r[i] == Combined(sel[i].code, sel[i].name, sel[i].groupsConstants)
  {
    seq(|sel|, i requires 0 <= i < |sel| => Combined(sel[i].code, sel[i].name, sel[i].groupsConstants))
  }

  /** The characters `str.strip(', ')` removes. */
  const NameStrip: set<char> := {',', ' '}

  /** One joined row: the code gains the CODEPART, the name the NAMEPART after ', '
      (stripped of commas and blanks at both ends), the constants ',' and the joined CODE. */
  function Combine(c: Combined, g: Group): Combined
  {
    Combined(c.code + g.codePart, StripChars(c.name + ", " + g.namePart, NameStrip), c.groupsConstants + "," + g.code)
  }

  /** One left row joined with every right row, in right order. */
  function JoinOne(c: Combined, right: seq<Group>): (r: seq<Combined>)
    ensures |r| == |right| && forall j :: 0 <= j < |right| ==> r[j] == Combine(c, right[j])
  {
    seq(|right|, j requires 0 <= j < |right| => Combine(c, right[j]))
  }

  /** `df.assign(one=1).merge(df_cat, on='one')`: the product, left row by left row. */
  function CrossJoin(left: seq<Combined>, right: seq<Group>): (r: seq<Combined>)
  {
    if |left| == 0 then [] else JoinOne(left[0], right) + CrossJoin(left[1..], right)
  }

  /** The cross join has a row per pair, the pair (i, j) at position i * |right| + j. */
  lemma {:induction false} CrossJoinAt(left: seq<Combined>, right: seq<Group>, i: nat, j: nat)
    requires i < |left| && j < |right|
    ensures |CrossJoin(left, right)| == |left| * |right|
    ensures i * |right| + j < |left| * |right|
    ensures CrossJoin(left, right)[i * |right| + j] == Combine(left[i], right[j])
  {
    CrossJoinSize(left, right);
    var n := |right|;
    assert i * n + j < |left| * n by {
      assert i * n + j < (i + 1) * n;
      assert (i + 1) * n <= |left| * n by { MulMono(i + 1, |left|, n); }
    }
    if i > 0 {
      CrossJoinAt(left[1..], right, i - 1, j);
      assert (i - 1) * n + j == i * n + j - n;
    }
  }

  lemma MulMono(a: nat, b: nat, n: nat)
    requires a <= b
    ensures a * n <= b * n
  {
  }

  lemma {:induction false} CrossJoinSize(left: seq<Combined>, right: seq<Group>)
    ensures |CrossJoin(left, right)| == |left| * |right|
  {
    if |left| > 0 {
      CrossJoinSize(left[1..], right);
      assert |left| * |right| == |right| + (|left| - 1) * |right|;
    }
  }

  /** The loop over the later categories: each one must have a group, and is joined in. */
  function JoinCategories(acc: seq<Combined>, groups: seq<Group>, cats: seq<string>): (r: Result<seq<Combined>>)
    ensures r.Err? ==> r.error.AssertionError?
    decreases |cats|
  {
    if |cats| == 0 then Ok(acc)
    else
      var sel := InCategory(groups, cats[0]);
      if |sel| == 0 then Err(AssertionError("no groups defined for category " + cats[0]))
      else JoinCategories(CrossJoin(acc, sel), groups, cats[1..])
  }

  /** `df['CATEGORY'] = new_category`. */
  function WithCategory(rows: seq<Combined>, category: string): (r: seq<Composite>)
    ensures |r| == |rows|
    ensures forall i :: 0 <= i < |rows| ==>
              r[i] == Composite(rows[i].code, rows[i].name, rows[i].groupsConstants, category)
  {
    seq(|rows|, i requires 0 <= i < |rows| =>
      Composite(rows[i].code, rows[i].name, rows[i].groupsConstants, category))
  }

  /** `get_groups_destmode`: the groups of the first category joined with those of each
      later one, all tagged with the new category; an AssertionError for an empty list
      or a category without groups. */
  function GetGroupsDestmode(groups: seq<Group>, categories: seq<string>, newCategory: string): (r: Result<seq<Composite>>)
    ensures r.Err? ==> r.error.AssertionError?
  {
    if |categories| == 0 then Err(AssertionError("you need at least one category"))
    else
      var first := InCategory(groups, categories[0]);
      if |first| == 0 then Err(AssertionError("no groups defined for category " + categories[0]))
      else
        match JoinCategories(Start(first), groups, categories[1..])
        case Err(e) => Err(e)
        case Ok(rows) => Ok(WithCategory(rows, newCategory))
  }

  /** Every listed category has at least one group. */
  predicate AllPopulated(groups: seq<Group>, cats: seq<string>)
  {
    forall k :: 0 <= k < |cats| ==> |InCategory(groups, cats[k])| > 0
  }

  /** The product of the group counts of the categories. */
  function Product(groups: seq<Group>, cats: seq<string>): nat
  {
    if |cats| == 0 then 1 else |InCategory(groups, cats[0])| * Product(groups, cats[1..])
  }

  /** A list of categories is populated when its head and its tail are. */
  lemma PopulatedTail(groups: seq<Group>, cats: seq<string>)
    requires |cats| > 0
    ensures AllPopulated(groups, cats) <==> |InCategory(groups, cats[0])| > 0 && AllPopulated(groups, cats[1..])
  {
    if |InCategory(groups, cats[0])| > 0 && AllPopulated(groups, cats[1..]) {
      forall k | 0 <= k < |cats| ensures |InCategory(groups, cats[k])| > 0 {
        if k > 0 { assert cats[k] == cats[1..][k - 1]; }
      }
    }
    if AllPopulated(groups, cats) {
      forall k | 0 <= k < |cats| - 1 ensures |InCategory(groups, cats[1..][k])| > 0 {
        assert cats[1..][k] == cats[k + 1];
      }
    }
  }

  lemma MulAssoc(a: int, b: int, c: int)
    ensures a * b * c == a * (b * c)
  {
  }

  /** The joins succeed exactly when every category has a group, and then multiply the rows. */
  lemma {:induction false} JoinCategoriesOk(acc: seq<Combined>, groups: seq<Group>, cats: seq<string>)
    ensures JoinCategories(acc, groups, cats).Ok? <==> AllPopulated(groups, cats)
    ensures JoinCategories(acc, groups, cats).Ok? ==>
              |JoinCategories(acc, groups, cats).value| == |acc| * Product(groups, cats)
    decreases |cats|
  {
    if |cats| > 0 {
      var sel := InCategory(groups, cats[0]);
      if |sel| > 0 {
        JoinCategoriesOk(CrossJoin(acc, sel), groups, cats[1..]);
        CrossJoinSize(acc, sel);
        PopulatedTail(groups, cats);
        MulAssoc(|acc|, |sel|, Product(groups, cats[1..]));
      } else {
        assert !AllPopulated(groups, cats);
      }
    }
  }

  /** `get_groups_destmode` succeeds exactly when the list is not empty and every listed
      category has a group; it then yields the product of the group counts, every row of
      the new category. */
  lemma GroupsDestmodeShape(groups: seq<Group>, categories: seq<string>, newCategory: string)
    ensures var r := GetGroupsDestmode(groups, categories, newCategory);
            r.Ok? <==> |categories| > 0 && AllPopulated(groups, categories)
    ensures var r := GetGroupsDestmode(groups, categories, newCategory);
            r.Ok? ==> |r.value| == Product(groups, categories) &&
                      forall i :: 0 <= i < |r.value| ==> r.value[i].category == newCategory
  {
    if |categories| > 0 {
      var first := InCategory(groups, categories[0]);
      JoinCategoriesOk(Start(first), groups, categories[1..]);
      PopulatedTail(groups, categories);
    }
  }

  /** One group per category: `idx[k]` picks a group of category `cats[k]`. */
  predicate Choice(groups: seq<Group>, cats: seq<string>, idx: seq<nat>)
  {
    |idx| == |cats| && forall k :: 0 <= k < |cats| ==> idx[k] < |InCategory(groups, cats[k])|
  }

  /** The groups a choice picks, in category order. */
  function Picked(groups: seq<Group>, cats: seq<string>, idx: seq<nat>): (r: seq<Group>)
    requires Choice(groups, cats, idx)
    ensures |r| == |cats|
    ensures forall k :: 0 <= k < |cats| ==> r[k] == InCategory(groups, cats[k])[idx[k]]
  {
    seq(|cats|, k requires 0 <= k < |cats| => InCategory(groups, cats[k])[idx[k]])
  }

  /** Where a choice lands in the joined rows: the mixed-radix number of its indices. */
  function Position(groups: seq<Group>, cats: seq<string>, idx: seq<nat>): nat
    requires Choice(groups, cats, idx)
  {
    if |cats| == 0 then 0
    else
      assert Choice(groups, cats[1..], idx[1..]) by {
        forall k | 0 <= k < |cats| - 1 ensures idx[1..][k] < |InCategory(groups, cats[1..][k])| {
          assert idx[1..][k] == idx[k + 1] && cats[1..][k] == cats[k + 1];
        }
      }
      idx[0] * Product(groups, cats[1..]) + Position(groups, cats[1..], idx[1..])
  }

  /** A row joined with the picked groups, one after the other. */
  function Along(c: Combined, picks: seq<Group>): Combined
    decreases |picks|
  {
    if |picks| == 0 then c else Along(Combine(c, picks[0]), picks[1..])
  }

  /** The picks of the tail of a choice are the tail of its picks. */
  lemma PickedTail(groups: seq<Group>, cats: seq<string>, idx: seq<nat>)
    requires Choice(groups, cats, idx) && |cats| > 0
    ensures Choice(groups, cats[1..], idx[1..])
    ensures Picked(groups, cats, idx)[1..] == Picked(groups, cats[1..], idx[1..])
  {
    forall k | 0 <= k < |cats| - 1 ensures idx[1..][k] < |InCategory(groups, cats[1..][k])| {
      assert idx[1..][k] == idx[k + 1] && cats[1..][k] == cats[k + 1];
    }
  }

  /** Where row `i` of the accumulated rows, joined with the picks of a choice, lands:
      each join makes row i into block i of the next category's rows. */
  function Slot(groups: seq<Group>, cats: seq<string>, i: nat, idx: seq<nat>): nat
    requires |idx| == |cats|
    decreases |cats|
  {
    if |cats| == 0 then i
    else Slot(groups, cats[1..], i * |InCategory(groups, cats[0])| + idx[0], idx[1..])
  }

  /** Every choice of one group per later category yields, at its slot, the row it
      extends joined with the picked groups in category order. */
  lemma {:induction false} JoinCategoriesAt(acc: seq<Combined>, groups: seq<Group>, cats: seq<string>,
                                            i: nat, idx: seq<nat>)
    requires i < |acc| && Choice(groups, cats, idx)
    ensures JoinCategories(acc, groups, cats).Ok?
    ensures var rows := JoinCategories(acc, groups, cats).value;
            && Slot(groups, cats, i, idx) < |rows|
            && rows[Slot(groups, cats, i, idx)] == Along(acc[i], Picked(groups, cats, idx))
    decreases |cats|
  {
    JoinCategoriesOk(acc, groups, cats);
    if |cats| > 0 {
      var sel := InCategory(groups, cats[0]);
      var joined := CrossJoin(acc, sel);
      var picks := Picked(groups, cats, idx);
      PickedTail(groups, cats, idx);
      CrossJoinAt(acc, sel, i, idx[0]);
      var i' := Offset(i, |sel|, idx[0]);
      JoinCategoriesAt(joined, groups, cats[1..], i', idx[1..]);
      assert Slot(groups, cats, i, idx) == Slot(groups, cats[1..], i', idx[1..]);
      assert JoinCategories(acc, groups, cats) == JoinCategories(joined, groups, cats[1..]);
      assert joined[i'] == Combine(acc[i], picks[0]);
    } else {
      assert Picked(groups, cats, idx) == [];
    }
  }

  /** The slot of row i is block i of a product's worth of rows, at the mixed-radix
      position of the choice. */
  lemma {:induction false} SlotPosition(groups: seq<Group>, cats: seq<string>, i: nat, idx: seq<nat>)
    requires Choice(groups, cats, idx)
    ensures Slot(groups, cats, i, idx) == i * Product(groups, cats) + Position(groups, cats, idx)
    decreases |cats|
  {
    if |cats| > 0 {
      var n := |InCategory(groups, cats[0])|;
      PickedTail(groups, cats, idx);
      var i' := Offset(i, n, idx[0]);
      SlotPosition(groups, cats[1..], i', idx[1..]);
      var p: int := Product(groups, cats[1..]);
      var q: int := Position(groups, cats[1..], idx[1..]);
      Regroup(i, n, idx[0], p, q);
      assert Product(groups, cats) as int == n * p;
      assert Position(groups, cats, idx) as int == idx[0] as int * p + q;
    }
  }

  /** A row position `i * n + a`. */
  lemma Offset(i: nat, n: nat, a: nat) returns (k: nat)
    ensures k == i * n + a
  {
    k := i * n + a;
  }

  lemma Regroup(i: int, n: int, a: int, p: int, q: int)
    ensures (i * n + a) * p + q == i * (n * p) + (a * p + q)
  {
    assert (i * n + a) * p == i * n * p + a * p;
    MulAssoc(i, n, p);
  }

  /** The joined rows, one per choice of a group in each category: the first pick's
      row joined with the others in list order, tagged with the new category. */
  lemma GroupsDestmodeAt(groups: seq<Group>, categories: seq<string>, newCategory: string, idx: seq<nat>)
    requires |categories| > 0 && Choice(groups, categories, idx)
    ensures GetGroupsDestmode(groups, categories, newCategory).Ok?
    ensures var rows := GetGroupsDestmode(groups, categories, newCategory).value;
            var picks := Picked(groups, categories, idx);
            var c := Along(Combined(picks[0].code, picks[0].name, picks[0].groupsConstants), picks[1..]);
            && Position(groups, categories, idx) < |rows|
            && rows[Position(groups, categories, idx)] == Composite(c.code, c.name, c.groupsConstants, newCategory)
  {
    var first := InCategory(groups, categories[0]);
    PickedTail(groups, categories, idx);
    JoinCategoriesAt(Start(first), groups, categories[1..], idx[0], idx[1..]);
    PositionSlot(groups, categories, idx);
  }

  /** The position of a choice is the slot of its first pick among the later categories. */
  lemma PositionSlot(groups: seq<Group>, cats: seq<string>, idx: seq<nat>)
    requires |cats| > 0 && Choice(groups, cats, idx)
    ensures Choice(groups, cats[1..], idx[1..])
    ensures Position(groups, cats, idx) == Slot(groups, cats[1..], idx[0], idx[1..])
  {
    PickedTail(groups, cats, idx);
    SlotPosition(groups, cats[1..], idx[0], idx[1..]);
  }

  /** The code parts of the picked groups, concatenated. */
  function CodeParts(picks: seq<Group>): string
  {
    if |picks| == 0 then "" else picks[0].codePart + CodeParts(picks[1..])
  }

  /** ',' and the CODE of every picked group, concatenated. */
  function JoinedCodes(picks: seq<Group>): string
  {
    if |picks| == 0 then "" else "," + picks[0].code + JoinedCodes(picks[1..])
  }

  /** A composite CODE is the first CODE followed by each later CODEPART, and its
      GROUPS_CONSTANTS gain ',' and the CODE of each joined group, in list order. */
  lemma {:induction false} AlongCodes(c: Combined, picks: seq<Group>)
    ensures Along(c, picks).code == c.code + CodeParts(picks)
    ensures Along(c, picks).groupsConstants == c.groupsConstants + JoinedCodes(picks)
    decreases |picks|
  {
    if |picks| > 0 {
      AlongCodes(Combine(c, picks[0]), picks[1..]);
      AppendAssoc(c.code, picks[0].codePart, CodeParts(picks[1..]));
      AppendAssoc(c.groupsConstants, ",", picks[0].code);
      AppendAssoc(c.groupsConstants, "," + picks[0].code, JoinedCodes(picks[1..]));
    }
  }

  /** A composite NAME neither starts nor ends with a comma or a blank, once a category was joined. */
  lemma AlongName(c: Combined, picks: seq<Group>)
    requires |picks| > 0
    ensures var n := Along(c, picks).name; n == [] || (n[0] !in NameStrip && n[|n| - 1] !in NameStrip)
    decreases |picks|
  {
    if |picks| > 1 {
      AlongName(Combine(c, picks[0]), picks[1..]);
    }
  }

  // ---------------------------------------------------------------------------
  // create_groups_destmode: one group per group and main activity

  /** A row of the merged trip-chain frame: the group generation code, the group,
      the chain code `code_tc`, its `Sequence` of activities, the group name and the
      group's constants and outputs. */
  datatype TripChain = TripChain(groupGeneration: string, group: string, chain: string, sequence: string,
                                 name: string, groupsConstants: string, groupsOutput: string)

  /** What the loop works with: the table's columns and defaults, the activity
      hierarchy, the model code and the category of the new groups. */
  datatype Setting = Setting(cols: seq<string>, defaults: map<string, Value>, h: map<string, int>,
                             model: string, category: string)

  /** `self.gd_codes` and `self.groups`. */
  datatype Grouping = Grouping(gdCodes: map<string, seq<string>>, groups: seq<Row>)

  /** The keywords `add_group` passes to `Row` for a new group of a trip chain. */
  function GroupOverrides(s: Setting, tc: TripChain, code: string, main: string): map<string, Value>
  {
    map["code" := VStr(code), "nachfragemodellcode" := VStr(s.model), "category" := VStr(s.category),
        "name" := VStr(tc.name + " mit Hauptaktivität " + main), "groups_constants" := VStr(tc.groupsConstants),
        "groups_output" := VStr(tc.groupsOutput), "group_generation" := VStr(tc.groupGeneration),
        "main_act" := VStr(main)]
  }

  /** The code of the group a trip chain belongs to, `group_mainact`. */
  function GroupCode(h: map<string, int>, tc: TripChain): (r: Result<string>)
    ensures r.Ok? <==> MainActivity(h, tc.sequence).Ok?
    ensures r.Ok? ==> r.value == tc.group + "_" + MainActivity(h, tc.sequence).value
  {
    match MainActivity(h, tc.sequence)
    case Err(e) => Err(e)
    case Ok(main) => Ok(tc.group + "_" + main)
  }

  /** One pass of the loop. A new code is entered with its chain before `add_group` runs,
      so a failing `Row` leaves the code without a group. */
  function GroupStep(s: Setting, st: Grouping, tc: TripChain): (Grouping, Outcome)
  {
    match MainActivity(s.h, tc.sequence)
    case Err(e) => (st, Fail(e))
    case Ok(main) =>
      var code := tc.group + "_" + main;
      if code in st.gdCodes then
        (Grouping(st.gdCodes[code := st.gdCodes[code] + [tc.chain]], st.groups), Pass)
      else
        var codes := st.gdCodes[code := [tc.chain]];
        match MakeRow(s.cols, s.defaults, GroupOverrides(s, tc, code, main))
        case Err(e) => (Grouping(codes, st.groups), Fail(e))
        case Ok(row) => (Grouping(codes, st.groups + [row]), Pass)
  }

  /** The loop over the trip chains; the first failure ends it. */
  function Grouped(s: Setting, st: Grouping, tcs: seq<TripChain>): (Grouping, Outcome)
    decreases |tcs|
  {
    if |tcs| == 0 then (st, Pass)
    else
      var next := GroupStep(s, st, tcs[0]);
      if next.1.Fail? then next else Grouped(s, next.0, tcs[1..])
  }

  /** The chains recorded under a code; none when it is absent (the defaultdict's `[]`). */
  function ChainsOf(m: map<string, seq<string>>, code: string): seq<string>
  {
    if code in m then m[code] else []
  }

  /** The chains of the trip chains whose group code is `code`, in encounter order. */
  function ChainsWith(h: map<string, int>, tcs: seq<TripChain>, code: string): seq<string>
  {
    if |tcs| == 0 then []
    else (if GroupCode(h, tcs[0]) == Ok(code) then [tcs[0].chain] else []) + ChainsWith(h, tcs[1..], code)
  }

  /** The group codes of the trip chains. */
  function CodesWith(h: map<string, int>, tcs: seq<TripChain>): set<string>
  {
    if |tcs| == 0 then {}
    else (if GroupCode(h, tcs[0]).Ok? then {GroupCode(h, tcs[0]).value} else {}) + CodesWith(h, tcs[1..])
  }

  /** The keywords of a new group. */
  const GroupKeywords: set<string> :=
    {"code", "nachfragemodellcode", "category", "name", "groups_constants", "groups_output",
     "group_generation", "main_act"}

  lemma GroupOverridesKeys(s: Setting, tc: TripChain, code: string, main: string)
    ensures GroupOverrides(s, tc, code, main).Keys == GroupKeywords
  {
  }

  /** The loop finishes when the columns have a field for every keyword of a new group
      and every trip chain's sequence is ranked. */
  lemma {:induction false} GroupedFinishes(s: Setting, st: Grouping, tcs: seq<TripChain>)
    requires forall k :: k in GroupKeywords ==> k in FieldNames(s.cols)
    requires forall k :: 0 <= k < |tcs| ==> GroupCode(s.h, tcs[k]).Ok?
    ensures Grouped(s, st, tcs).1 == Pass
    decreases |tcs|
  {
    if |tcs| > 0 {
      var tc := tcs[0];
      var main := MainActivity(s.h, tc.sequence).value;
      GroupOverridesKeys(s, tc, tc.group + "_" + main, main);
      assert GroupCode(s.h, tcs[0]).Ok?;
      GroupedFinishes(s, GroupStep(s, st, tc).0, tcs[1..]);
    }
  }

  /** A pass that goes through enters the chain under its group code, and adds a
      group exactly when the code is new. */
  lemma StepCodes(s: Setting, st: Grouping, tc: TripChain)
    requires GroupStep(s, st, tc).1 == Pass
    ensures GroupCode(s.h, tc).Ok?
    ensures var c := GroupCode(s.h, tc).value;
            && GroupStep(s, st, tc).0.gdCodes == st.gdCodes[c := ChainsOf(st.gdCodes, c) + [tc.chain]]
            && |GroupStep(s, st, tc).0.groups| == |st.groups| + (if c in st.gdCodes then 0 else 1)
  {
    var main := MainActivity(s.h, tc.sequence).value;
    var c := tc.group + "_" + main;
    if c !in st.gdCodes {
      assert ChainsOf(st.gdCodes, c) + [tc.chain] == [tc.chain];
    }
  }

  /** A finished loop went through its first pass and then finished the rest. */
  lemma GroupedFirst(s: Setting, st: Grouping, tcs: seq<TripChain>)
    requires |tcs| > 0 && Grouped(s, st, tcs).1 == Pass
    ensures GroupStep(s, st, tcs[0]).1 == Pass
    ensures Grouped(s, st, tcs) == Grouped(s, GroupStep(s, st, tcs[0]).0, tcs[1..])
  {
  }

  /** After a finished loop every code holds the chains it held before followed by the
      chains found for it, in encounter order. */
  lemma {:induction false} GroupedChains(s: Setting, st: Grouping, tcs: seq<TripChain>, code: string)
    requires Grouped(s, st, tcs).1 == Pass
    ensures ChainsOf(Grouped(s, st, tcs).0.gdCodes, code) == ChainsOf(st.gdCodes, code) + ChainsWith(s.h, tcs, code)
    decreases |tcs|
  {
    if |tcs| > 0 {
      var tc := tcs[0];
      GroupedFirst(s, st, tcs);
      StepCodes(s, st, tc);
      var next := GroupStep(s, st, tc).0;
      GroupedChains(s, next, tcs[1..], code);
      var c := GroupCode(s.h, tc).value;
      ChainsOfUpdate(st.gdCodes, c, tc.chain, code);
      ChainsWithCons(s.h, tcs, code);
      AppendAssoc(ChainsOf(st.gdCodes, code), if c == code then [tc.chain] else [], ChainsWith(s.h, tcs[1..], code));
    }
  }

  lemma ChainsWithCons(h: map<string, int>, tcs: seq<TripChain>, code: string)
    requires |tcs| > 0 && GroupCode(h, tcs[0]).Ok?
    ensures ChainsWith(h, tcs, code)
            == (if GroupCode(h, tcs[0]).value == code then [tcs[0].chain] else []) + ChainsWith(h, tcs[1..], code)
  {
  }

  lemma ChainsOfUpdate(m: map<string, seq<string>>, c: string, chain: string, code: string)
    ensures ChainsOf(m[c := ChainsOf(m, c) + [chain]], code) == ChainsOf(m, code) + (if c == code then [chain] else [])
  {
  }

  /** After a finished loop the codes are the old ones and those found. */
  lemma {:induction false} GroupedKeys(s: Setting, st: Grouping, tcs: seq<TripChain>)
    requires Grouped(s, st, tcs).1 == Pass
    ensures Grouped(s, st, tcs).0.gdCodes.Keys == st.gdCodes.Keys + CodesWith(s.h, tcs)
    decreases |tcs|
  {
    if |tcs| > 0 {
      var tc := tcs[0];
      GroupedFirst(s, st, tcs);
      StepCodes(s, st, tc);
      var next := GroupStep(s, st, tc).0;
      GroupedKeys(s, next, tcs[1..]);
      var c := GroupCode(s.h, tc).value;
      assert next.gdCodes.Keys == st.gdCodes.Keys + {c};
    }
  }

  /** A finished loop adds one group for every code it introduces, and no other. */
  lemma {:induction false} GroupedCount(s: Setting, st: Grouping, tcs: seq<TripChain>)
    requires Grouped(s, st, tcs).1 == Pass
    ensures |Grouped(s, st, tcs).0.groups| - |st.groups| == |Grouped(s, st, tcs).0.gdCodes.Keys| - |st.gdCodes.Keys|
    decreases |tcs|
  {
    if |tcs| > 0 {
      var tc := tcs[0];
      GroupedFirst(s, st, tcs);
      StepCodes(s, st, tc);
      var next := GroupStep(s, st, tc).0;
      GroupedCount(s, next, tcs[1..]);
      var c := GroupCode(s.h, tc).value;
      if c in st.gdCodes {
        assert next.gdCodes.Keys == st.gdCodes.Keys;
      } else {
        assert next.gdCodes.Keys == st.gdCodes.Keys + {c};
      }
    }
  }

  lemma GroupedUnfold(s: Setting, st: Grouping, tcs: seq<TripChain>)
    requires |tcs| > 0
    ensures var next := GroupStep(s, st, tcs[0]);
            Grouped(s, st, tcs) == if next.1.Fail? then next else Grouped(s, next.0, tcs[1..])
  {
  }

  /** An unranked sequence ends the loop with its KeyError and changes nothing. */
  lemma StepErr(s: Setting, st: Grouping, tc: TripChain)
    requires MainActivity(s.h, tc.sequence).Err?
    ensures GroupStep(s, st, tc) == (st, Fail(MainActivity(s.h, tc.sequence).error))
  {
  }

  /** A known code only gains the chain. */
  lemma StepKnown(s: Setting, st: Grouping, tc: TripChain, main: string)
    requires MainActivity(s.h, tc.sequence) == Ok(main) && tc.group + "_" + main in st.gdCodes
    ensures var code := tc.group + "_" + main;
            GroupStep(s, st, tc) == (Grouping(st.gdCodes[code := st.gdCodes[code] + [tc.chain]], st.groups), Pass)
  {
  }

  /** A new code is entered with its chain, then its group row is made. */
  lemma StepNew(s: Setting, st: Grouping, tc: TripChain, main: string)
    requires MainActivity(s.h, tc.sequence) == Ok(main) && tc.group + "_" + main !in st.gdCodes
    ensures var code := tc.group + "_" + main;
            var row := MakeRow(s.cols, s.defaults, GroupOverrides(s, tc, code, main));
            GroupStep(s, st, tc) ==
              (Grouping(st.gdCodes[code := [tc.chain]], if row.Ok? then st.groups + [row.value] else st.groups),
               if row.Ok? then Pass else Fail(row.error))
  {
  }

  /** The keywords `create_groups_destmode` passes to `add_group` besides the code and the model. */
  function NewGroupKeywords(tc: TripChain, main: string, category: string): map<string, Value>
  {
    map["category" := VStr(category), "name" := VStr(tc.name + " mit Hauptaktivität " + main),
        "groups_constants" := VStr(tc.groupsConstants), "groups_output" := VStr(tc.groupsOutput),
        "group_generation" := VStr(tc.groupGeneration), "main_act" := VStr(main)]
  }

  /** With the code and the model added they are the keywords of the new group's row. */
  lemma KeywordsOfNewGroup(s: Setting, tc: TripChain, code: string, main: string)
    ensures var kw := NewGroupKeywords(tc, main, s.category);
            && "code" !in kw && "model_code" !in kw && "nachfragemodellcode" !in kw
            && kw["code" := VStr(code)]["nachfragemodellcode" := VStr(s.model)] == GroupOverrides(s, tc, code, main)
  {
  }

  /** Person groups: the VisumTable part, the rows of the groups made so far and the
      chains of every group code. */
  class Personengruppe {
    const t: VisumTable
    var groups: seq<Row>
    var gdCodes: map<string, seq<string>>

    ghost predicate Valid()
      reads this, t
    {
      t.Valid() && t.pkeyRaw == ""
    }

    constructor (modeArg: Option<string>)
      ensures Valid() && fresh(t)
      ensures t.code == GroupClass.code && t.colsRaw == GroupClass.cols && t.defaults == GroupClass.defaults
      ensures t.frame == [] && t.table == []
      ensures groups == [] && gdCodes == map[]
    {
      t := new VisumTable(GroupClass, modeArg);
      groups := [];
      gdCodes := map[];
    }

    /** `add_group`: `Row(code=..., nachfragemodellcode=..., **kwargs)` appended to the
        groups. A keyword given twice, or one that is no field, is a TypeError. */
    method AddGroup(code: string, modelCode: string, kwargs: map<string, Value>) returns (r: Outcome)
      modifies this`groups
      ensures "code" in kwargs || "model_code" in kwargs || "nachfragemodellcode" in kwargs ==>
                r.Fail? && r.error.TypeError? && groups == old(groups)
      ensures !("code" in kwargs || "model_code" in kwargs || "nachfragemodellcode" in kwargs) ==>
                var row := t.NewRow(kwargs["code" := VStr(code)]["nachfragemodellcode" := VStr(modelCode)]);
                && (r.Pass? <==> row.Ok?)
                && (row.Ok? ==> groups == old(groups) + [row.value])
                && (row.Err? ==> r == Fail(row.error) && groups == old(groups))
    {
      if "code" in kwargs || "model_code" in kwargs {
        return Fail(TypeError("got multiple values for argument"));
      }
      if "nachfragemodellcode" in kwargs {
        return Fail(TypeError("got multiple values for keyword argument 'nachfragemodellcode'"));
      }
      var row := t.NewRow(kwargs["code" := VStr(code)]["nachfragemodellcode" := VStr(modelCode)]);
      if row.Err? {
        return Fail(row.error);
      }
      groups := groups + [row.value];
      return Pass;
    }

    /** `create_groups_destmode`: for every trip chain the code of its group and main
        activity; a new code gets its chain and a group, a known one only the chain. */
    method CreateGroupsDestmode(tcs: seq<TripChain>, activities: Aktivitaet, model: string, category: string)
      returns (r: Outcome)
      modifies this`groups, this`gdCodes
      ensures var s := Setting(t.Cols(), t.defaults, Hierarchy(activities.acts), model, category);
              (Grouping(gdCodes, groups), r) == Grouped(s, Grouping(old(gdCodes), old(groups)), tcs)
    {
      var h := Hierarchy(activities.acts);
      ghost var s := Setting(t.Cols(), t.defaults, h, model, category);
      ghost var goal := Grouped(s, Grouping(gdCodes, groups), tcs);
      var i := 0;
      while i < |tcs|
        invariant 0 <= i <= |tcs|
        invariant Grouped(s, Grouping(gdCodes, groups), tcs[i..]) == goal
      {
        ghost var cur := Grouping(gdCodes, groups);
        GroupedUnfold(s, cur, tcs[i..]);
        assert tcs[i..][0] == tcs[i] && tcs[i..][1..] == tcs[i + 1..];
        var o := GroupChain(s, tcs[i], h, model, category);
        if o.Fail? {
          return o;
        }
        i := i + 1;
      }
      return Pass;
    }

    /** One pass of the loop: the main activity of the chain's sequence names its
        group code, which gains the chain or is entered as a new group. */
    method GroupChain(ghost s: Setting, tc: TripChain, h: map<string, int>, model: string, category: string)
      returns (o: Outcome)
      requires s == Setting(t.Cols(), t.defaults, h, model, category)
      modifies this`groups, this`gdCodes
      ensures (Grouping(gdCodes, groups), o) == GroupStep(s, old(Grouping(gdCodes, groups)), tc)
    {
      var main := MainActivity(h, tc.sequence);
      if main.Err? {
        StepErr(s, Grouping(gdCodes, groups), tc);
        return Fail(main.error);
      }
      var code := tc.group + "_" + main.value;
      if code !in gdCodes {
        o := EnterGroup(s, tc, main.value, code, model, category);
      } else {
        StepKnown(s, Grouping(gdCodes, groups), tc, main.value);
        gdCodes := gdCodes[code := gdCodes[code] + [tc.chain]];
        o := Pass;
      }
    }

    /** A trip chain of a new group code: the code is entered with the chain, then
        the group is added. */
    method EnterGroup(ghost s: Setting, tc: TripChain, main: string, code: string, model: string, category: string)
      returns (o: Outcome)
      requires s.cols == t.Cols() && s.defaults == t.defaults && s.model == model && s.category == category
      requires MainActivity(s.h, tc.sequence) == Ok(main) && code == tc.group + "_" + main && code !in gdCodes
      modifies this`groups, this`gdCodes
      ensures (Grouping(gdCodes, groups), o) == GroupStep(s, old(Grouping(gdCodes, groups)), tc)
    {
      StepNew(s, Grouping(gdCodes, groups), tc, main);
      gdCodes := gdCodes[code := [tc.chain]];
      var kwargs := NewGroupKeywords(tc, main, category);
      KeywordsOfNewGroup(s, tc, code, main);
      o := AddGroup(code, model, kwargs);
    }

    /** `create_df_from_group_list`: the collected groups go into the table in one batch
        (the frame's records lead with the key CODE, which is the first column already);
        no groups on an empty table is `add_rows`' IndexError. */
    method CreateDfFromGroupList() returns (r: Outcome)
      requires Valid()
      modifies t`table, t`frame, t`frameCols
      ensures Valid()
      ensures t.table == old(t.table) + groups
      ensures r.Pass? ==> (forall k :: 0 <= k < |groups| ==> |groups[k]| == |t.Cols()|) && KeyPositions(t.Cols(), t.Pkey()).Ok?
      ensures r.Pass? ==> t.frame == old(t.frame) + EntriesOf(t.Cols(), t.Pkey(), KeyPositions(t.Cols(), t.Pkey()).value, groups)
      ensures r.Fail? ==> t.frame == old(t.frame)
      ensures |old(t.table)| == 0 && |groups| == 0 ==> r == Fail(IndexError)
      ensures r.Pass? <==>
        && (|old(t.table)| > 0 || |groups| > 0)
        && (forall k :: 0 <= k < |groups| ==> |groups[k]| == |t.Cols()|)
        && KeyPositions(t.Cols(), t.Pkey()).Ok?
        && DistinctKeys(old(t.frame) + EntriesOf(t.Cols(), t.Pkey(), KeyPositions(t.Cols(), t.Pkey()).value, groups))
      ensures r.Fail? && (|old(t.table)| > 0 || |groups| > 0) && KeyPositions(t.Cols(), t.Pkey()).Ok?
              && (forall k :: 0 <= k < |groups| ==> |groups[k]| == |t.Cols()|)
              ==> r.error == ValueError("Indexes have overlapping values")
    {
      r := t.AddRows(groups);
    }
  }
}
