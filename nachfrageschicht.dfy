/** Nachfrageschicht: the demand strata of the destination-mode model, one per
    person group of a category and activity chain of that group. */
module DemandStrata {
  import opened Wrappers
  import opened Text
  import opened Schema
  import opened Tables
  import opened PersonGroups

  const StratumCols: seq<string> :=
    ["CODE", "NAME", "NACHFRAGEMODELLCODE", "AKTKETTENCODE", "PGRUPPENCODES", "NSEGSET"]

  const StratumClass: TableClass :=
    TableClass("NACHFRAGESCHICHT", "Nachfrageschichten", Join(StratumCols, ";"), "", map[], "+", true)

  /** Reading the column string of `Nachfrageschicht` back gives its six columns. */
  lemma StratumColumns()
    ensures ColsOf(StratumClass.cols) == StratumCols
  {
    StratumPlain();
    ColsOfJoin(StratumCols);
  }

  lemma StratumPlain()
    ensures PlainColumns(StratumCols)
  {
  }

  /** The code of the stratum of a group and an activity chain: `':'.join((group, chain))`. */
  function StratumCode(group: string, chain: string): string
  {
    group + ":" + chain
  }

  /** The keyword arguments `create_tables_gd` passes to `Row`. */
  function StratumOverrides(group: string, chain: string, model: string, nsegset: string): map<string, Value>
  {
    map["code" := VStr(StratumCode(group, chain)), "name" := VStr(StratumCode(group, chain)),
        "nachfragemodellcode" := VStr(model), "pgruppencodes" := VStr(group),
        "aktkettencode" := VStr(chain), "nsegset" := VStr(nsegset)]
  }

  /** The row of a stratum, in the column order of `Nachfrageschicht`. */
  function StratumRow(group: string, chain: string, model: string, nsegset: string): Row
  {
    [VStr(StratumCode(group, chain)), VStr(StratumCode(group, chain)), VStr(model),
     VStr(chain), VStr(group), VStr(nsegset)]
  }

  /** Columns carrying the fields of `Nachfrageschicht` in its order. */
  predicate StratumFieldsAt(cols: seq<string>)
  {
    && |cols| == 6 && cols[0] == "CODE"
    && FieldName(cols[0]) == "code" && FieldName(cols[1]) == "name"
    && FieldName(cols[2]) == "nachfragemodellcode" && FieldName(cols[3]) == "aktkettencode"
    && FieldName(cols[4]) == "pgruppencodes" && FieldName(cols[5]) == "nsegset"
  }

  lemma StratumEndFields()
    ensures FieldName("AKTKETTENCODE") == "aktkettencode"
    ensures FieldName("PGRUPPENCODES") == "pgruppencodes"
    ensures FieldName("NSEGSET") == "nsegset"
  {
    FieldOf("AKTKETTENCODE", "aktkettencode");
    FieldOf("PGRUPPENCODES", "pgruppencodes");
    FieldOf("NSEGSET", "nsegset");
  }

  lemma StratumFieldsOfCols()
    ensures StratumFieldsAt(StratumCols)
  {
    assert StratumCols[0] == "CODE" && StratumCols[1] == "NAME" && StratumCols[2] == "NACHFRAGEMODELLCODE";
    assert StratumCols[3] == "AKTKETTENCODE" && StratumCols[4] == "PGRUPPENCODES" && StratumCols[5] == "NSEGSET";
    CodeNameFields();
    ModelCodeField();
    StratumEndFields();
  }

  /** Every keyword of a stratum is a field of the stratum columns. */
  lemma StratumKeywords(cols: seq<string>, group: string, chain: string, model: string, nsegset: string)
    requires StratumFieldsAt(cols)
    ensures forall k :: k in StratumOverrides(group, chain, model, nsegset) ==> k in FieldNames(cols)
  {
    var f := FieldNames(cols);
    assert f[0] == "code" && f[1] == "name" && f[2] == "nachfragemodellcode";
    assert f[3] == "aktkettencode" && f[4] == "pgruppencodes" && f[5] == "nsegset";
  }

  lemma StratumGivenCells(cols: seq<string>, defaults: map<string, Value>,
                          group: string, chain: string, model: string, nsegset: string)
    requires StratumFieldsAt(cols)
    ensures var o := StratumOverrides(group, chain, model, nsegset);
            && CellFor(cols, defaults, o, 0) == VStr(StratumCode(group, chain))
            && CellFor(cols, defaults, o, 1) == VStr(StratumCode(group, chain))
            && CellFor(cols, defaults, o, 2) == VStr(model)
            && CellFor(cols, defaults, o, 3) == VStr(chain)
            && CellFor(cols, defaults, o, 4) == VStr(group)
            && CellFor(cols, defaults, o, 5) == VStr(nsegset)
  {
    var o := StratumOverrides(group, chain, model, nsegset);
    GivenCell(cols, defaults, o, 0, "code");
    GivenCell(cols, defaults, o, 1, "name");
    GivenCell(cols, defaults, o, 2, "nachfragemodellcode");
    GivenCell(cols, defaults, o, 3, "aktkettencode");
    GivenCell(cols, defaults, o, 4, "pgruppencodes");
    GivenCell(cols, defaults, o, 5, "nsegset");
  }

  /** `Row(...)` of a stratum is its stratum row: every column is given, so no default matters. */
  lemma StratumRowOf(cols: seq<string>, defaults: map<string, Value>,
                     group: string, chain: string, model: string, nsegset: string)
    requires StratumFieldsAt(cols)
    ensures MakeRow(cols, defaults, StratumOverrides(group, chain, model, nsegset))
            == Ok(StratumRow(group, chain, model, nsegset))
  {
    StratumKeywords(cols, group, chain, model, nsegset);
    StratumGivenCells(cols, defaults, group, chain, model, nsegset);
    MakeRowOfSix(cols, defaults, StratumOverrides(group, chain, model, nsegset),
                 VStr(StratumCode(group, chain)), VStr(StratumCode(group, chain)), VStr(model),
                 VStr(chain), VStr(group), VStr(nsegset));
  }

  /** A table of the class `Nachfrageschicht`: its columns, keyed by the first one. */
  predicate StrataShaped(t: VisumTable)
    reads t
  {
    StratumFieldsAt(t.Cols()) && t.pkeyRaw == ""
  }

  /** A table made from the class has that shape. */
  lemma StrataClassShaped(t: VisumTable)
    requires t.colsRaw == StratumClass.cols && t.pkeyRaw == StratumClass.pkey
    ensures StrataShaped(t)
  {
    StratumColumns();
    StratumFieldsOfCols();
  }

  /** A strata table is keyed by its first column CODE. */
  lemma StrataKey(t: VisumTable)
    requires StrataShaped(t)
    ensures t.Pkey() == [t.Cols()[0]] && KeyPositions(t.Cols(), t.Pkey()) == Ok([0])
  {
    FirstColumnKey(t.Cols());
  }

  // ---------------------------------------------------------------------------
  // The groups of the category

  /** A row of the group frame that `pgroups['CATEGORY'] == category` keeps, with a
      group code as its index. A row without a CATEGORY cell holds NaN there and is
      not kept. */
  predicate OfCategory(e: Entry, category: string)
  {
    |e.key| == 1 && e.key[0].VStr? && "CATEGORY" in e.cells && e.cells["CATEGORY"] == VStr(category)
  }

  /** The index values of `pgroups.loc[pgroups['CATEGORY'] == category]`, in frame order. */
  function SelectedGroups(frame: seq<Entry>, category: string): seq<string>
  {
    if |frame| == 0 then []
    else (if OfCategory(frame[0], category) then [frame[0].key[0].s] else [])
         + SelectedGroups(frame[1..], category)
  }

  /** A code is selected iff some row of the frame with that code belongs to the category. */
  lemma {:induction false} SelectedGroupsMembers(frame: seq<Entry>, category: string, g: string)
    ensures g in SelectedGroups(frame, category) <==>
            exists i :: 0 <= i < |frame| && OfCategory(frame[i], category) && frame[i].key == [VStr(g)]
  {
    if |frame| > 0 {
      SelectedGroupsMembers(frame[1..], category, g);
      if exists i :: 0 <= i < |frame| && OfCategory(frame[i], category) && frame[i].key == [VStr(g)] {
        var i :| 0 <= i < |frame| && OfCategory(frame[i], category) && frame[i].key == [VStr(g)];
        if i > 0 {
          assert frame[1..][i - 1] == frame[i];
        }
      }
      if g in SelectedGroups(frame[1..], category) {
        var i :| 0 <= i < |frame| - 1 && OfCategory(frame[1..][i], category) && frame[1..][i].key == [VStr(g)];
        assert frame[i + 1] == frame[1..][i];
      }
    }
  }

  /** The selected codes, one per selected row: a frame with distinct keys yields each once. */
  lemma {:induction false} SelectedGroupsDistinct(frame: seq<Entry>, category: string)
    requires DistinctKeys(frame)
    ensures NoRepeats(SelectedGroups(frame, category))
  {
    if |frame| > 0 {
      TailKeysDistinct(frame);
      SelectedGroupsDistinct(frame[1..], category);
      if OfCategory(frame[0], category) {
        var g := frame[0].key[0].s;
        assert frame[0].key == [VStr(g)];
        assert g !in SelectedGroups(frame[1..], category) by {
          SelectedGroupsMembers(frame[1..], category, g);
          forall i | 0 <= i < |frame| - 1 ensures frame[1..][i].key != [VStr(g)] {
            assert frame[1..][i] == frame[i + 1];
          }
        }
        ConsNoRepeats(g, SelectedGroups(frame[1..], category));
      }
    }
  }

  predicate NoRepeats(s: seq<string>)
  {
    forall i, j :: 0 <= i < j < |s| ==> s[i] != s[j]
  }

  lemma TailKeysDistinct(frame: seq<Entry>)
    requires |frame| > 0 && DistinctKeys(frame)
    ensures DistinctKeys(frame[1..])
  {
    forall i, j | 0 <= i < j < |frame| - 1 ensures frame[1..][i].key != frame[1..][j].key {
      assert frame[1..][i] == frame[i + 1] && frame[1..][j] == frame[j + 1];
    }
  }

  lemma ConsNoRepeats(g: string, s: seq<string>)
    requires NoRepeats(s) && g !in s
    ensures NoRepeats([g] + s)
  {
    forall i, j | 0 <= i < j < |[g] + s| ensures ([g] + s)[i] != ([g] + s)[j] {
      assert ([g] + s)[j] == s[j - 1];
      if i > 0 {
        assert ([g] + s)[i] == s[i - 1];
      }
    }
  }

  // ---------------------------------------------------------------------------
  // The strata of the selected groups

  /** The strata rows of one group, one per activity chain in order. */
  function ChainRows(group: string, chains: seq<string>, model: string, nsegset: string): (r: seq<Row>)
    ensures |r| == |chains| && forall k :: 0 <= k < |chains| ==> r[k] == StratumRow(group, chains[k], model, nsegset)
  {
    seq(|chains|, k requires 0 <= k < |chains| => StratumRow(group, chains[k], model, nsegset))
  }

  /** The strata rows of the selected groups, group after group, each with the
      chains `gd_codes` holds for it. */
  function StrataRows(gd: map<string, seq<string>>, sel: seq<string>, model: string, nsegset: string): (r: seq<Row>)
    ensures forall k :: 0 <= k < |r| ==> |r[k]| == 6
  {
    if |sel| == 0 then []
    else StrataRows(gd, sel[..|sel| - 1], model, nsegset)
         + ChainRows(sel[|sel| - 1], ChainsOf(gd, sel[|sel| - 1]), model, nsegset)
  }

  /** `gd_codes` after the lookups of the loop: the defaultdict inserts an empty
      list for every selected code it does not hold yet. */
  function Touched(gd: map<string, seq<string>>, sel: seq<string>): map<string, seq<string>>
  {
    if |sel| == 0 then gd
    else
      var m := Touched(gd, sel[..|sel| - 1]);
      if sel[|sel| - 1] in m then m else m[sel[|sel| - 1] := []]
  }

  /** The lookups add exactly the selected codes and change no code's chains. */
  lemma {:induction false} TouchedChains(gd: map<string, seq<string>>, sel: seq<string>)
    ensures Touched(gd, sel).Keys == gd.Keys + set g | g in sel
    ensures forall code :: ChainsOf(Touched(gd, sel), code) == ChainsOf(gd, code)
  {
    if |sel| > 0 {
      var front := sel[..|sel| - 1];
      TouchedChains(gd, front);
      assert sel == front + [sel[|sel| - 1]];
      assert (set g | g in sel) == (set g | g in front) + {sel[|sel| - 1]};
    }
  }

  /** The number of strata: the chains of all selected groups together. */
  function ChainTotal(gd: map<string, seq<string>>, sel: seq<string>): nat
  {
    if |sel| == 0 then 0 else |ChainsOf(gd, sel[0])| + ChainTotal(gd, sel[1..])
  }

  /** The strata rows of two runs of selected codes are those of each, in order. */
  lemma {:induction false} StrataRowsConcat(gd: map<string, seq<string>>, a: seq<string>, b: seq<string>,
                                            model: string, nsegset: string)
    ensures StrataRows(gd, a + b, model, nsegset) == StrataRows(gd, a, model, nsegset) + StrataRows(gd, b, model, nsegset)
    decreases |b|
  {
    if |b| == 0 {
      assert a + b == a;
    } else {
      var b' := b[..|b| - 1];
      assert (a + b)[..|a + b| - 1] == a + b';
      assert (a + b)[|a + b| - 1] == b[|b| - 1];
      StrataRowsConcat(gd, a, b', model, nsegset);
    }
  }

  /** One row per chain of every selected group. */
  lemma {:induction false} StrataCount(gd: map<string, seq<string>>, sel: seq<string>, model: string, nsegset: string)
    ensures |StrataRows(gd, sel, model, nsegset)| == ChainTotal(gd, sel)
  {
    if |sel| > 0 {
      StrataCount(gd, sel[1..], model, nsegset);
      assert sel == [sel[0]] + sel[1..];
      StrataRowsConcat(gd, [sel[0]], sel[1..], model, nsegset);
      assert [sel[0]][..0] == [];
    }
  }

  /** A row is a stratum row iff it is the row of a selected group and one of its chains. */
  lemma StrataMembers(gd: map<string, seq<string>>, sel: seq<string>, model: string, nsegset: string, row: Row)
    ensures row in StrataRows(gd, sel, model, nsegset) <==>
            exists i, c :: 0 <= i < |sel| && c in ChainsOf(gd, sel[i]) && row == StratumRow(sel[i], c, model, nsegset)
  {
    if row in StrataRows(gd, sel, model, nsegset) {
      var i, c := StrataRowOrigin(gd, sel, model, nsegset, row);
    }
    if exists i, c :: 0 <= i < |sel| && c in ChainsOf(gd, sel[i]) && row == StratumRow(sel[i], c, model, nsegset) {
      var i, c :| 0 <= i < |sel| && c in ChainsOf(gd, sel[i]) && row == StratumRow(sel[i], c, model, nsegset);
      StrataRowAt(gd, sel, model, nsegset, i, c);
    }
  }

  /** Every chain of a selected group gives a stratum row. */
  lemma StrataRowAt(gd: map<string, seq<string>>, sel: seq<string>, model: string, nsegset: string, i: nat, c: string)
    requires i < |sel| && c in ChainsOf(gd, sel[i])
    ensures StratumRow(sel[i], c, model, nsegset) in StrataRows(gd, sel, model, nsegset)
  {
    var base := StrataOffset(gd, sel, i, model, nsegset);
    var k :| 0 <= k < |ChainsOf(gd, sel[i])| && ChainsOf(gd, sel[i])[k] == c;
    assert StrataRows(gd, sel, model, nsegset)[base + k] == StratumRow(sel[i], c, model, nsegset);
  }

  /** The selected group and the chain a stratum row comes from. */
  lemma {:induction false} StrataRowOrigin(gd: map<string, seq<string>>, sel: seq<string>, model: string,
                                           nsegset: string, row: Row) returns (i: nat, c: string)
    requires row in StrataRows(gd, sel, model, nsegset)
    ensures i < |sel| && c in ChainsOf(gd, sel[i]) && row == StratumRow(sel[i], c, model, nsegset)
  {
    var n := |sel| - 1;
    var tail := ChainRows(sel[n], ChainsOf(gd, sel[n]), model, nsegset);
    if row in tail {
      var k :| 0 <= k < |tail| && tail[k] == row;
      i, c := n, ChainsOf(gd, sel[n])[k];
    } else {
      i, c := StrataRowOrigin(gd, sel[..n], model, nsegset, row);
      assert sel[..n][i] == sel[i];
    }
  }

  /** The frame entries of the strata rows: each is keyed by its stratum code. */
  function StrataEntries(cols: seq<string>, gd: map<string, seq<string>>, sel: seq<string>,
                         model: string, nsegset: string): (r: seq<Entry>)
    requires StratumFieldsAt(cols)
    ensures |r| == |StrataRows(gd, sel, model, nsegset)|
    ensures forall k :: 0 <= k < |r| ==> r[k].key == [StrataRows(gd, sel, model, nsegset)[k][0]]
  {
    EntriesOf(cols, [cols[0]], [0], StrataRows(gd, sel, model, nsegset))
  }

  /** A group that holds the same activity chain twice yields two strata with one
      code, so the batch cannot be added to any frame. */
  lemma RepeatedChainClashes(cols: seq<string>, gd: map<string, seq<string>>, sel: seq<string>,
                             model: string, nsegset: string, frame: seq<Entry>, i: nat, k1: nat, k2: nat)
    requires StratumFieldsAt(cols)
    requires i < |sel| && k1 < k2 < |ChainsOf(gd, sel[i])|
    requires ChainsOf(gd, sel[i])[k1] == ChainsOf(gd, sel[i])[k2]
    ensures !DistinctKeys(frame + StrataEntries(cols, gd, sel, model, nsegset))
  {
    var base := StrataOffset(gd, sel, i, model, nsegset);
    var chains := ChainsOf(gd, sel[i]);
    var rows := StrataRows(gd, sel, model, nsegset);
    assert rows[base + k1] == StratumRow(sel[i], chains[k1], model, nsegset);
    assert rows[base + k2] == StratumRow(sel[i], chains[k2], model, nsegset);
    var all := frame + StrataEntries(cols, gd, sel, model, nsegset);
    assert all[|frame| + base + k1].key == all[|frame| + base + k2].key;
  }

  /** The strata of the `i`-th selected group stand together, from `base` on. */
  lemma StrataOffset(gd: map<string, seq<string>>, sel: seq<string>, i: nat, model: string, nsegset: string)
    returns (base: nat)
    requires i < |sel|
    ensures base + |ChainsOf(gd, sel[i])| <= |StrataRows(gd, sel, model, nsegset)|
    ensures forall k :: 0 <= k < |ChainsOf(gd, sel[i])| ==>
              StrataRows(gd, sel, model, nsegset)[base + k] == StratumRow(sel[i], ChainsOf(gd, sel[i])[k], model, nsegset)
  {
    StrataSplit(gd, sel, i, model, nsegset);
    base := |StrataRows(gd, sel[..i], model, nsegset)|;
    var mid := ChainRows(sel[i], ChainsOf(gd, sel[i]), model, nsegset);
    var rows := StrataRows(gd, sel, model, nsegset);
    forall k | 0 <= k < |ChainsOf(gd, sel[i])|
      ensures rows[base + k] == StratumRow(sel[i], ChainsOf(gd, sel[i])[k], model, nsegset)
    {
      assert rows[base + k] == mid[k];
    }
  }

  /** The rows of the selected groups: those before the `i`-th, its own, those after. */
  lemma StrataSplit(gd: map<string, seq<string>>, sel: seq<string>, i: nat, model: string, nsegset: string)
    requires i < |sel|
    ensures StrataRows(gd, sel, model, nsegset)
            == StrataRows(gd, sel[..i], model, nsegset)
               + ChainRows(sel[i], ChainsOf(gd, sel[i]), model, nsegset)
               + StrataRows(gd, sel[i + 1..], model, nsegset)
  {
    assert sel == sel[..i + 1] + sel[i + 1..];
    StrataRowsConcat(gd, sel[..i + 1], sel[i + 1..], model, nsegset);
    StrataNext(gd, sel, i, model, nsegset);
  }

  /** `create_tables_gd`: a KeyError when the group frame has no CATEGORY column;
      otherwise one stratum per chain of every group of the category, added in one
      batch. `gd_codes` gains an empty entry for each selected group it lacked. The
      batch fails, with nothing added to the frame, when two strata share a code or
      one is already in the table, and with IndexError when there are no strata and
      the table has no records yet. */
  method CreateStrata(t: VisumTable, pg: Personengruppe, nsegset: string, model: string, category: string)
    returns (r: Outcome)
    requires t.Valid() && StrataShaped(t) && t != pg.t
    modifies t`table, t`frame, t`frameCols, pg`gdCodes
    ensures t.Valid()
    ensures "CATEGORY" !in pg.t.frameCols ==>
              && r == Fail(KeyError("CATEGORY")) && pg.gdCodes == old(pg.gdCodes)
              && t.table == old(t.table) && t.frame == old(t.frame) && t.frameCols == old(t.frameCols)
    ensures "CATEGORY" in pg.t.frameCols ==>
              var sel := SelectedGroups(pg.t.frame, category);
              && pg.gdCodes == Touched(old(pg.gdCodes), sel)
              && t.table == old(t.table) + StrataRows(old(pg.gdCodes), sel, model, nsegset)
              && var rows := StrataRows(old(pg.gdCodes), sel, model, nsegset);
              && (r.Pass? <==> (|old(t.table)| > 0 || |rows| > 0)
                               && DistinctKeys(old(t.frame) + StrataEntries(t.Cols(), old(pg.gdCodes), sel, model, nsegset)))
              && (r.Pass? ==> t.frame == old(t.frame) + StrataEntries(t.Cols(), old(pg.gdCodes), sel, model, nsegset))
              && (r.Fail? ==> t.frame == old(t.frame))
              && (r.Fail? ==> r == if |old(t.table)| == 0 && |rows| == 0 then Fail(IndexError)
                                   else Fail(ValueError("Indexes have overlapping values")))
  {
    if "CATEGORY" !in pg.t.frameCols {
      return Fail(KeyError("CATEGORY"));
    }
    var sel := SelectedGroups(pg.t.frame, category);
    var rows := StrataLoop(t, pg, sel, nsegset, model);
    StrataKey(t);
    r := t.AddRows(rows);
  }

  /** The loop of `create_tables_gd`: the strata of every selected group, in order. */
  method StrataLoop(t: VisumTable, pg: Personengruppe, sel: seq<string>, nsegset: string, model: string)
    returns (rows: seq<Row>)
    requires StrataShaped(t)
    modifies pg`gdCodes
    ensures rows == StrataRows(old(pg.gdCodes), sel, model, nsegset)
    ensures pg.gdCodes == Touched(old(pg.gdCodes), sel)
  {
    ghost var gd0 := pg.gdCodes;
    rows := [];
    var i := 0;
    while i < |sel|
      invariant 0 <= i <= |sel|
      invariant pg.gdCodes == Touched(gd0, sel[..i])
      invariant rows == StrataRows(gd0, sel[..i], model, nsegset)
    {
      var g := sel[i];
      if g !in pg.gdCodes {
        pg.gdCodes := pg.gdCodes[g := []];
      }
      TouchedChains(gd0, sel[..i]);
      assert pg.gdCodes[g] == ChainsOf(gd0, g);
      var more := GroupStrata(t, g, pg.gdCodes[g], nsegset, model);
      StrataNext(gd0, sel, i, model, nsegset);
      rows := rows + more;
      i := i + 1;
    }
    assert sel[..|sel|] == sel;
  }

  lemma StrataNext(gd: map<string, seq<string>>, sel: seq<string>, i: nat, model: string, nsegset: string)
    requires i < |sel|
    ensures StrataRows(gd, sel[..i + 1], model, nsegset)
            == StrataRows(gd, sel[..i], model, nsegset) + ChainRows(sel[i], ChainsOf(gd, sel[i]), model, nsegset)
    ensures Touched(gd, sel[..i + 1])
            == var m := Touched(gd, sel[..i]); if sel[i] in m then m else m[sel[i] := []]
  {
    assert sel[..i + 1][..i] == sel[..i];
  }

  /** The inner loop: `Row(...)` for every chain of one group. */
  method GroupStrata(t: VisumTable, group: string, chains: seq<string>, nsegset: string, model: string)
    returns (rows: seq<Row>)
    requires StrataShaped(t)
    ensures rows == ChainRows(group, chains, model, nsegset)
  {
    rows := [];
    var j := 0;
    while j < |chains|
      invariant 0 <= j <= |chains|
      invariant |rows| == j && forall k :: 0 <= k < j ==> rows[k] == StratumRow(group, chains[k], model, nsegset)
    {
      StratumRowOf(t.Cols(), t.defaults, group, chains[j], model, nsegset);
      var row := t.NewRow(StratumOverrides(group, chains[j], model, nsegset));
      rows := rows + [row.value];
      j := j + 1;
    }
  }
}
