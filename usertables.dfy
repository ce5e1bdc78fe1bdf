/** User-defined tables: `create_userdefined_table` makes a table class with a
    column per data attribute, registers it, records the table in the
    Tabellendefinition table and declares one user-defined attribute per column. */
module UserTables {
  import opened Wrappers
  import opened Text
  import opened Schema
  import opened Tables

  // ---------------------------------------------------------------------------
  // Tabellendefinition

  /** The class names its key `_pk`, which is not `_pkey`, so the key is the first column NAME. */
  const DefinitionCols: seq<string> := ["NAME", "GRUPPE", "KOMMENTAR"]

  const DefinitionClass: TableClass :=
    TableClass("TABELLENDEFINITION", "Tabellendefinitionen", Join(DefinitionCols, ";"), "", map[], "+", true)

  predicate DefinitionFieldsAt(cols: seq<string>)
  {
    |cols| == 3 && FieldName(cols[0]) == "name" && FieldName(cols[1]) == "gruppe" && cols[2] == "KOMMENTAR"
  }

  /** A table of the class `Tabellendefinition`: its columns, keyed by NAME, no defaults. */
  predicate DefinitionShaped(t: VisumTable)
    reads t
  {
    DefinitionFieldsAt(t.Cols()) && t.pkeyRaw == "" && t.defaults == map[]
  }

  lemma DefinitionColumns()
    ensures ColsOf(DefinitionClass.cols) == DefinitionCols
  {
    DefinitionPlain();
    ColsOfJoin(DefinitionCols);
  }

  lemma DefinitionPlain()
    ensures PlainColumns(DefinitionCols)
  {
  }

  lemma DefinitionFields()
    ensures FieldName("GRUPPE") == "gruppe"
  {
    FieldOf("GRUPPE", "gruppe");
  }

  lemma DefinitionFieldsOfCols()
    ensures DefinitionFieldsAt(DefinitionCols)
  {
    assert DefinitionCols[0] == "NAME" && DefinitionCols[1] == "GRUPPE" && DefinitionCols[2] == "KOMMENTAR";
    CodeNameFields();
    DefinitionFields();
  }

  /** A table made from the class has that shape. */
  lemma DefinitionClassShaped(t: VisumTable)
    requires t.colsRaw == DefinitionClass.cols && t.pkeyRaw == DefinitionClass.pkey
    requires t.defaults == DefinitionClass.defaults
    ensures DefinitionShaped(t)
  {
    DefinitionColumns();
    DefinitionFieldsOfCols();
  }

  /** `tabledef.Row(name=name, gruppe=group)`: KOMMENTAR stays empty, whatever comment
      the caller passed. */
  function DefinitionRow(name: string, group: string): Row
  {
    [VStr(name), VStr(group), VStr("")]
  }

  lemma DefinitionRowOf(cols: seq<string>, name: string, group: string)
    requires DefinitionFieldsAt(cols)
    ensures MakeRow(cols, map[], map["name" := VStr(name), "gruppe" := VStr(group)]) == Ok(DefinitionRow(name, group))
  {
    var o := map["name" := VStr(name), "gruppe" := VStr(group)];
    assert FieldNames(cols)[0] == "name" && FieldNames(cols)[1] == "gruppe";
    GivenCell(cols, map[], o, 0, "name");
    GivenCell(cols, map[], o, 1, "gruppe");
    assert "kommentar" !in o;
    var row := MakeRow(cols, map[], o).value;
    assert row == DefinitionRow(name, group);
  }

  /** The `add_row` of `create_userdefined_table`: the definition row is appended to
      the record array; the keyed view takes it unless the name is already there. */
  method AddDefinition(t: VisumTable, name: string, group: string) returns (r: Outcome)
    requires t.Valid() && DefinitionShaped(t)
    modifies t`table, t`frame, t`frameCols
    ensures t.Valid()
    ensures t.table == old(t.table) + [DefinitionRow(name, group)]
    ensures r.Pass? <==> [VStr(name)] !in KeysOf(old(t.frame))
    ensures r.Pass? ==> t.frame == old(t.frame) + [EntryOf(t.Cols(), t.Pkey(), [0], DefinitionRow(name, group))]
    ensures r.Fail? ==> t.frame == old(t.frame) && r == Fail(ValueError("Indexes have overlapping values"))
  {
    DefinitionRowOf(t.Cols(), name, group);
    var row := t.NewRow(map["name" := VStr(name), "gruppe" := VStr(group)]);
    FirstColumnKey(t.Cols());
    assert Project(row.value, [0]) == [VStr(name)];
    r := t.AddRow(row.value);
  }

  /** A fresh Tabellendefinition, as made for `tabledef=None`, always takes the row. */
  lemma FreshDefinition(t: VisumTable, name: string)
    requires t.frame == []
    ensures [VStr(name)] !in KeysOf(t.frame)
  {
  }

  // ---------------------------------------------------------------------------
  // The generated table class

  /** `col_attrs.get(col, {})`. */
  function AttrsOf(colAttrs: map<string, map<string, Value>>, col: string): map<string, Value>
  {
    if col in colAttrs then colAttrs[col] else map[]
  }

  /** A column declared as a formula attribute: it has no column in the table. */
  predicate IsFormel(colAttrs: map<string, map<string, Value>>, col: string)
  {
    "formel" in AttrsOf(colAttrs, col)
  }

  /** The `cols_types` keys that are not formula attributes, in key order. */
  function DataColumns(colsTypes: seq<(string, string)>, colAttrs: map<string, map<string, Value>>): seq<string>
  {
    if |colsTypes| == 0 then []
    else (if IsFormel(colAttrs, colsTypes[0].0) then [] else [colsTypes[0].0]) + DataColumns(colsTypes[1..], colAttrs)
  }

  /** `colnames`: the definition name and the row number, then the data columns. */
  function UserColumns(colsTypes: seq<(string, string)>, colAttrs: map<string, map<string, Value>>): seq<string>
  {
    ["TABELLENDEFINITIONNAME", "NR"] + DataColumns(colsTypes, colAttrs)
  }

  function UserTableCode(name: string): string
  {
    "TABLEENTRIES_" + name
  }

  /** `defaults` after `defaults['TABELLENDEFINITIONNAME'] = name`. */
  function UserDefaults(defaults: map<string, Value>, name: string): map<string, Value>
  {
    defaults["TABELLENDEFINITIONNAME" := VStr(name)]
  }

  /** The class the metaclass builds: key and mode are those of VisumTable. */
  function UserTableClass(name: string, colsTypes: seq<(string, string)>, defaults: map<string, Value>,
                          colAttrs: map<string, map<string, Value>>): TableClass
  {
    TableClass(UserTableCode(name), "Tabelleneinträge: " + name, Join(UserColumns(colsTypes, colAttrs), ";"),
               BaseClass.pkey, UserDefaults(defaults, name), BaseClass.mode, BaseClass.modeKeyword)
  }

  /** A column is a table column iff some `cols_types` key names it and it is no formula. */
  lemma {:induction false} DataColumnsMembers(colsTypes: seq<(string, string)>,
                                              colAttrs: map<string, map<string, Value>>, c: string)
    ensures c in DataColumns(colsTypes, colAttrs) <==>
            exists i :: 0 <= i < |colsTypes| && colsTypes[i].0 == c && !IsFormel(colAttrs, c)
  {
    if |colsTypes| > 0 {
      DataColumnsMembers(colsTypes[1..], colAttrs, c);
      if exists i :: 0 <= i < |colsTypes| && colsTypes[i].0 == c && !IsFormel(colAttrs, c) {
        var i :| 0 <= i < |colsTypes| && colsTypes[i].0 == c && !IsFormel(colAttrs, c);
        if i > 0 {
          assert colsTypes[1..][i - 1] == colsTypes[i];
        }
      }
      if c in DataColumns(colsTypes[1..], colAttrs) {
        var i :| 0 <= i < |colsTypes| - 1 && colsTypes[1..][i].0 == c && !IsFormel(colAttrs, c);
        assert colsTypes[i + 1] == colsTypes[1..][i];
      }
    }
  }

  lemma UserColumnsPlain()
    ensures PlainColumns(["TABELLENDEFINITIONNAME", "NR"])
  {
  }

  /** Columns without `;` or a backslash read back as written, starting with the
      definition name and NR. */
  lemma UserColumnsRead(name: string, colsTypes: seq<(string, string)>, defaults: map<string, Value>,
                        colAttrs: map<string, map<string, Value>>)
    requires PlainColumns(DataColumns(colsTypes, colAttrs))
    ensures ColsOf(UserTableClass(name, colsTypes, defaults, colAttrs).cols) == UserColumns(colsTypes, colAttrs)
  {
    UserColumnsPlain();
    PlainConcat(["TABELLENDEFINITIONNAME", "NR"], DataColumns(colsTypes, colAttrs));
    ColsOfJoin(UserColumns(colsTypes, colAttrs));
  }

  lemma DefinitionNameField()
    ensures FieldName("TABELLENDEFINITIONNAME") == "tabellendefinitionname"
    ensures CapitalColumn("TABELLENDEFINITIONNAME")
  {
    FieldOf("TABELLENDEFINITIONNAME", "tabellendefinitionname");
  }

  /** Every row of a generated table that does not set TABELLENDEFINITIONNAME carries
      the table name in that column, and that column is the key. */
  lemma DefaultRowKey(t: VisumTable, name: string, colsTypes: seq<(string, string)>,
                      defaults: map<string, Value>, colAttrs: map<string, map<string, Value>>,
                      overrides: map<string, Value>)
    requires var cls := UserTableClass(name, colsTypes, defaults, colAttrs);
             t.colsRaw == cls.cols && t.pkeyRaw == cls.pkey && t.defaults == cls.defaults
    requires PlainColumns(DataColumns(colsTypes, colAttrs))
    requires "tabellendefinitionname" !in overrides && t.NewRow(overrides).Ok?
    ensures KeyPositions(t.Cols(), t.Pkey()) == Ok([0])
    ensures Project(t.NewRow(overrides).value, [0]) == [VStr(name)]
  {
    UserColumnsRead(name, colsTypes, defaults, colAttrs);
    FirstColumnKey(t.Cols());
    DefinitionNameField();
    DefaultOfCapitals(t.defaults, "TABELLENDEFINITIONNAME");
    assert t.Cols()[0] == "TABELLENDEFINITIONNAME";
    assert t.NewRow(overrides).value[0] == CellFor(t.Cols(), t.defaults, overrides, 0);
  }

  /** Once a generated table holds a row with the default name, `add_row` of another
      such row is refused: both carry the same key. */
  lemma SecondDefaultRowClashes(t: VisumTable, name: string, colsTypes: seq<(string, string)>,
                                defaults: map<string, Value>, colAttrs: map<string, map<string, Value>>,
                                first: map<string, Value>, second: map<string, Value>)
    requires var cls := UserTableClass(name, colsTypes, defaults, colAttrs);
             t.colsRaw == cls.cols && t.pkeyRaw == cls.pkey && t.defaults == cls.defaults
    requires PlainColumns(DataColumns(colsTypes, colAttrs))
    requires "tabellendefinitionname" !in first && t.NewRow(first).Ok?
    requires "tabellendefinitionname" !in second && t.NewRow(second).Ok?
    requires t.frame != [] && t.frame[|t.frame| - 1] ==
             EntryOf(t.Cols(), t.Pkey(), [0], t.NewRow(first).value)
    ensures KeyPositions(t.Cols(), t.Pkey()).Ok?
    ensures Project(t.NewRow(second).value, KeyPositions(t.Cols(), t.Pkey()).value) in KeysOf(t.frame)
  {
    DefaultRowKey(t, name, colsTypes, defaults, colAttrs, first);
    DefaultRowKey(t, name, colsTypes, defaults, colAttrs, second);
    assert KeysOf(t.frame)[|t.frame| - 1] == [VStr(name)];
  }

  // ---------------------------------------------------------------------------
  // The user-defined attributes

  /** An entry of the BenutzerdefiniertesAttribut table as the factory asks for it:
      the owning table code, the column, its type and the further keyword arguments. */
  datatype AttributeDef =
    | Formel(objid: string, name: string, datentyp: string, attrs: map<string, Value>)
    | Daten(objid: string, name: string, datentyp: string, attrs: map<string, Value>)

  /** The BenutzerdefiniertesAttribut table, reduced to the attributes declared on it. */
  class UserAttributes {
    var log: seq<AttributeDef>

    constructor ()
      ensures log == []
    {
      log := [];
    }
  }

  /** The attribute log and `col_attrs` while the loop runs. */
  datatype AttrState = AttrState(log: seq<AttributeDef>, colAttrs: map<string, map<string, Value>>)

  /** Keyword arguments that clash with the explicit `objid`, `name` and `datentyp`. */
  predicate Reserved(attrs: map<string, Value>)
  {
    "objid" in attrs || "name" in attrs || "datentyp" in attrs
  }

  const MultipleValues := "got multiple values for keyword argument"

  /** One column of the loop: a formula column first loses `datenquellentyp` in the
      caller's dictionary; a keyword clashing with the explicit ones is a TypeError. */
  function AttributeStep(st: AttrState, code: string, col: string, dtype: string): (AttrState, Outcome)
  {
    var attrs := AttrsOf(st.colAttrs, col);
    if "formel" in attrs then
      var popped := attrs - {"datenquellentyp"};
      var ca := st.colAttrs[col := popped];
      if Reserved(popped) then (AttrState(st.log, ca), Fail(TypeError(MultipleValues)))
      else (AttrState(st.log + [Formel(code, col, dtype, popped)], ca), Pass)
    else if Reserved(attrs) then (st, Fail(TypeError(MultipleValues)))
    else (AttrState(st.log + [Daten(code, col, dtype, attrs)], st.colAttrs), Pass)
  }

  /** The loop over `cols_types`: it stops at the first TypeError. */
  function AttributesFold(st: AttrState, code: string, colsTypes: seq<(string, string)>): (AttrState, Outcome)
    decreases |colsTypes|
  {
    if |colsTypes| == 0 then (st, Pass)
    else
      var step := AttributeStep(st, code, colsTypes[0].0, colsTypes[0].1);
      if step.1.Fail? then step else AttributesFold(step.0, code, colsTypes[1..])
  }

  /** The attribute a column is declared as, read off the caller's `col_attrs`. */
  function AttributeOf(colAttrs: map<string, map<string, Value>>, code: string, col: string, dtype: string): AttributeDef
  {
    if IsFormel(colAttrs, col) then Formel(code, col, dtype, AttrsOf(colAttrs, col) - {"datenquellentyp"})
    else Daten(code, col, dtype, AttrsOf(colAttrs, col))
  }

  function AttributeDefs(colAttrs: map<string, map<string, Value>>, code: string, colsTypes: seq<(string, string)>)
    : (r: seq<AttributeDef>)
    ensures |r| == |colsTypes|
    ensures forall i :: 0 <= i < |colsTypes| ==> r[i] == AttributeOf(colAttrs, code, colsTypes[i].0, colsTypes[i].1)
  {
    seq(|colsTypes|, i requires 0 <= i < |colsTypes| => AttributeOf(colAttrs, code, colsTypes[i].0, colsTypes[i].1))
  }

  /** Popping `datenquellentyp` keeps what the loop looks at: whether a column is a
      formula, its clashing keywords and its attributes without `datenquellentyp`. */
  ghost predicate PopEquivalent(a: map<string, map<string, Value>>, b: map<string, map<string, Value>>)
  {
    forall col ::
      && (IsFormel(a, col) <==> IsFormel(b, col))
      && (Reserved(AttrsOf(a, col)) <==> Reserved(AttrsOf(b, col)))
      && AttrsOf(a, col) - {"datenquellentyp"} == AttrsOf(b, col) - {"datenquellentyp"}
      && (!IsFormel(b, col) ==> AttrsOf(a, col) == AttrsOf(b, col))
  }

  lemma StepPopEquivalent(st: AttrState, code: string, col: string, dtype: string)
    ensures PopEquivalent(AttributeStep(st, code, col, dtype).0.colAttrs, st.colAttrs)
  {
    var attrs := AttrsOf(st.colAttrs, col);
    if "formel" in attrs {
      var popped := attrs - {"datenquellentyp"};
      var ca := st.colAttrs[col := popped];
      forall c ensures && (IsFormel(ca, c) <==> IsFormel(st.colAttrs, c))
                       && (Reserved(AttrsOf(ca, c)) <==> Reserved(AttrsOf(st.colAttrs, c)))
                       && AttrsOf(ca, c) - {"datenquellentyp"} == AttrsOf(st.colAttrs, c) - {"datenquellentyp"}
                       && (!IsFormel(st.colAttrs, c) ==> AttrsOf(ca, c) == AttrsOf(st.colAttrs, c)) {
        if c == col {
          assert AttrsOf(ca, c) == popped;
          assert popped - {"datenquellentyp"} == popped;
        }
      }
    }
  }

  lemma PopEquivalentTrans(a: map<string, map<string, Value>>, b: map<string, map<string, Value>>,
                           c: map<string, map<string, Value>>)
    requires PopEquivalent(a, b) && PopEquivalent(b, c)
    ensures PopEquivalent(a, c)
  {
  }

  lemma PopEquivalentRefl(a: map<string, map<string, Value>>)
    ensures PopEquivalent(a, a)
  {
  }

  /** The loop ends without error iff no column has a keyword clashing with the explicit ones. */
  lemma {:induction false} AttributesFoldPass(st: AttrState, code: string, colsTypes: seq<(string, string)>)
    ensures AttributesFold(st, code, colsTypes).1.Pass? <==>
            forall i :: 0 <= i < |colsTypes| ==> !Reserved(AttrsOf(st.colAttrs, colsTypes[i].0))
    ensures AttributesFold(st, code, colsTypes).1.Fail? ==> AttributesFold(st, code, colsTypes).1 == Fail(TypeError(MultipleValues))
    ensures PopEquivalent(AttributesFold(st, code, colsTypes).0.colAttrs, st.colAttrs)
    decreases |colsTypes|
  {
    if |colsTypes| == 0 {
      PopEquivalentRefl(st.colAttrs);
    } else {
      var step := AttributeStep(st, code, colsTypes[0].0, colsTypes[0].1);
      StepPopEquivalent(st, code, colsTypes[0].0, colsTypes[0].1);
      if step.1.Pass? {
        AttributesFoldPass(step.0, code, colsTypes[1..]);
        PopEquivalentTrans(AttributesFold(step.0, code, colsTypes[1..]).0.colAttrs, step.0.colAttrs, st.colAttrs);
        forall i | 1 <= i < |colsTypes| ensures colsTypes[i] == colsTypes[1..][i - 1] {
        }
      }
    }
  }

  /** Without error, the log gains one attribute per column, in `cols_types` order:
      a formula attribute without `datenquellentyp` or a data attribute, as the
      caller's `col_attrs` declares it. */
  lemma {:induction false} AttributesFoldLog(st: AttrState, ca0: map<string, map<string, Value>>, code: string,
                                             colsTypes: seq<(string, string)>)
    requires PopEquivalent(st.colAttrs, ca0)
    requires AttributesFold(st, code, colsTypes).1.Pass?
    ensures AttributesFold(st, code, colsTypes).0.log == st.log + AttributeDefs(ca0, code, colsTypes)
    decreases |colsTypes|
  {
    if |colsTypes| == 0 {
      assert AttributeDefs(ca0, code, colsTypes) == [];
    } else {
      var col := colsTypes[0].0;
      var step := AttributeStep(st, code, col, colsTypes[0].1);
      assert step.1.Pass? && AttributesFold(st, code, colsTypes) == AttributesFold(step.0, code, colsTypes[1..]);
      assert PopEquivalent(step.0.colAttrs, ca0) by {
        StepPopEquivalent(st, code, col, colsTypes[0].1);
        PopEquivalentTrans(step.0.colAttrs, st.colAttrs, ca0);
      }
      assert step.0.log == st.log + [AttributeOf(ca0, code, col, colsTypes[0].1)] by {
        StepLog(st, ca0, code, col, colsTypes[0].1);
      }
      AttributesFoldLog(step.0, ca0, code, colsTypes[1..]);
      DefsCons(ca0, code, colsTypes);
      AppendAssoc(st.log, [AttributeOf(ca0, code, col, colsTypes[0].1)], AttributeDefs(ca0, code, colsTypes[1..]));
    }
  }

  /** A step without error logs the attribute the caller's `col_attrs` declares. */
  lemma StepLog(st: AttrState, ca0: map<string, map<string, Value>>, code: string, col: string, dtype: string)
    requires PopEquivalent(st.colAttrs, ca0)
    requires AttributeStep(st, code, col, dtype).1.Pass?
    ensures AttributeStep(st, code, col, dtype).0.log == st.log + [AttributeOf(ca0, code, col, dtype)]
  {
    assert IsFormel(st.colAttrs, col) <==> IsFormel(ca0, col);
    assert AttrsOf(st.colAttrs, col) - {"datenquellentyp"} == AttrsOf(ca0, col) - {"datenquellentyp"};
    assert !IsFormel(ca0, col) ==> AttrsOf(st.colAttrs, col) == AttrsOf(ca0, col);
  }

  lemma DefsCons(ca0: map<string, map<string, Value>>, code: string, colsTypes: seq<(string, string)>)
    requires |colsTypes| > 0
    ensures AttributeDefs(ca0, code, colsTypes)
            == [AttributeOf(ca0, code, colsTypes[0].0, colsTypes[0].1)] + AttributeDefs(ca0, code, colsTypes[1..])
  {
    var defs := AttributeDefs(ca0, code, colsTypes);
    var rest := AttributeDefs(ca0, code, colsTypes[1..]);
    assert forall i :: 1 <= i < |colsTypes| ==> colsTypes[1..][i - 1] == colsTypes[i];
    assert defs[1..] == rest;
  }

  /** `cols_types` has the column as a key. */
  predicate Declares(colsTypes: seq<(string, string)>, col: string)
  {
    exists i :: 0 <= i < |colsTypes| && colsTypes[i].0 == col
  }

  lemma DeclaresCons(colsTypes: seq<(string, string)>, col: string)
    requires |colsTypes| > 0
    ensures Declares(colsTypes, col) <==> colsTypes[0].0 == col || Declares(colsTypes[1..], col)
  {
    if Declares(colsTypes, col) && colsTypes[0].0 != col {
      var i :| 0 <= i < |colsTypes| && colsTypes[i].0 == col;
      assert colsTypes[1..][i - 1] == colsTypes[i];
    }
    if Declares(colsTypes[1..], col) {
      var i :| 0 <= i < |colsTypes| - 1 && colsTypes[1..][i].0 == col;
      assert colsTypes[i + 1] == colsTypes[1..][i];
    }
  }

  /** One step without error pops `datenquellentyp` of its own column if it is a formula. */
  lemma StepPops(st: AttrState, code: string, col: string, dtype: string)
    requires AttributeStep(st, code, col, dtype).1.Pass?
    ensures var ca := AttributeStep(st, code, col, dtype).0.colAttrs;
            && ca.Keys == st.colAttrs.Keys
            && forall c :: c in ca ==>
                 ca[c] == if c == col && IsFormel(st.colAttrs, c) then st.colAttrs[c] - {"datenquellentyp"} else st.colAttrs[c]
  {
  }

  /** Without error, `col_attrs` keeps its columns; exactly the formula columns of
      `cols_types` lose `datenquellentyp`. */
  lemma {:induction false} AttributesFoldPops(st: AttrState, code: string, colsTypes: seq<(string, string)>)
    requires AttributesFold(st, code, colsTypes).1.Pass?
    ensures var ca := AttributesFold(st, code, colsTypes).0.colAttrs;
            && ca.Keys == st.colAttrs.Keys
            && forall col :: col in ca ==>
                 ca[col] == if IsFormel(st.colAttrs, col) && Declares(colsTypes, col)
                            then st.colAttrs[col] - {"datenquellentyp"} else st.colAttrs[col]
    decreases |colsTypes|
  {
    if |colsTypes| > 0 {
      var col0 := colsTypes[0].0;
      var step := AttributeStep(st, code, col0, colsTypes[0].1);
      assert AttributesFold(st, code, colsTypes) == AttributesFold(step.0, code, colsTypes[1..]);
      AttributesFoldPops(step.0, code, colsTypes[1..]);
      StepPops(st, code, col0, colsTypes[0].1);
      var ca := AttributesFold(st, code, colsTypes).0.colAttrs;
      forall col | col in ca
        ensures ca[col] == if IsFormel(st.colAttrs, col) && Declares(colsTypes, col)
                           then st.colAttrs[col] - {"datenquellentyp"} else st.colAttrs[col]
      {
        DeclaresCons(colsTypes, col);
        PopTwice(st.colAttrs, step.0.colAttrs, col, col0);
      }
    }
  }

  /** Popping a column again changes nothing, and popping another column keeps whether it is a formula. */
  lemma PopTwice(a: map<string, map<string, Value>>, b: map<string, map<string, Value>>, col: string, col0: string)
    requires col in a && b.Keys == a.Keys
    requires b[col] == if col == col0 && IsFormel(a, col) then a[col] - {"datenquellentyp"} else a[col]
    ensures IsFormel(b, col) <==> IsFormel(a, col)
    ensures b[col] - {"datenquellentyp"} == a[col] - {"datenquellentyp"}
  {
  }


  /** The names of the data attributes, in order. */
  function DatenNames(defs: seq<AttributeDef>): seq<string>
  {
    if |defs| == 0 then [] else (if defs[0].Daten? then [defs[0].name] else []) + DatenNames(defs[1..])
  }

  /** The table columns after TABELLENDEFINITIONNAME and NR are the data attributes, in order. */
  lemma {:induction false} DataColumnsAreDaten(colAttrs: map<string, map<string, Value>>, code: string,
                                               colsTypes: seq<(string, string)>)
    ensures DataColumns(colsTypes, colAttrs) == DatenNames(AttributeDefs(colAttrs, code, colsTypes))
  {
    if |colsTypes| > 0 {
      DataColumnsAreDaten(colAttrs, code, colsTypes[1..]);
      var defs := AttributeDefs(colAttrs, code, colsTypes);
      assert defs[1..] == AttributeDefs(colAttrs, code, colsTypes[1..]);
    }
  }

  /** The loop of `create_userdefined_table` over `cols_types`. */
  method AddColumnAttributes(ud: UserAttributes, code: string, colsTypes: seq<(string, string)>,
                             colAttrs: map<string, map<string, Value>>)
    returns (colAttrs': map<string, map<string, Value>>, r: Outcome)
    modifies ud`log
    ensures (AttrState(ud.log, colAttrs'), r) == AttributesFold(AttrState(old(ud.log), colAttrs), code, colsTypes)
  {
    ghost var goal := AttributesFold(AttrState(ud.log, colAttrs), code, colsTypes);
    colAttrs' := colAttrs;
    var i := 0;
    while i < |colsTypes|
      invariant 0 <= i <= |colsTypes|
      invariant AttributesFold(AttrState(ud.log, colAttrs'), code, colsTypes[i..]) == goal
    {
      var (col, dtype) := colsTypes[i];
      assert colsTypes[i..][1..] == colsTypes[i + 1..];
      var attrs := AttrsOf(colAttrs', col);
      if "formel" in attrs {
        attrs := attrs - {"datenquellentyp"};
        colAttrs' := colAttrs'[col := attrs];
        if Reserved(attrs) {
          return colAttrs', Fail(TypeError(MultipleValues));
        }
        ud.log := ud.log + [Formel(code, col, dtype, attrs)];
      } else {
        if Reserved(attrs) {
          return colAttrs', Fail(TypeError(MultipleValues));
        }
        ud.log := ud.log + [Daten(code, col, dtype, attrs)];
      }
      i := i + 1;
    }
    r := Pass;
  }

  // ---------------------------------------------------------------------------
  // create_userdefined_table

  /** `create_userdefined_table`: builds and registers the class, changes `defaults`
      in place, adds the definition row (a repeated name raises before any attribute
      is declared) and declares the attributes of the columns. `tabledef` and
      `userdef` left out are fresh tables that the caller never sees. */
  method CreateUserdefinedTable(reg: Registry, name: string, colsTypes: seq<(string, string)>,
                                defaults: map<string, Value>, colAttrs: map<string, map<string, Value>>,
                                group: string, kommentar: string,
                                tabledef: Option<VisumTable>, userdef: Option<UserAttributes>)
    returns (cls: TableClass, reg': Registry, defaults': map<string, Value>,
             colAttrs': map<string, map<string, Value>>, r: Outcome)
    requires tabledef.Some? ==> tabledef.value.Valid() && DefinitionShaped(tabledef.value)
    modifies (if tabledef.Some? then {tabledef.value} else {})`table
    modifies (if tabledef.Some? then {tabledef.value} else {})`frame
    modifies (if tabledef.Some? then {tabledef.value} else {})`frameCols
    modifies (if userdef.Some? then {userdef.value} else {})`log
    ensures cls == UserTableClass(name, colsTypes, defaults, colAttrs)
    ensures reg' == Register(reg, cls) && defaults' == UserDefaults(defaults, name)
    ensures tabledef.Some? ==>
              var t := tabledef.value;
              && t.Valid()
              && t.table == old(t.table) + [DefinitionRow(name, group)]
              && ([VStr(name)] !in KeysOf(old(t.frame)) ==>
                    t.frame == old(t.frame) + [EntryOf(t.Cols(), t.Pkey(), [0], DefinitionRow(name, group))])
              && ([VStr(name)] in KeysOf(old(t.frame)) ==> t.frame == old(t.frame))
    ensures tabledef.Some? && [VStr(name)] in KeysOf(old(tabledef.value.frame)) ==>
              && r == Fail(ValueError("Indexes have overlapping values")) && colAttrs' == colAttrs
              && (userdef.Some? ==> userdef.value.log == old(userdef.value.log))
    ensures tabledef.None? || [VStr(name)] !in KeysOf(old(tabledef.value.frame)) ==>
              var log0 := if userdef.Some? then old(userdef.value.log) else [];
              var res := AttributesFold(AttrState(log0, colAttrs), UserTableCode(name), colsTypes);
              && colAttrs' == res.0.colAttrs && r == res.1
              && (userdef.Some? ==> userdef.value.log == res.0.log)
  {
    var colnames := UserColumns(colsTypes, colAttrs);
    var code := UserTableCode(name);
    defaults' := UserDefaults(defaults, name);
    cls := TableClass(code, "Tabelleneinträge: " + name, Join(colnames, ";"), BaseClass.pkey, defaults', BaseClass.mode, BaseClass.modeKeyword);
    reg' := Register(reg, cls);
    r := AddDefinitionTo(tabledef, name, group);
    if r.Fail? {
      return cls, reg', defaults', colAttrs, r;
    }
    var ud: UserAttributes;
    if userdef.Some? {
      ud := userdef.value;
    } else {
      ud := new UserAttributes();
    }
    colAttrs', r := AddColumnAttributes(ud, code, colsTypes, colAttrs);
  }

  /** The definition row, on the given table or on a fresh one. */
  method AddDefinitionTo(tabledef: Option<VisumTable>, name: string, group: string) returns (r: Outcome)
    requires tabledef.Some? ==> tabledef.value.Valid() && DefinitionShaped(tabledef.value)
    modifies (if tabledef.Some? then {tabledef.value} else {})`table
    modifies (if tabledef.Some? then {tabledef.value} else {})`frame
    modifies (if tabledef.Some? then {tabledef.value} else {})`frameCols
    ensures r.Fail? ==> r == Fail(ValueError("Indexes have overlapping values"))
    ensures r.Pass? <==> tabledef.None? || [VStr(name)] !in KeysOf(old(tabledef.value.frame))
    ensures tabledef.Some? ==>
              var t := tabledef.value;
              && t.Valid()
              && t.table == old(t.table) + [DefinitionRow(name, group)]
              && (r.Pass? ==> t.frame == old(t.frame) + [EntryOf(t.Cols(), t.Pkey(), [0], DefinitionRow(name, group))])
              && (r.Fail? ==> t.frame == old(t.frame))
  {
    var t: VisumTable;
    if tabledef.Some? {
      t := tabledef.value;
    } else {
      t := new VisumTable(DefinitionClass, Some("+"));
      DefinitionClassShaped(t);
      FreshDefinition(t, name);
    }
    r := AddDefinition(t, name, group);
  }
}
