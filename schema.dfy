/** What a VisumTable subclass declares (code, display name, `_cols`, `_pkey`,
    `_defaults`, `_mode`), what is derived from it (columns, primary key, row
    field names, fresh rows), the section-header grammar of the exchange format
    and the attribute catalogue that decides boolean rendering. */
module Schema {
  import opened Wrappers
  import opened Text

  /** A cell value as the Python code stores it; a float is carried by its repr. */
  datatype Value = VNone | VStr(s: string) | VInt(i: int) | VBool(b: bool) | VFloat(repr: string)

  /** A recordclass instance: one value per column, in column order. */
  type Row = seq<Value>

  /** `'{}'.format(v)`, with None written as the empty string. */
  function FormatValue(v: Value): string
  {
    match v
    case VNone => ""
    case VStr(s) => s
    case VInt(i) => IntToString(i)
    case VBool(b) => if b then "True" else "False"
    case VFloat(r) => r
  }

  /** The class attributes of a VisumTable subclass. */
  datatype TableClass = TableClass(
    code: string,
    name: string,
    cols: string,
    pkey: string,
    defaults: map<string, Value>,
    mode: string,
    /** Whether the class's `__init__` accepts the `mode` keyword. */
    modeKeyword: bool)

  /** `VisumTable._modes`: mode tag to the suffix of the block banner. */
  const Modes: map<string, string> :=
    map["" := "", "*" := " (geändert)", "+" := " (eingefügt)", "-" := " (gelöscht)", "!" := ""]

  /** The one-character keys of `_modes`, the only tags a header recognises. */
  const ModeTags: set<char> := {'*', '+', '-', '!'}

  lemma ModeTagsAreModes(c: char)
    ensures c in ModeTags <==> [c] in Modes
  {
  }

  /** A mode other than '' is a single tag character. */
  lemma TaggedMode(mode: string)
    requires mode in Modes && mode != ""
    ensures |mode| == 1 && mode[0] in ModeTags && [mode[0]] == mode
  {
  }

  // ---------------------------------------------------------------------------
  // columns, key and row fields

  /** `cols`: `_cols` with backslashes made underscores, split on ';'. */
  function ColsOf(raw: string): (r: seq<string>)
    ensures |r| >= 1
    ensures forall i :: 0 <= i < |r| ==> ';' !in r[i] && '\\' !in r[i]
  {
    var replaced := ReplaceChar(raw, '\\', '_');
    var parts := Split(replaced, ';');
    assert forall i :: 0 <= i < |parts| ==> '\\' !in parts[i] by {
      JoinSplit(replaced, ';');
      forall i | 0 <= i < |parts| ensures '\\' !in parts[i] {
        PartsOfSplit(replaced, ';', '\\', i);
      }
    }
    parts
  }

  /** A character absent from `s` is absent from every part of its split. */
  lemma {:induction false} PartsOfSplit(s: string, sep: char, c: char, i: nat)
    requires c !in s
    requires i < |Split(s, sep)|
    ensures c !in Split(s, sep)[i]
  {
    if |s| > 0 {
      var rest := Split(s[1..], sep);
      assert c !in s[1..];
      if s[0] == sep {
        if i > 0 { PartsOfSplit(s[1..], sep, c, i - 1); }
      } else if i == 0 {
        PartsOfSplit(s[1..], sep, c, 0);
        assert c != s[0];
      } else {
        PartsOfSplit(s[1..], sep, c, i);
      }
    }
  }

  /** A column well-formed for `_cols`: no ';' and no backslash in it. */
  predicate PlainColumn(c: string)
  {
    ';' !in c && '\\' !in c
  }

  /** Writing columns into `_cols` and reading `cols` back gives the same list. */
  lemma ColsOfJoin(cols: seq<string>)
    requires |cols| >= 1
    requires forall i :: 0 <= i < |cols| ==> PlainColumn(cols[i])
    ensures ColsOf(Join(cols, ";")) == cols
  {
    var j := Join(cols, ";");
    JoinChars(cols, ";", '\\');
    assert ReplaceChar(j, '\\', '_') == j;
    SplitJoin(cols, ';');
  }

  /** `pkey`: the first column when `_pkey` is empty, else `_pkey` split on ';'. */
  function PkeyOf(pkeyRaw: string, cols: seq<string>): (r: seq<string>)
    requires |cols| >= 1
    ensures |r| >= 1
    ensures pkeyRaw == "" ==> r == [cols[0]]
    ensures pkeyRaw != "" ==> Join(r, ";") == pkeyRaw
  {
    if pkeyRaw == "" then [cols[0]]
    else
      JoinSplit(pkeyRaw, ';');
      Split(pkeyRaw, ';')
  }

  /** The recordclass field of a column: lower-cased, then translated. */
  function FieldName(col: string): (f: string)
    ensures |f| == |col|
    ensures forall i :: 0 <= i < |f| ==> f[i] == TranslateChar(LowerChar(col[i]))
  {
    Translate(Lower(col))
  }

  /** A column of capital letters and underscores has the lower-cased column as its field. */
  lemma FieldOf(col: string, field: string)
    requires |col| == |field|
    requires forall i :: 0 <= i < |col| ==>
               ('A' <= col[i] <= 'Z' && field[i] == (col[i] as int + 32) as char) || (col[i] == '_' && field[i] == '_')
    ensures FieldName(col) == field
  {
  }

  /** The two columns almost every table starts with. */
  lemma CodeNameFields()
    ensures FieldName("CODE") == "code" && FieldName("NAME") == "name"
  {
    FieldOf("CODE", "code");
    FieldOf("NAME", "name");
  }

  /** The demand model column of the demand tables. */
  lemma ModelCodeField()
    ensures FieldName("NACHFRAGEMODELLCODE") == "nachfragemodellcode"
  {
    FieldOf("NACHFRAGEMODELLCODE", "nachfragemodellcode");
  }

  /** A column written in capital letters and underscores. */
  predicate CapitalColumn(col: string)
  {
    forall i :: 0 <= i < |col| ==> 'A' <= col[i] <= 'Z' || col[i] == '_'
  }

  /** Upper-casing a column of capitals changes nothing. */
  lemma {:induction false} UpperOfCapitals(s: string)
    requires CapitalColumn(s)
    ensures Upper(s) == s
  {
    if |s| > 0 {
      assert CapitalColumn(s[1..]) by {
        forall i | 0 <= i < |s[1..]| ensures 'A' <= s[1..][i] <= 'Z' || s[1..][i] == '_' {
          assert s[1..][i] == s[i + 1];
        }
      }
      UpperOfCapitals(s[1..]);
      assert s == [s[0]] + s[1..];
    }
  }

  /** The default of a column of capitals is its own entry in the defaults, else ''. */
  lemma DefaultOfCapitals(defaults: map<string, Value>, col: string)
    requires CapitalColumn(col)
    ensures DefaultFor(defaults, col) == if col in defaults then defaults[col] else VStr("")
  {
    UpperOfCapitals(col);
  }

  /** Columns that survive the `;` split and the backslash replacement unchanged. */
  predicate PlainColumns(cols: seq<string>)
  {
    forall i :: 0 <= i < |cols| ==> PlainColumn(cols[i])
  }

  lemma PlainConcat(a: seq<string>, b: seq<string>)
    requires PlainColumns(a) && PlainColumns(b)
    ensures PlainColumns(a + b)
  {
    forall i | 0 <= i < |a + b| ensures PlainColumn((a + b)[i]) {
      if i >= |a| { assert (a + b)[i] == b[i - |a|]; }
    }
  }

  function FieldNames(cols: seq<string>): (r: seq<string>)
    ensures |r| == |cols| && forall i :: 0 <= i < |cols| ==> r[i] == FieldName(cols[i])
  {
    seq(|cols|, i requires 0 <= i < |cols| => FieldName(cols[i]))
  }

  /** The default of a column: `_defaults[c.upper()]` if that key exists, else ''. */
  function DefaultFor(defaults: map<string, Value>, col: string): Value
  {
    if Upper(col) in defaults then defaults[Upper(col)] else VStr("")
  }

  /** The cell of column `i` in `Row(**overrides)`: the override of its field, else its default. */
  function CellFor(cols: seq<string>, defaults: map<string, Value>, overrides: map<string, Value>, i: nat): Value
    requires i < |cols|
  {
    if FieldName(cols[i]) in overrides then overrides[FieldName(cols[i])] else DefaultFor(defaults, cols[i])
  }

  /** `Row(**overrides)`: every column takes its override or else its default;
      a keyword that is not a field is a TypeError. */
  function MakeRow(cols: seq<string>, defaults: map<string, Value>, overrides: map<string, Value>): (r: Result<Row>)
    ensures r.Ok? <==> forall k :: k in overrides ==> k in FieldNames(cols)
    ensures r.Err? ==> r.error.TypeError?
    ensures r.Ok? ==> |r.value| == |cols|
    ensures r.Ok? ==> forall i :: 0 <= i < |cols| ==> r.value[i] == CellFor(cols, defaults, overrides, i)
  {
    if forall k :: k in overrides ==> k in FieldNames(cols) then
      Ok(seq(|cols|, i requires 0 <= i < |cols| => CellFor(cols, defaults, overrides, i)))
    else
      Err(TypeError("unexpected keyword argument"))
  }

  /** A row whose cells are those of `Row(**overrides)` is that row, when every keyword is a field. */
  lemma MakeRowIs(cols: seq<string>, defaults: map<string, Value>, overrides: map<string, Value>, expected: Row)
    requires forall k :: k in overrides ==> k in FieldNames(cols)
    requires |expected| == |cols| && forall i :: 0 <= i < |cols| ==> expected[i] == CellFor(cols, defaults, overrides, i)
    ensures MakeRow(cols, defaults, overrides) == Ok(expected)
  {
    var row := MakeRow(cols, defaults, overrides).value;
    assert row == expected;
  }

  /** `MakeRowIs` for four columns, cell by cell. */
  lemma MakeRowOfFour(cols: seq<string>, defaults: map<string, Value>, overrides: map<string, Value>,
                      a: Value, b: Value, c: Value, d: Value)
    requires MakeRow(cols, defaults, overrides).Ok? && |cols| == 4
    requires CellFor(cols, defaults, overrides, 0) == a && CellFor(cols, defaults, overrides, 1) == b
    requires CellFor(cols, defaults, overrides, 2) == c && CellFor(cols, defaults, overrides, 3) == d
    ensures MakeRow(cols, defaults, overrides) == Ok([a, b, c, d])
  {
    MakeRowIs(cols, defaults, overrides, [a, b, c, d]);
  }

  /** `MakeRowIs` for six columns, cell by cell. */
  lemma MakeRowOfSix(cols: seq<string>, defaults: map<string, Value>, overrides: map<string, Value>,
                     a: Value, b: Value, c: Value, d: Value, e: Value, f: Value)
    requires MakeRow(cols, defaults, overrides).Ok? && |cols| == 6
    requires CellFor(cols, defaults, overrides, 0) == a && CellFor(cols, defaults, overrides, 1) == b
    requires CellFor(cols, defaults, overrides, 2) == c && CellFor(cols, defaults, overrides, 3) == d
    requires CellFor(cols, defaults, overrides, 4) == e && CellFor(cols, defaults, overrides, 5) == f
    ensures MakeRow(cols, defaults, overrides) == Ok([a, b, c, d, e, f])
  {
    MakeRowIs(cols, defaults, overrides, [a, b, c, d, e, f]);
  }

  /** The cell of a column whose field is given is the given value. */
  lemma GivenCell(cols: seq<string>, defaults: map<string, Value>, overrides: map<string, Value>, i: nat, f: string)
    requires i < |cols| && FieldName(cols[i]) == f && f in overrides
    ensures CellFor(cols, defaults, overrides, i) == overrides[f]
  {
  }

  /** The attribute `row.<field>`: the value of the first column with that field name. */
  function RowGet(cols: seq<string>, row: Row, field: string): Option<Value>
    requires |row| == |cols|
  {
    if |cols| == 0 then None
    else if FieldName(cols[0]) == field then Some(row[0])
    else RowGet(cols[1..], row[1..], field)
  }

  /** Reading a field of a fresh row gives the override when one was given and the
      column default otherwise; a name that is no field is absent. */
  lemma {:induction false} MakeRowGet(cols: seq<string>, defaults: map<string, Value>,
                                      overrides: map<string, Value>, field: string, i: nat)
    requires MakeRow(cols, defaults, overrides).Ok?
    requires i < |cols| && FieldName(cols[i]) == field
    requires forall j :: 0 <= j < i ==> FieldName(cols[j]) != field
    ensures RowGet(cols, MakeRow(cols, defaults, overrides).value, field) ==
            Some(if field in overrides then overrides[field] else DefaultFor(defaults, cols[i]))
  {
    var row := MakeRow(cols, defaults, overrides).value;
    if i > 0 {
      assert FieldName(cols[0]) != field;
      MakeRowGetTail(cols, defaults, overrides, row, field, i);
    }
  }

  lemma {:induction false} MakeRowGetTail(cols: seq<string>, defaults: map<string, Value>,
                                          overrides: map<string, Value>, row: Row, field: string, i: nat)
    requires |row| == |cols|
    requires 0 < i < |cols|
    requires forall j :: 0 <= j < i ==> FieldName(cols[j]) != field
    requires FieldName(cols[i]) == field
    ensures RowGet(cols, row, field) == Some(row[i])
  {
    if i > 1 {
      MakeRowGetTail(cols[1..], defaults, overrides, row[1..], field, i - 1);
    }
  }

  // ---------------------------------------------------------------------------
  // primary key projection

  /** The first position of `c` in `cols`. */
  function IndexOf(cols: seq<string>, c: string): (r: Option<nat>)
    ensures r.None? <==> c !in cols
    ensures r.Some? ==> r.value < |cols| && cols[r.value] == c
    ensures r.Some? ==> forall j :: 0 <= j < r.value ==> cols[j] != c
  {
    if |cols| == 0 then None
    else if cols[0] == c then Some(0)
    else match IndexOf(cols[1..], c)
      case None => None
      case Some(k) => Some(k + 1)
  }

  /** The positions of the key columns; the first key column missing from the
      columns is a KeyError (`set_index`). */
  function KeyPositions(cols: seq<string>, pkey: seq<string>): (r: Result<seq<nat>>)
    ensures r.Ok? <==> forall k :: 0 <= k < |pkey| ==> pkey[k] in cols
    ensures r.Ok? ==> |r.value| == |pkey|
    ensures r.Ok? ==> forall k :: 0 <= k < |pkey| ==> r.value[k] < |cols| && cols[r.value[k]] == pkey[k]
    ensures r.Err? ==> r.error.KeyError? && r.error.key in pkey && r.error.key !in cols
  {
    if |pkey| == 0 then Ok([])
    else match IndexOf(cols, pkey[0])
      case None => Err(KeyError(pkey[0]))
      case Some(p) =>
        match KeyPositions(cols, pkey[1..])
        case Err(e) => Err(e)
        case Ok(ps) => Ok([p] + ps)
  }

  /** A key of the first column alone sits at position 0. */
  lemma FirstColumnKey(cols: seq<string>)
    requires |cols| >= 1
    ensures KeyPositions(cols, [cols[0]]) == Ok([0])
  {
    var key: seq<string> := [cols[0]];
    assert IndexOf(cols, key[0]) == Some(0);
    assert key[1..] == [];
    assert KeyPositions(cols, key[1..]) == Ok([]);
    assert [0] + [] == [0];
  }

  function Project(row: Row, positions: seq<nat>): (key: seq<Value>)
    requires forall k :: 0 <= k < |positions| ==> positions[k] < |row|
    ensures |key| == |positions| && forall k :: 0 <= k < |positions| ==> key[k] == row[positions[k]]
  {
    seq(|positions|, k requires 0 <= k < |positions| => row[positions[k]])
  }

  // ---------------------------------------------------------------------------
  // the exchange format: block banner, section header, data lines

  /** The three banner lines of a block; an unknown mode is a KeyError of `_modes`. */
  function BlockBanner(name: string, mode: string): (r: Result<seq<string>>)
    ensures r.Ok? <==> mode in Modes
    ensures r.Ok? ==> |r.value| == 3 && r.value[0] == "*" && r.value[2] == "*"
    ensures r.Ok? ==> r.value[1] == "* Tabelle: " + name + Modes[mode]
    ensures r.Err? ==> r.error == KeyError(mode)
  {
    if mode in Modes then Ok(["*", "* Tabelle: " + name + Modes[mode], "*"])
    else Err(KeyError(mode))
  }

  /** `$<mode><code>:<cols>`. */
  function HeaderLine(mode: string, code: string, cols: seq<string>): string
  {
    "$" + mode + code + ":" + Join(cols, ";")
  }

  /** A parsed section header: mode tag, upper-cased code and the raw column list. */
  datatype Header = Header(mode: string, code: string, cols: string)

  /** The header grammar of the read scan: exactly one ':' (else the tuple
      unpacking fails), at least one character after '$', the character after
      '$' taken as mode when it is a key of `_modes`. */
  function ParseHeader(li: string): (r: Result<Header>)
    requires |li| >= 1 && li[0] == '$'
    ensures r.Ok? <==> |Split(li, ':')| == 2 && |Split(li, ':')[0]| >= 2
    ensures r.Ok? ==> r.value.cols == Split(li, ':')[1]
    ensures r.Ok? ==> var full := Split(li, ':')[0];
                      (full[1] in ModeTags ==> r.value == Header([full[1]], Upper(full[2..]), r.value.cols)) &&
                      (full[1] !in ModeTags ==> r.value == Header("", Upper(full[1..]), r.value.cols))
    ensures |Split(li, ':')| != 2 ==> r.Err? && r.error.ValueError?
    ensures |Split(li, ':')| == 2 && |Split(li, ':')[0]| < 2 ==> r == Err(IndexError)
  {
    var parts := Split(li, ':');
    if |parts| != 2 then Err(ValueError("cannot unpack the header"))
    else
      var full := parts[0];
      if |full| < 2 then Err(IndexError)
      else if full[1] in ModeTags then Ok(Header([full[1]], Upper(full[2..]), parts[1]))
      else Ok(Header("", Upper(full[1..]), parts[1]))
  }

  /** A header the writer produces reads back as the same mode, the upper-cased code
      and the same column list, provided the code and columns hold no ':' and an
      untagged code does not itself start with a tag character. */
  lemma HeaderRoundTrip(mode: string, code: string, cols: seq<string>)
    requires mode in Modes
    requires ':' !in code
    requires |cols| >= 1 && forall i :: 0 <= i < |cols| ==> ':' !in cols[i] && PlainColumn(cols[i])
    requires mode == "" ==> code != "" && code[0] !in ModeTags
    ensures ParseHeader(HeaderLine(mode, code, cols)) == Ok(Header(mode, Upper(code), Join(cols, ";")))
    ensures ColsOf(ParseHeader(HeaderLine(mode, code, cols)).value.cols) == cols
  {
    var joined := Join(cols, ";");
    var front := "$" + mode + code;
    assert ':' !in front;
    JoinChars(cols, ";", ':');
    assert HeaderLine(mode, code, cols) == front + [':'] + joined;
    SplitPrefix(front, joined, ':');
    assert Split(HeaderLine(mode, code, cols), ':') == [front, joined];
    var line := HeaderLine(mode, code, cols);
    if mode != "" {
      TaggedMode(mode);
      assert front[1] == mode[0] && front[2..] == code;
      assert ParseHeader(line) == Ok(Header([front[1]], Upper(front[2..]), joined));
    } else {
      assert front[1] == code[0] && front[1..] == code;
      assert ParseHeader(line) == Ok(Header("", Upper(front[1..]), joined));
    }
    ColsOfJoin(cols);
  }

  /** A header line without ':' or with a second ':' does not unpack into
      section and columns: ValueError. */
  lemma HeaderColonCount(front: string, mid: string, rest: string)
    requires |front| >= 1 && front[0] == '$' && ':' !in front && ':' !in mid
    ensures ParseHeader(front).Err? && ParseHeader(front).error.ValueError?
    ensures var li := front + ":" + mid + ":" + rest;
            ParseHeader(li).Err? && ParseHeader(li).error.ValueError?
  {
    var li := front + ":" + mid + ":" + rest;
    assert li == front + [':'] + (mid + [':'] + rest);
    SplitPrefix(front, mid + [':'] + rest, ':');
    SplitPrefix(mid, rest, ':');
    assert |Split(li, ':')| >= 3;
  }

  /** `$:<cols>` has no character after '$', so `full_section[1]` is an IndexError. */
  lemma HeaderWithoutCode(cols: string)
    requires ':' !in cols
    ensures ParseHeader("$:" + cols) == Err(IndexError)
  {
    assert "$:" + cols == "$" + [':'] + cols;
    SplitPrefix("$", cols, ':');
    assert Split("$:" + cols, ':') == ["$", cols];
  }

  /** One data line: the formatted values joined by ';'. */
  function RowLine(row: Row): string
  {
    Join(FormatAll(row), ";")
  }

  function FormatAll(row: Row): (r: seq<string>)
    ensures |r| == |row| && forall i :: 0 <= i < |row| ==> r[i] == FormatValue(row[i])
  {
    seq(|row|, i requires 0 <= i < |row| => FormatValue(row[i]))
  }

  /** A data line splits back into one field per value, provided no value's text holds ';'. */
  lemma RowLineFields(row: Row)
    requires |row| >= 1
    requires forall i :: 0 <= i < |row| ==> ';' !in FormatValue(row[i])
    ensures Split(RowLine(row), ';') == FormatAll(row)
    ensures |Split(RowLine(row), ';')| == |row|
  {
    SplitJoin(FormatAll(row), ';');
  }

  // ---------------------------------------------------------------------------
  // attribute catalogue

  /** The two tables of the attribute catalogue: display name to external table
      name, and (external table, column key) to the value type. */
  datatype Catalogue = Catalogue(tables: map<string, string>, attributes: map<(string, string), string>)

  /** `tablename`: a display name absent from the catalogue is a KeyError. */
  function TableName(cat: Catalogue, name: string): (r: Result<string>)
    ensures r.Ok? <==> name in cat.tables
    ensures r.Ok? ==> r.value == cat.tables[name]
    ensures r.Err? ==> r.error == KeyError(name)
  {
    if name in cat.tables then Ok(cat.tables[name]) else Err(KeyError(name))
  }

  /** `is_bool`: every KeyError on the way, an unknown table included, reads as false. */
  function IsBool(cat: Catalogue, name: string, col: string): bool
  {
    match TableName(cat, name)
    case Err(_) => false
    case Ok(t) => (t, col) in cat.attributes && cat.attributes[(t, col)] == "bool"
  }

  /** A column is boolean exactly when both lookups succeed and the value type is 'bool'. */
  lemma IsBoolIff(cat: Catalogue, name: string, col: string)
    ensures IsBool(cat, name, col) <==>
      exists t :: TableName(cat, name) == Ok(t) && (t, col) in cat.attributes && cat.attributes[(t, col)] == "bool"
    ensures name !in cat.tables ==> !IsBool(cat, name, col)
    ensures name in cat.tables && (cat.tables[name], col) !in cat.attributes ==> !IsBool(cat, name, col)
    ensures IsBool(cat, name, col) <==>
              name in cat.tables && (cat.tables[name], col) in cat.attributes
              && cat.attributes[(cat.tables[name], col)] == "bool"
  {
    if IsBool(cat, name, col) {
      var t := cat.tables[name];
      assert TableName(cat, name) == Ok(t);
    }
  }

  /** The catalogue key of an attribute: its upper-cased short name, or its
      upper-cased attribute id when the short name is missing. */
  function AttributeKey(shortName: Option<string>, attributeId: string): (k: string)
    ensures shortName.Some? ==> k == Upper(shortName.value)
    ensures shortName.None? ==> k == Upper(attributeId)
  {
    match shortName
    case Some(s) => Upper(s)
    case None => Upper(attributeId)
  }

  /** The catalogue column keys are upper case whichever name they come from, so a
      lookup by a small-letter column name never finds an attribute. */
  lemma AttributeKeyUpper(shortName: Option<string>, attributeId: string)
    ensures var k := AttributeKey(shortName, attributeId);
            forall i :: 0 <= i < |k| ==> !('a' <= k[i] <= 'z')
    ensures shortName.Some? ==> AttributeKey(shortName, attributeId) == AttributeKey(shortName, "")
  {
    match shortName
    case Some(s) => UpperNoSmall(s);
    case None => UpperNoSmall(attributeId);
  }

  // ---------------------------------------------------------------------------
  // the registry of table classes

  /** The metaclass registry: format code to table class. */
  type Registry = map<string, TableClass>

  /** Every class is stored under its own code, as the metaclass does it. */
  predicate KeyedByCode(reg: Registry)
  {
    forall c :: c in reg ==> reg[c].code == c
  }

  /** Registering a class stores it under its code; a code registered again is overwritten. */
  function Register(reg: Registry, cls: TableClass): (r: Registry)
    ensures r.Keys == reg.Keys + {cls.code}
    ensures r[cls.code] == cls
    ensures forall c :: c in reg && c != cls.code ==> r[c] == reg[c]
    ensures KeyedByCode(reg) ==> KeyedByCode(r)
  {
    reg[cls.code := cls]
  }

  /** `self.visum_tables[section](mode=mode)` builds a table: the code is registered
      and its class accepts the `mode` keyword. */
  predicate Opens(registry: Registry, code: string)
  {
    code in registry && registry[code].modeKeyword
  }

  /** VisumTable itself: created with the metaclass, so it is registered under the code ''. */
  const BaseClass: TableClass := TableClass("", "", "", "", map[], "+", true)
}
