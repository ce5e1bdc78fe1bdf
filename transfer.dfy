/** VisumTransfer: an ordered collection of named tables that is written as a
    Visum transfer (modification) file and read back by a boundary scan. */
module Transfer {
  import opened Wrappers
  import opened Text
  import opened Schema
  import opened Tables

  // ---------------------------------------------------------------------------
  // the version block

  const VersionCols: seq<string> := ["VERSNR", "FILETYPE", "LANGUAGE", "UNIT"]

  /** `Version`: code VERSION, key VERSNR (the implicit first column), mode ''. */
  const VersionClass: TableClass :=
    TableClass("VERSION", "Versionsblock", Join(VersionCols, ";"), "", VersionDefaults, "", true)

  const VersionDefaults: map<string, Value> :=
    map["VERSNR" := VFloat("10.0"), "LANGUAGE" := VStr("DEU"), "FILETYPE" := VStr("Demand"), "UNIT" := VStr("KM")]

  const DefaultUser: string := "Gertz Gutsche Rümenapp Stadtentwicklung und Mobilität GbR Hamburg"

  predicate IsVersion(t: VisumTable)
    reads t
  {
    t.code == VersionClass.code && t.Cols() == VersionCols &&
    t.pkeyRaw == VersionClass.pkey && t.defaults == VersionClass.defaults
  }

  /** The column list of the version block. */
  lemma VersionColumns()
    ensures ColsOf(VersionClass.cols) == VersionCols
  {
    assert PlainColumn("VERSNR") && PlainColumn("FILETYPE") && PlainColumn("LANGUAGE") && PlainColumn("UNIT");
    ColsOfJoin(VersionCols);
  }

  lemma VersionFieldNames()
    ensures FieldName("VERSNR") == "versnr" && FieldName("FILETYPE") == "filetype"
    ensures FieldName("LANGUAGE") == "language" && FieldName("UNIT") == "unit"
  {
    FieldOf("VERSNR", "versnr");
    FieldOf("FILETYPE", "filetype");
    FieldOf("LANGUAGE", "language");
    FieldOf("UNIT", "unit");
  }

  /** The row fields of the version block. */
  lemma VersionFields()
    ensures FieldNames(VersionCols) == ["versnr", "filetype", "language", "unit"]
  {
    FieldOf("VERSNR", "versnr");
    FieldOf("FILETYPE", "filetype");
    FieldOf("LANGUAGE", "language");
    FieldOf("UNIT", "unit");
  }

  /** The defaults of the version columns, one lemma per column. */
  lemma DefaultVersnr()
    ensures DefaultFor(VersionClass.defaults, "VERSNR") == VFloat("10.0")
  {
    DefaultOfCapitals(VersionDefaults, "VERSNR");
  }

  lemma DefaultFiletype()
    ensures DefaultFor(VersionClass.defaults, "FILETYPE") == VStr("Demand")
  {
    assert "FILETYPE"[0] != "UNIT"[0];
    DefaultOfCapitals(VersionDefaults, "FILETYPE");
  }

  lemma DefaultLanguage()
    ensures DefaultFor(VersionClass.defaults, "LANGUAGE") == VStr("DEU")
  {
    assert "LANGUAGE"[0] != "UNIT"[0] && "LANGUAGE"[0] != "FILETYPE"[0];
    DefaultOfCapitals(VersionDefaults, "LANGUAGE");
  }

  lemma DefaultUnit()
    ensures DefaultFor(VersionClass.defaults, "UNIT") == VStr("KM")
  {
    DefaultOfCapitals(VersionDefaults, "UNIT");
  }

  /** The overrides `Row()` and `Row(filetype=ft)` pass to the version block. */
  predicate VersionOverrides(overrides: map<string, Value>, ft: Value)
  {
    (overrides == map[] && ft == VStr("Demand")) || overrides == map["filetype" := ft]
  }

  lemma VersionRowOk(overrides: map<string, Value>, ft: Value)
    requires VersionOverrides(overrides, ft)
    ensures MakeRow(VersionCols, VersionClass.defaults, overrides).Ok?
  {
    VersionFields();
    assert FieldNames(VersionCols)[1] == "filetype";
  }

  lemma VersionCellVersnr(overrides: map<string, Value>, ft: Value)
    requires VersionOverrides(overrides, ft)
    ensures CellFor(VersionCols, VersionClass.defaults, overrides, 0) == VFloat("10.0")
  {
    VersionFieldNames();
    assert VersionCols[0] == "VERSNR" && "versnr"[0] != "filetype"[0];
    DefaultVersnr();
  }

  lemma VersionCellFiletype(overrides: map<string, Value>, ft: Value)
    requires VersionOverrides(overrides, ft)
    ensures CellFor(VersionCols, VersionClass.defaults, overrides, 1) == ft
  {
    VersionFieldNames();
    assert VersionCols[1] == "FILETYPE";
    DefaultFiletype();
  }

  lemma VersionCellLanguage(overrides: map<string, Value>, ft: Value)
    requires VersionOverrides(overrides, ft)
    ensures CellFor(VersionCols, VersionClass.defaults, overrides, 2) == VStr("DEU")
  {
    VersionFieldNames();
    assert VersionCols[2] == "LANGUAGE" && "language"[0] != "filetype"[0];
    DefaultLanguage();
  }

  lemma VersionCellUnit(overrides: map<string, Value>, ft: Value)
    requires VersionOverrides(overrides, ft)
    ensures CellFor(VersionCols, VersionClass.defaults, overrides, 3) == VStr("KM")
  {
    VersionFieldNames();
    assert VersionCols[3] == "UNIT" && "unit"[0] != "filetype"[0];
    DefaultUnit();
  }

  /** The version row with FILETYPE `ft`: every other column takes its default. */
  lemma VersionRow(overrides: map<string, Value>, ft: Value)
    requires VersionOverrides(overrides, ft)
    ensures MakeRow(VersionCols, VersionClass.defaults, overrides) == Ok([VFloat("10.0"), ft, VStr("DEU"), VStr("KM")])
  {
    VersionRowOk(overrides, ft);
    VersionCellVersnr(overrides, ft);
    VersionCellFiletype(overrides, ft);
    VersionCellLanguage(overrides, ft);
    VersionCellUnit(overrides, ft);
    MakeRowOfFour(VersionCols, VersionClass.defaults, overrides, VFloat("10.0"), ft, VStr("DEU"), VStr("KM"));
  }

  /** The version block is keyed by its first column, VERSNR. */
  lemma VersionKey()
    ensures PkeyOf(VersionClass.pkey, VersionCols) == ["VERSNR"]
    ensures KeyPositions(VersionCols, ["VERSNR"]) == Ok([0])
  {
    var key: seq<string> := ["VERSNR"];
    assert IndexOf(VersionCols, key[0]) == Some(0);
    assert key[1..] == [];
    assert KeyPositions(VersionCols, key[1..]) == Ok([]);
    assert [0] + [] == [0];
  }

  /** A version table is keyed by its first column. */
  lemma VersionTableKey(t: VisumTable)
    requires IsVersion(t)
    ensures t.Pkey() == ["VERSNR"] && KeyPositions(t.Cols(), t.Pkey()) == Ok([0])
  {
    VersionKey();
  }

  /** The version row of a version table, and its key. */
  lemma VersionNewRow(t: VisumTable, overrides: map<string, Value>, ft: Value)
    requires IsVersion(t) && VersionOverrides(overrides, ft)
    ensures t.NewRow(overrides) == Ok([VFloat("10.0"), ft, VStr("DEU"), VStr("KM")])
    ensures |t.Cols()| == 4 && KeyPositions(t.Cols(), t.Pkey()) == Ok([0])
    ensures Project([VFloat("10.0"), ft, VStr("DEU"), VStr("KM")], [0]) == [VFloat("10.0")]
  {
    VersionRow(overrides, ft);
    VersionTableKey(t);
    ProjectFirst([VFloat("10.0"), ft, VStr("DEU"), VStr("KM")]);
  }

  lemma ProjectFirst(row: Row)
    requires |row| >= 1
    ensures Project(row, [0]) == [row[0]]
  {
  }

  /** `add_netfile_header` (`fileType` None) and `add_transfile_header` (`fileType` 'Trans'):
      one version row with the defaults, FILETYPE overridden when given. */
  method AddFileHeader(t: VisumTable, fileType: Option<string>) returns (r: Outcome)
    requires IsVersion(t) && t.Valid()
    modifies t`table, t`frame, t`frameCols
    ensures t.Valid()
    ensures var ft := if fileType.Some? then VStr(fileType.value) else VStr("Demand");
            t.table == old(t.table) + [[VFloat("10.0"), ft, VStr("DEU"), VStr("KM")]]
    ensures r.Pass? <==> [VFloat("10.0")] !in KeysOf(old(t.frame))
    ensures var ft := if fileType.Some? then VStr(fileType.value) else VStr("Demand");
            r.Pass? ==> t.frame == old(t.frame) + [EntryOf(t.Cols(), t.Pkey(), [0], [VFloat("10.0"), ft, VStr("DEU"), VStr("KM")])]
    ensures r.Fail? ==> && t.frame == old(t.frame) && t.frameCols == old(t.frameCols)
                        && r.error == ValueError("Indexes have overlapping values")
  {
    var ft := if fileType.Some? then VStr(fileType.value) else VStr("Demand");
    var overrides: map<string, Value> := if fileType.Some? then map["filetype" := ft] else map[];
    VersionNewRow(t, overrides, ft);
    var row := t.NewRow(overrides);
    r := t.AddRow(row.value);
  }

  // ---------------------------------------------------------------------------
  // writing

  /** The five lines `write` puts before the blocks. */
  function Banner(user: string, date: string): (lines: seq<string>)
    ensures |lines| == 5 && lines[0] == "$VISION"
  {
    ["$VISION", "* " + user, "* " + date, "* Von: *", "* Nach: *"]
  }

  /** Writing a run of blocks: their lines one after the other, up to and
      including the first block that fails, whose error ends the run. */
  function Collect(bs: seq<(seq<string>, Outcome)>): (r: (seq<string>, Outcome))
    ensures r.1.Pass? <==> forall i :: 0 <= i < |bs| ==> bs[i].1.Pass?
    ensures r.1.Fail? ==> exists i :: 0 <= i < |bs| && r.1 == bs[i].1
  {
    if |bs| == 0 then ([], Pass)
    else if bs[0].1.Fail? then bs[0]
    else
      var rest := Collect(bs[1..]);
      assert forall i :: 1 <= i < |bs| ==> bs[i] == bs[1..][i - 1];
      (bs[0].0 + rest.0, rest.1)
  }

  /** Writing is compositional: when every block of `x` is written, the run `x + y`
      writes the lines of `x` and then those of `y`, and ends as `y` ends. */
  lemma {:induction false} CollectConcat(x: seq<(seq<string>, Outcome)>, y: seq<(seq<string>, Outcome)>)
    requires forall i :: 0 <= i < |x| ==> x[i].1.Pass?
    ensures Collect(x + y) == (Collect(x).0 + Collect(y).0, Collect(y).1)
  {
    if |x| == 0 {
      assert x + y == y;
      assert Collect(x).0 == [];
      assert Collect(x).0 + Collect(y).0 == Collect(y).0;
    } else {
      assert (x + y)[0] == x[0];
      assert (x + y)[1..] == x[1..] + y;
      CollectConcat(x[1..], y);
      var u, v, w := x[0].0, Collect(x[1..]).0, Collect(y).0;
      assert u + (v + w) == (u + v) + w;
    }
  }

  /** A table `append` passes over. */
  predicate Skipped(t: VisumTable, skipVersion: bool)
    reads t
  {
    skipVersion && t.code == VersionClass.code
  }

  /** The `write_block` results of the tables in order, without the skipped ones. */
  function Emitted(ts: seq<VisumTable>, cat: Catalogue, skipVersion: bool): (r: seq<(seq<string>, Outcome)>)
    reads ts
    ensures |r| <= |ts|
  {
    if |ts| == 0 then []
    else if Skipped(ts[0], skipVersion) then Emitted(ts[1..], cat, skipVersion)
    else [ts[0].WriteBlock(cat)] + Emitted(ts[1..], cat, skipVersion)
  }

  /** Every emitted block is written exactly when every table that is not skipped has a known mode. */
  lemma {:induction false} EmittedPass(ts: seq<VisumTable>, cat: Catalogue, skipVersion: bool)
    ensures var r := Emitted(ts, cat, skipVersion);
            (forall i :: 0 <= i < |r| ==> r[i].1.Pass?) <==>
            forall i :: 0 <= i < |ts| ==> Skipped(ts[i], skipVersion) || ts[i].mode in Modes
  {
    if |ts| > 0 {
      var tail := ts[1..];
      var rest := Emitted(tail, cat, skipVersion);
      EmittedPass(tail, cat, skipVersion);
      assert forall j :: 0 <= j < |tail| ==> tail[j] == ts[j + 1];
      var headOk := Skipped(ts[0], skipVersion) || ts[0].mode in Modes;
      assert (forall i :: 0 <= i < |ts| ==> Skipped(ts[i], skipVersion) || ts[i].mode in Modes) <==>
             headOk && forall j :: 0 <= j < |tail| ==> Skipped(tail[j], skipVersion) || tail[j].mode in Modes;
      if !Skipped(ts[0], skipVersion) {
        var b := ts[0].WriteBlock(cat);
        assert b.1.Pass? <==> headOk;
        var r := [b] + rest;
        assert Emitted(ts, cat, skipVersion) == r;
        assert forall j :: 0 <= j < |rest| ==> rest[j] == r[j + 1];
        assert (forall i :: 0 <= i < |r| ==> r[i].1.Pass?) <==>
               b.1.Pass? && forall j :: 0 <= j < |rest| ==> rest[j].1.Pass? by {
          if b.1.Pass? && forall j :: 0 <= j < |rest| ==> rest[j].1.Pass? {
            forall i | 0 <= i < |r| ensures r[i].1.Pass? {
              if i > 0 { assert r[i] == rest[i - 1]; }
            }
          }
          if forall i :: 0 <= i < |r| ==> r[i].1.Pass? {
            assert r[0] == b;
            forall j | 0 <= j < |rest| ensures rest[j].1.Pass? {
              assert r[j + 1] == rest[j];
            }
          }
        }
      } else {
        assert Emitted(ts, cat, skipVersion) == rest;
      }
    }
  }

  /** The blocks of `ts` in order, `append` leaving out the VERSION tables; the
      first block with an unknown mode ends the output with its error. */
  function Blocks(ts: seq<VisumTable>, cat: Catalogue, skipVersion: bool): (r: (seq<string>, Outcome))
    reads ts
    ensures r.1.Pass? <==> forall i :: 0 <= i < |ts| ==> Skipped(ts[i], skipVersion) || ts[i].mode in Modes
  {
    EmittedPass(ts, cat, skipVersion);
    var es := Emitted(ts, cat, skipVersion);
    assert (forall i :: 0 <= i < |es| ==> es[i].1.Pass?) <==>
           forall i :: 0 <= i < |ts| ==> Skipped(ts[i], skipVersion) || ts[i].mode in Modes;
    assert Collect(es).1.Pass? <==> forall i :: 0 <= i < |es| ==> es[i].1.Pass?;
    Collect(es)
  }

  lemma {:induction false} EmittedConcat(a: seq<VisumTable>, b: seq<VisumTable>, cat: Catalogue, skipVersion: bool)
    ensures Emitted(a + b, cat, skipVersion) == Emitted(a, cat, skipVersion) + Emitted(b, cat, skipVersion)
  {
    if |a| == 0 {
      assert a + b == b;
    } else {
      assert (a + b)[0] == a[0];
      assert (a + b)[1..] == a[1..] + b;
      EmittedConcat(a[1..], b, cat, skipVersion);
    }
  }

  /** Blocks are written one after the other: the lines for `a + b` are the lines
      for `a` followed by those for `b`, when every block of `a` is written. */
  lemma BlocksConcat(a: seq<VisumTable>, b: seq<VisumTable>, cat: Catalogue, skipVersion: bool)
    requires Blocks(a, cat, skipVersion).1.Pass?
    ensures Blocks(a + b, cat, skipVersion) == (Blocks(a, cat, skipVersion).0 + Blocks(b, cat, skipVersion).0,
                                                Blocks(b, cat, skipVersion).1)
  {
    EmittedConcat(a, b, cat, skipVersion);
    CollectConcat(Emitted(a, cat, skipVersion), Emitted(b, cat, skipVersion));
  }

  /** The tables without the VERSION ones, in order. */
  function WithoutVersion(ts: seq<VisumTable>): (r: seq<VisumTable>)
    reads ts
    ensures forall i :: 0 <= i < |r| ==> r[i] in ts && r[i].code != VersionClass.code
    ensures forall t :: t in ts && t.code != VersionClass.code ==> t in r
  {
    if |ts| == 0 then []
    else if ts[0].code == VersionClass.code then WithoutVersion(ts[1..])
    else [ts[0]] + WithoutVersion(ts[1..])
  }

  /** The filter keeps the order: it works table by table, so it distributes over
      concatenation and keeps or drops a single table by its code. */
  lemma {:induction false} WithoutVersionConcat(a: seq<VisumTable>, b: seq<VisumTable>)
    ensures WithoutVersion(a + b) == WithoutVersion(a) + WithoutVersion(b)
  {
    if |a| > 0 {
      var c := a + b;
      assert c[0] == a[0];
      assert c[1..] == a[1..] + b;
      WithoutVersionConcat(a[1..], b);
      if a[0].code != VersionClass.code {
        assert WithoutVersion(c) == [a[0]] + WithoutVersion(a[1..] + b);
        assert WithoutVersion(a) == [a[0]] + WithoutVersion(a[1..]);
      }
    } else {
      assert a + b == b;
    }
  }

  /** ... and a single table is kept exactly when it is not a VERSION table. */
  lemma WithoutVersionOne(t: VisumTable)
    ensures WithoutVersion([t]) == if t.code == VersionClass.code then [] else [t]
  {
    assert [t][0] == t;
    assert [t][1..] == [];
  }

  /** `append` writes the same lines as writing the tables without VERSION would. */
  lemma {:induction false} BlocksSkipVersion(ts: seq<VisumTable>, cat: Catalogue)
    ensures Emitted(ts, cat, true) == Emitted(WithoutVersion(ts), cat, false)
    ensures Blocks(ts, cat, true) == Blocks(WithoutVersion(ts), cat, false)
  {
    if |ts| > 0 {
      BlocksSkipVersion(ts[1..], cat);
      if ts[0].code != VersionClass.code {
        assert ([ts[0]] + WithoutVersion(ts[1..]))[1..] == WithoutVersion(ts[1..]);
      }
    }
  }

  // ---------------------------------------------------------------------------
  // file names and table selection

  /** `os.path.join(folder, name)` on POSIX for a relative `name`. */
  function PathJoin(folder: string, name: string): (r: string)
    ensures IsSuffix(name, r)
    ensures folder != "" ==> IsPrefix(folder, r)
    ensures |r| == |folder| + |name| + (if folder == "" || folder[|folder| - 1] == '/' then 0 else 1)
  {
    if folder == "" then name
    else if folder[|folder| - 1] == '/' then folder + name
    else folder + "/" + name
  }

  /** `get_modification`: `M` with the number zero-padded to six characters, then `.tra`. */
  function ModificationFile(number: int, folder: string): (r: string)
  {
    PathJoin(folder, "M" + Format06d(number) + ".tra")
  }

  /** A number below one million can be read back from the last ten characters of
      its file name: `M`, six digits and `.tra`. */
  lemma ModificationFileNumber(number: nat, folder: string)
    requires number < 1000000
    ensures var r := ModificationFile(number, folder);
            |r| >= 11 && r[|r| - 11] == 'M' && r[|r| - 4..] == ".tra" &&
            (forall i :: |r| - 10 <= i < |r| - 4 ==> IsDigit(r[i])) &&
            ParseNat(r[|r| - 10..|r| - 4]) == number
  {
    Format06dRoundTrip(number);
    var name := "M" + Format06d(number) + ".tra";
    var r := ModificationFile(number, folder);
    assert r[|r| - |name|..] == name;
    assert r[|r| - 10..|r| - 4] == name[1..7] == Format06d(number);
  }

  /** The `modes` argument of `get_tables`: a string (substring test) or a list (membership). */
  datatype ModeFilter = ModeString(s: string) | ModeList(items: seq<string>)

  /** `mode in modes`. */
  predicate ModeIn(mode: string, modes: ModeFilter)
  {
    match modes
    case ModeString(s) => IsSubstring(mode, s)
    case ModeList(items) => mode in items
  }

  /** The names of `ns` whose table in `ts` has format `code` and a mode in `modes`, in the order of `ns`. */
  function SelectNames(ns: seq<string>, ts: map<string, VisumTable>, code: string, modes: ModeFilter): (r: seq<string>)
    ensures forall n :: n in r <==> n in ns && n in ts && ts[n].code == code && ModeIn(ts[n].mode, modes)
  {
    if |ns| == 0 then []
    else if ns[0] in ts && ts[ns[0]].code == code && ModeIn(ts[ns[0]].mode, modes) then
      [ns[0]] + SelectNames(ns[1..], ts, code, modes)
    else SelectNames(ns[1..], ts, code, modes)
  }

  /** The selection keeps the order of the names: it distributes over concatenation. */
  lemma {:induction false} SelectNamesConcat(a: seq<string>, b: seq<string>, ts: map<string, VisumTable>,
                                             code: string, modes: ModeFilter)
    ensures SelectNames(a + b, ts, code, modes) == SelectNames(a, ts, code, modes) + SelectNames(b, ts, code, modes)
  {
    if |a| > 0 {
      assert (a + b)[1..] == a[1..] + b;
      SelectNamesConcat(a[1..], b, ts, code, modes);
    } else {
      assert a + b == b;
    }
  }

  /** With a string of modes, the untagged mode '' is always selected. */
  lemma EmptyModeInEveryString(s: string)
    ensures ModeIn("", ModeString(s))
  {
  }

  /** With a string of modes, a one-character mode is selected exactly when it occurs in the string. */
  lemma {:induction false} TagInString(c: char, s: string)
    ensures ModeIn([c], ModeString(s)) <==> c in s
  {
    if |s| > 0 {
      TagInString(c, s[1..]);
      assert c in s <==> c == s[0] || c in s[1..];
    }
  }

  // ---------------------------------------------------------------------------
  // reading: the boundary scan

  /** A decoded line of the file with the number of bytes it takes, line break included. */
  datatype Line = Line(text: string, size: nat)

  /** The byte offset of the start of line `n`. */
  function Offset(lines: seq<Line>, n: nat): nat
    requires n <= |lines|
  {
    if n == 0 then 0 else Offset(lines, n - 1) + lines[n - 1].size
  }

  lemma {:induction false} OffsetMonotone(lines: seq<Line>, m: nat, n: nat)
    requires m <= n <= |lines|
    ensures Offset(lines, m) <= Offset(lines, n)
    decreases n - m
  {
    if m < n {
      OffsetMonotone(lines, m, n - 1);
    }
  }

  /** A line whose stripped text starts with '$' (blank and '*' lines are skipped). */
  predicate IsHeaderLine(l: Line)
  {
    var li := Strip(l.text);
    |li| > 0 && li[0] == '$'
  }

  /** The indices of the header lines among lines `lo` .. `hi - 1`, in order. */
  function Headers(lines: seq<Line>, lo: nat, hi: nat): (r: seq<nat>)
    requires lo <= hi <= |lines|
    ensures forall k :: 0 <= k < |r| ==> lo <= r[k] < hi && IsHeaderLine(lines[r[k]])
    decreases hi
  {
    if hi == lo then []
    else
      var prev := Headers(lines, lo, hi - 1);
      if IsHeaderLine(lines[hi - 1]) then prev + [hi - 1] else prev
  }

  predicate Increasing(s: seq<nat>)
  {
    forall j, k :: 0 <= j < k < |s| ==> s[j] < s[k]
  }

  /** The header lines are listed in increasing order ... */
  lemma {:induction false} HeadersSorted(lines: seq<Line>, lo: nat, hi: nat)
    requires lo <= hi <= |lines|
    ensures Increasing(Headers(lines, lo, hi))
    decreases hi
  {
    if hi > lo {
      HeadersSorted(lines, lo, hi - 1);
      var prev := Headers(lines, lo, hi - 1);
      if IsHeaderLine(lines[hi - 1]) {
        var r := prev + [hi - 1];
        forall j, k | 0 <= j < k < |r|
          ensures r[j] < r[k]
        {
          assert r[j] == prev[j] < hi - 1;
        }
      }
    }
  }

  /** ... and every one of them is listed. */
  lemma {:induction false} HeadersComplete(lines: seq<Line>, lo: nat, hi: nat, i: nat)
    requires lo <= i < hi <= |lines| && IsHeaderLine(lines[i])
    ensures i in Headers(lines, lo, hi)
    decreases hi
  {
    if i < hi - 1 {
      HeadersComplete(lines, lo, hi - 1, i);
    }
  }

  /** Section `k` starts at the byte after its header line ... */
  function SectionStart(lines: seq<Line>, hs: seq<nat>, k: nat): nat
    requires k < |hs| && forall m :: 0 <= m < |hs| ==> hs[m] < |lines|
  {
    Offset(lines, hs[k] + 1)
  }

  /** ... and ends at the first byte of the next header line, or at the end of the file. */
  function SectionEnd(lines: seq<Line>, hs: seq<nat>, k: nat): nat
    requires k < |hs| && forall m :: 0 <= m < |hs| ==> hs[m] < |lines|
  {
    if k + 1 < |hs| then Offset(lines, hs[k + 1]) else Offset(lines, |lines|)
  }

  /** The sections tile the file: each is a non-empty-or-empty range [start, end), the
      next one starts right after the next header line, and the last one ends at the end. */
  lemma SectionsTile(lines: seq<Line>, k: nat)
    requires 1 <= |lines|
    requires k < |Headers(lines, 1, |lines|)|
    ensures var hs := Headers(lines, 1, |lines|);
            SectionStart(lines, hs, k) <= SectionEnd(lines, hs, k) &&
            (k + 1 < |hs| ==> SectionEnd(lines, hs, k) + lines[hs[k + 1]].size == SectionStart(lines, hs, k + 1)) &&
            (k + 1 == |hs| ==> SectionEnd(lines, hs, k) == Offset(lines, |lines|))
  {
    var hs := Headers(lines, 1, |lines|);
    HeadersSorted(lines, 1, |lines|);
    if k + 1 < |hs| {
      OffsetMonotone(lines, hs[k] + 1, hs[k + 1]);
    } else {
      OffsetMonotone(lines, hs[k] + 1, |lines|);
    }
  }

  /** `'{}_{}'.format(section, i)`. */
  function Suffixed(section: string, i: nat): string
  {
    section + "_" + NatToString(i)
  }

  lemma SuffixedInjective(section: string, i: nat, j: nat)
    requires Suffixed(section, i) == Suffixed(section, j)
    ensures i == j
  {
    var n := |section| + 1;
    assert Suffixed(section, i)[n..] == NatToString(i);
    assert Suffixed(section, j)[n..] == NatToString(j);
    ParseNatToString(i);
    ParseNatToString(j);
  }

  /** The name a section of code `section` is stored under: the code itself when it
      is free, else `section_i` for the smallest i >= 1 that is free. */
  ghost predicate FreeName(name: string, section: string, taken: set<string>)
  {
    && name !in taken
    && (section !in taken ==> name == section)
    && (section in taken ==>
          exists i: nat :: (i >= 1 && name == Suffixed(section, i) &&
                            forall j: nat :: 1 <= j < i ==> Suffixed(section, j) in taken))
  }

  /** Only the empty code has the empty name. */
  lemma FreeNameEmpty(name: string, section: string, taken: set<string>)
    requires FreeName(name, section, taken)
    ensures name == "" ==> section == ""
  {
    if section in taken {
      var i: nat :| i >= 1 && name == Suffixed(section, i);
      assert |name| > 0;
    }
  }

  /** The names the name loop has tried after `n` steps: the code and its first `n` suffixed forms. */
  ghost function Tried(section: string, n: nat): set<string>
  {
    if n == 0 then {section} else Tried(section, n - 1) + {Suffixed(section, n)}
  }

  /** The tried set holds the code and its suffixed forms up to `n`. */
  lemma {:induction false} TriedHas(section: string, n: nat)
    ensures section in Tried(section, n)
    ensures forall j: nat :: 1 <= j <= n ==> Suffixed(section, j) in Tried(section, n)
  {
    if n > 0 {
      TriedHas(section, n - 1);
    }
  }

  /** A suffixed form with a larger number has not been tried yet. */
  lemma {:induction false} NotTried(section: string, n: nat, m: nat)
    requires m > n
    ensures Suffixed(section, m) !in Tried(section, n)
  {
    assert |Suffixed(section, m)| > |section|;
    if n > 0 {
      NotTried(section, n - 1, m);
      if Suffixed(section, m) == Suffixed(section, n) {
        SuffixedInjective(section, m, n);
      }
    }
  }

  /** One more taken name tried: the tried set grows by one and stays within `taken`. */
  lemma TriedGrows(section: string, i: nat, taken: set<string>)
    requires i >= 1 && (i > 1 ==> Tried(section, i - 2) <= taken)
    requires (if i == 1 then section else Suffixed(section, i - 1)) in taken
    ensures Tried(section, i - 1) <= taken
    ensures |Tried(section, i - 1)| == (if i == 1 then 0 else |Tried(section, i - 2)|) + 1
    ensures |Tried(section, i - 1)| <= |taken|
  {
    if i > 1 {
      assert Tried(section, i - 1) == Tried(section, i - 2) + {Suffixed(section, i - 1)};
      NotTried(section, i - 2, i - 1);
    }
    SubsetCard(Tried(section, i - 1), taken);
  }

  /** The name loop of the read scan. */
  method SectionName(section: string, taken: set<string>) returns (name: string)
    ensures FreeName(name, section, taken)
  {
    name := section;
    var i: nat := 1;
    while name in taken
      invariant i >= 1
      invariant name == if i == 1 then section else Suffixed(section, i - 1)
      invariant i > 1 ==> Tried(section, i - 2) <= taken
      decreases |taken| - (if i == 1 then 0 else |Tried(section, i - 2)|)
    {
      TriedGrows(section, i, taken);
      name := Suffixed(section, i);
      i := i + 1;
    }
    if i > 1 {
      TriedHas(section, i - 2);
      assert name == Suffixed(section, i - 1);
    }
  }

  lemma SubsetCard(a: set<string>, b: set<string>)
    requires a <= b
    ensures |a| <= |b|
  {
    assert b == a + (b - a);
  }

  /** A section found by the read scan: the name it is stored under, its parsed
      header and the byte range [start, end) of its data lines. */
  datatype Section = Section(name: string, header: Header, start: nat, end: nat)

  function NamesOf(secs: seq<Section>): (r: seq<string>)
    ensures |r| == |secs| && forall k :: 0 <= k < |secs| ==> r[k] == secs[k].name
  {
    seq(|secs|, k requires 0 <= k < |secs| => secs[k].name)
  }

  /** What the scan needs of the file: the `$VISION` first line, and a header that
      parses and names a code whose class it can build on every `$` line. */
  predicate ScanParses(lines: seq<Line>, registry: Registry)
  {
    && |lines| >= 1
    && Strip(lines[0].text) == "$VISION"
    && var hs := Headers(lines, 1, |lines|);
       forall k :: 0 <= k < |hs| ==>
         var h := ParseHeader(Strip(lines[hs[k]].text));
         h.Ok? && Opens(registry, h.value.code)
  }

  /** The names a section's name is chosen against: the names present before the
      scan and those of the first `k` sections. */
  ghost function TakenBefore(taken0: set<string>, secs: seq<Section>, k: nat): set<string>
    requires k <= |secs|
  {
    taken0 + set j | 0 <= j < k :: secs[j].name
  }

  /** The taken names depend only on the names of the sections. */
  lemma TakenSameNames(taken0: set<string>, a: seq<Section>, b: seq<Section>, k: nat)
    requires k <= |a| && k <= |b|
    requires forall j :: 0 <= j < k ==> a[j].name == b[j].name
    ensures TakenBefore(taken0, a, k) == TakenBefore(taken0, b, k)
  {
  }

  /** The section found at header line `h`: the header parses and names a
      registered code, the section starts after the header line, and its name is
      free among `taken`. */
  ghost predicate FoundAt(lines: seq<Line>, registry: Registry, h: nat, s: Section, taken: set<string>)
  {
    && h < |lines| && IsHeaderLine(lines[h])
    && ParseHeader(Strip(lines[h].text)) == Ok(s.header)
    && Opens(registry, s.header.code)
    && s.start == Offset(lines, h + 1)
    && FreeName(s.name, s.header.code, taken)
  }

  /** The taken names grow by the name of the section added. */
  lemma TakenSnoc(taken0: set<string>, secs: seq<Section>, s: Section)
    ensures TakenBefore(taken0, secs + [s], |secs| + 1) == TakenBefore(taken0, secs, |secs|) + {s.name}
  {
    var secs' := secs + [s];
    assert forall j :: 0 <= j < |secs| ==> secs'[j] == secs[j];
    assert secs'[|secs|] == s;
  }

  lemma NamesSnoc(secs: seq<Section>, s: Section)
    ensures NamesOf(secs + [s]) == NamesOf(secs) + [s.name]
  {
  }

  /** The sections found at the header lines `hs`, in order, each named against
      the names before it. */
  ghost predicate SectionsFound(lines: seq<Line>, registry: Registry, hs: seq<nat>, secs: seq<Section>, taken0: set<string>)
  {
    && |secs| == |hs|
    && forall k :: 0 <= k < |secs| ==> FoundAt(lines, registry, hs[k], secs[k], TakenBefore(taken0, secs, k))
  }

  /** Every section except the last ends where the next header line begins. */
  ghost predicate EndsFound(lines: seq<Line>, hs: seq<nat>, secs: seq<Section>)
  {
    && |secs| == |hs|
    && forall k :: 1 <= k < |secs| ==> hs[k] <= |lines| && secs[k - 1].end == Offset(lines, hs[k])
  }

  /** The last section gets its end. */
  function CloseLast(secs: seq<Section>, end: nat): (r: seq<Section>)
    ensures |r| == |secs|
    ensures forall k :: 0 <= k < |secs| ==>
              r[k].name == secs[k].name && r[k].header == secs[k].header && r[k].start == secs[k].start
    ensures forall k :: 0 <= k < |secs| - 1 ==> r[k] == secs[k]
    ensures |secs| > 0 ==> r[|secs| - 1].end == end
  {
    if |secs| == 0 then [] else secs[..|secs| - 1] + [secs[|secs| - 1].(end := end)]
  }

  /** Closing the last section keeps what was found. */
  lemma Closed(lines: seq<Line>, registry: Registry, hs: seq<nat>, secs: seq<Section>, taken0: set<string>, end: nat)
    requires SectionsFound(lines, registry, hs, secs, taken0) && EndsFound(lines, hs, secs)
    ensures SectionsFound(lines, registry, hs, CloseLast(secs, end), taken0)
    ensures EndsFound(lines, hs, CloseLast(secs, end))
    ensures TakenBefore(taken0, CloseLast(secs, end), |secs|) == TakenBefore(taken0, secs, |secs|)
  {
    var c := CloseLast(secs, end);
    forall k | 0 <= k <= |secs|
      ensures TakenBefore(taken0, c, k) == TakenBefore(taken0, secs, k)
    {
      TakenSameNames(taken0, c, secs, k);
    }
  }

  /** A header line met at `i` adds its section ... */
  lemma FoundStep(lines: seq<Line>, registry: Registry, hs: seq<nat>, secs: seq<Section>, taken0: set<string>, i: nat, s: Section)
    requires SectionsFound(lines, registry, hs, secs, taken0)
    requires FoundAt(lines, registry, i, s, TakenBefore(taken0, secs, |secs|))
    ensures SectionsFound(lines, registry, hs + [i], secs + [s], taken0)
    ensures TakenBefore(taken0, secs + [s], |secs| + 1) == TakenBefore(taken0, secs, |secs|) + {s.name}
  {
    var secs', hs' := secs + [s], hs + [i];
    forall k | 0 <= k < |secs'|
      ensures FoundAt(lines, registry, hs'[k], secs'[k], TakenBefore(taken0, secs', k))
    {
      TakenSameNames(taken0, secs', secs, k);
      assert TakenBefore(taken0, secs', k) == TakenBefore(taken0, secs, k);
      if k < |secs| {
        assert hs'[k] == hs[k] && secs'[k] == secs[k];
      }
    }
    assert TakenBefore(taken0, secs', |secs|) == TakenBefore(taken0, secs, |secs|) by {
      TakenSameNames(taken0, secs', secs, |secs|);
    }
  }

  /** ... and the section before it ends where that header line begins. */
  lemma EndsStep(lines: seq<Line>, hs: seq<nat>, secs: seq<Section>, i: nat, s: Section)
    requires EndsFound(lines, hs, secs)
    requires i <= |lines|
    requires |secs| > 0 ==> secs[|secs| - 1].end == Offset(lines, i)
    ensures EndsFound(lines, hs + [i], secs + [s])
  {
    var secs', hs' := secs + [s], hs + [i];
    forall k | 1 <= k < |secs'|
      ensures hs'[k] <= |lines| && secs'[k - 1].end == Offset(lines, hs'[k])
    {
      assert secs'[k - 1] == secs[k - 1];
      if k < |secs| {
        assert hs'[k] == hs[k];
      } else {
        assert hs'[k] == i;
      }
    }
  }

  /** A header that does not parse, names an unknown code or a class without `mode`, rules the file out. */
  lemma HeaderFails(lines: seq<Line>, registry: Registry, i: nat)
    requires 1 <= i < |lines| && IsHeaderLine(lines[i])
    requires var h := ParseHeader(Strip(lines[i].text)); h.Err? || !Opens(registry, h.value.code)
    ensures !ScanParses(lines, registry)
  {
    HeadersComplete(lines, 1, |lines|, i);
  }

  /** Sections found at every header line mean the file parses. */
  lemma FoundParses(lines: seq<Line>, registry: Registry, secs: seq<Section>, taken0: set<string>)
    requires |lines| >= 1 && Strip(lines[0].text) == "$VISION"
    requires SectionsFound(lines, registry, Headers(lines, 1, |lines|), secs, taken0)
    ensures ScanParses(lines, registry)
  {
  }

  /** A table with the byte range the parse of its section needs. */
  predicate Positioned(t: VisumTable)
    reads t`startPos, t`endPos
  {
    t.startPos.Some? && t.endPos.Some?
  }

  /** What the per-section parse reads of a table: its format, its column header,
      its records and the byte range of its section. */
  datatype View = View(code: string, mode: string, colsRaw: string, table: seq<Row>, frame: seq<Entry>,
                       startPos: Option<nat>, endPos: Option<nat>)

  function ViewOf(t: VisumTable): View
    reads t`colsRaw, t`table, t`frame, t`startPos, t`endPos
  {
    View(t.code, t.mode, t.colsRaw, t.table, t.frame, t.startPos, t.endPos)
  }

  /** The table the scan makes for section `s`, before its end is known: format
      and columns from the header, no records, and the start of the section. */
  function OpenView(s: Section): View
  {
    View(s.header.code, s.header.mode, s.header.cols, [], [], Some(s.start), None)
  }

  /** The table of section `k`: every section but the last is closed, and the last
      one too once `closed`. */
  function SectionView(secs: seq<Section>, k: nat, closed: bool): View
    requires k < |secs|
  {
    OpenView(secs[k]).(endPos := if k < |secs| - 1 || closed then Some(secs[k].end) else None)
  }

  /** A table there was before the scan: the one that was current then gets the
      end `e0` once the first boundary has been met. */
  function KeptView(v: View, t: VisumTable, current0: VisumTable?, e0: Option<nat>): View
  {
    if t == current0 && e0.Some? then v.(endPos := e0) else v
  }

  /** `_endpos = e` on the table `c`, seen through every name that holds it. */
  function Bump(views: map<string, View>, tables: map<string, VisumTable>, c: VisumTable, e: nat): (r: map<string, View>)
    ensures r.Keys == views.Keys
  {
    map n | n in views :: if n in tables && tables[n] == c then views[n].(endPos := Some(e)) else views[n]
  }

  /** No name but `last` holds the table stored under `last`. */
  ghost predicate Sole(tables: map<string, VisumTable>, last: string)
    requires last in tables
  {
    forall n :: n in tables && tables[n] == tables[last] ==> n == last
  }

  /** The names and tables there were (`names0`, `tables0`, `views0`) keep their
      places, and one name per section follows them. */
  ghost predicate Kept(secs: seq<Section>, names: seq<string>, tables: map<string, VisumTable>,
                       views: map<string, View>, names0: seq<string>, tables0: map<string, VisumTable>,
                       views0: map<string, View>, current0: VisumTable?, e0: Option<nat>)
  {
    && names == names0 + NamesOf(secs)
    && tables.Keys == TakenBefore(tables0.Keys, secs, |secs|)
    && views.Keys == tables.Keys && views0.Keys == tables0.Keys
    && (forall n :: n in tables0 ==> tables[n] == tables0[n] && views[n] == KeptView(views0[n], tables0[n], current0, e0))
  }

  /** The name of every section holds a table opened on the section; the table of
      the last section is held by its name only. */
  ghost predicate Opened(secs: seq<Section>, closed: bool, tables: map<string, VisumTable>, views: map<string, View>,
                         tables0: map<string, VisumTable>)
  {
    && (forall k :: 0 <= k < |secs| ==>
          && secs[k].name in tables && secs[k].name in views && secs[k].name !in tables0
          && views[secs[k].name] == SectionView(secs, k, closed))
    && (|secs| > 0 ==> secs[|secs| - 1].name in tables && Sole(tables, secs[|secs| - 1].name))
  }

  /** The names, tables and table views of the document during the scan. */
  ghost predicate Tracks(secs: seq<Section>, closed: bool, names: seq<string>, tables: map<string, VisumTable>,
                         views: map<string, View>, names0: seq<string>, tables0: map<string, VisumTable>,
                         views0: map<string, View>, current0: VisumTable?, e0: Option<nat>)
  {
    Kept(secs, names, tables, views, names0, tables0, views0, current0, e0) && Opened(secs, closed, tables, views, tables0)
  }

  /** The current table: the one of the last section, or the one there was before. */
  ghost predicate Current(secs: seq<Section>, tables: map<string, VisumTable>, current: VisumTable?, current0: VisumTable?)
  {
    if |secs| == 0 then current == current0 else secs[|secs| - 1].name in tables && current == tables[secs[|secs| - 1].name]
  }

  /** The first boundary the scan meets once `i` lines are read: the first header
      line, if there is one yet. */
  function FirstBoundary(lines: seq<Line>, i: nat): (r: Option<nat>)
    requires 1 <= i <= |lines|
  {
    var hs := Headers(lines, 1, i);
    if |hs| == 0 then None else Some(Offset(lines, hs[0]))
  }

  /** Closing the current table closes the last section, or, before the first
      one, the table that was current before the scan. */
  lemma CloseStep(secs: seq<Section>, names: seq<string>, tables: map<string, VisumTable>, views: map<string, View>,
                  current: VisumTable?, names0: seq<string>, tables0: map<string, VisumTable>, views0: map<string, View>,
                  current0: VisumTable?, e0: Option<nat>, e: nat)
    requires Tracks(secs, false, names, tables, views, names0, tables0, views0, current0, e0)
    requires Current(secs, tables, current, current0)
    requires |secs| == 0 ==> e0.None?
    ensures Tracks(CloseLast(secs, e), true, names, tables, if current == null then views else Bump(views, tables, current, e),
                   names0, tables0, views0, current0, if |secs| == 0 then Some(e) else e0)
    ensures Current(CloseLast(secs, e), tables, current, current0)
  {
    if |secs| == 0 {
      if current != null {
        BumpFirst(names, tables, views, names0, tables0, views0, current0, e);
      }
    } else {
      var last := secs[|secs| - 1].name;
      BumpOne(views, tables, last, e);
      CloseOn(secs, names, tables, views, names0, tables0, views0, current0, e0, e);
    }
  }

  /** `Bump` on a table held by one name only updates that name. */
  lemma BumpOne(views: map<string, View>, tables: map<string, VisumTable>, last: string, e: nat)
    requires last in views && views.Keys == tables.Keys && Sole(tables, last)
    ensures Bump(views, tables, tables[last], e) == views[last := views[last].(endPos := Some(e))]
  {
  }

  /** The first boundary closes the table that was current before the scan. */
  lemma BumpFirst(names: seq<string>, tables: map<string, VisumTable>, views: map<string, View>,
                  names0: seq<string>, tables0: map<string, VisumTable>, views0: map<string, View>,
                  current0: VisumTable, e: nat)
    requires Tracks([], false, names, tables, views, names0, tables0, views0, current0, None)
    ensures Tracks([], true, names, tables, Bump(views, tables, current0, e), names0, tables0, views0, current0, Some(e))
  {
    assert tables.Keys == tables0.Keys;
  }

  /** The boundary after the last section closes it. */
  lemma CloseOn(secs: seq<Section>, names: seq<string>, tables: map<string, VisumTable>, views: map<string, View>,
                names0: seq<string>, tables0: map<string, VisumTable>, views0: map<string, View>,
                current0: VisumTable?, e0: Option<nat>, e: nat)
    requires |secs| > 0
    requires Tracks(secs, false, names, tables, views, names0, tables0, views0, current0, e0)
    ensures var last := secs[|secs| - 1].name;
            Tracks(CloseLast(secs, e), true, names, tables, views[last := views[last].(endPos := Some(e))],
                   names0, tables0, views0, current0, e0)
  {
    CloseKept(secs, names, tables, views, names0, tables0, views0, current0, e0, e);
    CloseOpened(secs, tables, views, tables0, e);
  }

  /** Closing the last section keeps the names and tables there were. */
  lemma CloseKept(secs: seq<Section>, names: seq<string>, tables: map<string, VisumTable>, views: map<string, View>,
                  names0: seq<string>, tables0: map<string, VisumTable>, views0: map<string, View>,
                  current0: VisumTable?, e0: Option<nat>, e: nat)
    requires |secs| > 0
    requires Kept(secs, names, tables, views, names0, tables0, views0, current0, e0)
    requires secs[|secs| - 1].name in views && secs[|secs| - 1].name !in tables0
    ensures var last := secs[|secs| - 1].name;
            Kept(CloseLast(secs, e), names, tables, views[last := views[last].(endPos := Some(e))],
                 names0, tables0, views0, current0, e0)
  {
    var c := CloseLast(secs, e);
    var last := secs[|secs| - 1].name;
    assert NamesOf(c) == NamesOf(secs);
    TakenSameNames(tables0.Keys, c, secs, |secs|);
  }

  /** Closing the last section gives its view its end and leaves the others. */
  lemma CloseOpened(secs: seq<Section>, tables: map<string, VisumTable>, views: map<string, View>,
                    tables0: map<string, VisumTable>, e: nat)
    requires |secs| > 0
    requires Opened(secs, false, tables, views, tables0)
    ensures var last := secs[|secs| - 1].name;
            Opened(CloseLast(secs, e), true, tables, views[last := views[last].(endPos := Some(e))], tables0)
  {
    var c := CloseLast(secs, e);
    var n := |secs| - 1;
    var last := secs[n].name;
    var views' := views[last := views[last].(endPos := Some(e))];
    assert views[last].endPos.None?;
    forall k | 0 <= k < |c|
      ensures c[k].name in tables && c[k].name in views' && c[k].name !in tables0
      ensures views'[c[k].name] == SectionView(c, k, true)
    {
      if k < n {
        assert c[k] == secs[k];
        assert views[secs[k].name] == SectionView(secs, k, false);
        assert views[secs[k].name].endPos.Some?;
        assert secs[k].name != last;
        assert SectionView(c, k, true) == SectionView(secs, k, false);
      } else {
        assert c[k] == secs[n].(end := e);
      }
    }
    assert Sole(tables, c[n].name);
  }

  /** Storing the table `t` of a new section `s` under its free name. */
  lemma AddStep(secs: seq<Section>, names: seq<string>, tables: map<string, VisumTable>, views: map<string, View>,
                names0: seq<string>, tables0: map<string, VisumTable>, views0: map<string, View>,
                current0: VisumTable?, e0: Option<nat>, s: Section, t: VisumTable)
    requires Tracks(secs, true, names, tables, views, names0, tables0, views0, current0, e0)
    requires s.name !in tables && t !in tables.Values
    ensures Tracks(secs + [s], false, names + [s.name], tables[s.name := t], views[s.name := OpenView(s)],
                   names0, tables0, views0, current0, e0)
    ensures Current(secs + [s], tables[s.name := t], t, current0)
  {
    AddKept(secs, names, tables, views, names0, tables0, views0, current0, e0, s, t);
    AddSections(secs, tables, views, tables0, s, t);
  }

  /** The names and the tables there were, once a section is added. */
  lemma AddKept(secs: seq<Section>, names: seq<string>, tables: map<string, VisumTable>, views: map<string, View>,
                names0: seq<string>, tables0: map<string, VisumTable>, views0: map<string, View>,
                current0: VisumTable?, e0: Option<nat>, s: Section, t: VisumTable)
    requires Kept(secs, names, tables, views, names0, tables0, views0, current0, e0)
    requires s.name !in tables
    ensures Kept(secs + [s], names + [s.name], tables[s.name := t], views[s.name := OpenView(s)],
                 names0, tables0, views0, current0, e0)
  {
    TakenSnoc(tables0.Keys, secs, s);
    NamesSnoc(secs, s);
    AppendAssoc(names0, NamesOf(secs), [s.name]);
  }

  /** The views of the sections, once a section is added with a table of its own. */
  lemma AddSections(secs: seq<Section>, tables: map<string, VisumTable>, views: map<string, View>,
                    tables0: map<string, VisumTable>, s: Section, t: VisumTable)
    requires Opened(secs, true, tables, views, tables0)
    requires tables0.Keys <= tables.Keys
    requires s.name !in tables && t !in tables.Values
    ensures Opened(secs + [s], false, tables[s.name := t], views[s.name := OpenView(s)], tables0)
  {
    var secs', tables', views' := secs + [s], tables[s.name := t], views[s.name := OpenView(s)];
    forall k | 0 <= k < |secs'|
      ensures secs'[k].name in tables' && secs'[k].name in views' && secs'[k].name !in tables0
      ensures views'[secs'[k].name] == SectionView(secs', k, false)
    {
      if k < |secs| {
        assert secs'[k] == secs[k];
        assert SectionView(secs', k, false) == SectionView(secs, k, true);
      }
    }
    assert forall n :: n in tables ==> tables[n] in tables.Values;
  }

  /** At the end of the file every section ends where the next header line
      begins, and the last one at the end of the file. */
  lemma ScanEnds(lines: seq<Line>, hs: seq<nat>, secs: seq<Section>)
    requires |lines| >= 1 && hs == Headers(lines, 1, |lines|)
    requires EndsFound(lines, hs, secs)
    ensures var c := CloseLast(secs, Offset(lines, |lines|));
            forall k :: 0 <= k < |c| ==> c[k].end == SectionEnd(lines, hs, k)
  {
    var c := CloseLast(secs, Offset(lines, |lines|));
    forall k | 0 <= k < |c|
      ensures c[k].end == SectionEnd(lines, hs, k)
    {
      if k + 1 < |c| {
        assert c[k] == secs[k + 1 - 1];
      }
    }
  }

  /** The tables the boundary scan leaves behind: one per header line, stored under
      the first free name of its code, after the names there were, and opened on
      the section's header with its byte range; the tables there were keep their
      names, and the one that was current gets the first boundary as its end. */
  ghost predicate Scanned(lines: seq<Line>, registry: Registry, secs: seq<Section>, names: seq<string>,
                          tables: map<string, VisumTable>, views: map<string, View>, names0: seq<string>,
                          tables0: map<string, VisumTable>, views0: map<string, View>, current0: VisumTable?)
  {
    && |lines| >= 1
    && var hs := Headers(lines, 1, |lines|);
    && SectionsFound(lines, registry, hs, secs, tables0.Keys)
    && (forall k :: 0 <= k < |secs| ==> secs[k].end == SectionEnd(lines, hs, k))
    && Tracks(secs, true, names, tables, views, names0, tables0, views0, current0,
              Some(if |hs| == 0 then Offset(lines, |lines|) else Offset(lines, hs[0])))
  }

  /** The state of the read scan once lines `0` .. `i - 1` are read: a section for
      every header line met, each ended by the next, and the document tracking them.
      Contracts compare this predicate and the two below with `true`, so that each
      is checked as one proof goal rather than one goal per conjunct. */
  ghost predicate ScanState(lines: seq<Line>, registry: Registry, i: nat, secs: seq<Section>, names: seq<string>,
                            tables: map<string, VisumTable>, views: map<string, View>, current: VisumTable?,
                            names0: seq<string>, tables0: map<string, VisumTable>, views0: map<string, View>,
                            current0: VisumTable?)
    requires 1 <= i <= |lines|
  {
    var hs := Headers(lines, 1, i);
    && SectionsFound(lines, registry, hs, secs, tables0.Keys) && EndsFound(lines, hs, secs)
    && Tracks(secs, false, names, tables, views, names0, tables0, views0, current0, FirstBoundary(lines, i))
    && Current(secs, tables, current, current0)
  }

  /** Before the scan has read past the first line, nothing is found and nothing has changed. */
  lemma ScanStart(lines: seq<Line>, registry: Registry, names0: seq<string>, tables0: map<string, VisumTable>,
                  views0: map<string, View>, current0: VisumTable?)
    requires |lines| >= 1 && views0.Keys == tables0.Keys
    ensures ScanState(lines, registry, 1, [], names0, tables0, views0, current0, names0, tables0, views0, current0) == true
  {
    assert Headers(lines, 1, 1) == [];
    assert FirstBoundary(lines, 1) == None;
    assert TakenBefore(tables0.Keys, [], 0) == tables0.Keys;
    assert NamesOf([]) == [];
  }

  /** The state once the header line `i` has closed the current table. */
  ghost predicate ClosedState(lines: seq<Line>, registry: Registry, i: nat, secs: seq<Section>, names: seq<string>,
                              tables: map<string, VisumTable>, views: map<string, View>, current: VisumTable?,
                              names0: seq<string>, tables0: map<string, VisumTable>, views0: map<string, View>,
                              current0: VisumTable?)
    requires 1 <= i < |lines|
  {
    var hs := Headers(lines, 1, i);
    && SectionsFound(lines, registry, hs, secs, tables0.Keys) && EndsFound(lines, hs, secs)
    && (|secs| > 0 ==> secs[|secs| - 1].end == Offset(lines, i))
    && Tracks(secs, true, names, tables, views, names0, tables0, views0, current0,
              Some(if |hs| == 0 then Offset(lines, i) else Offset(lines, hs[0])))
    && Current(secs, tables, current, current0)
  }

  /** A header line closes the current table ... */
  lemma CloseHeader(lines: seq<Line>, registry: Registry, i: nat, secs: seq<Section>, names: seq<string>,
                    tables: map<string, VisumTable>, views: map<string, View>, current: VisumTable?,
                    names0: seq<string>, tables0: map<string, VisumTable>, views0: map<string, View>,
                    current0: VisumTable?)
    requires 1 <= i < |lines|
    requires ScanState(lines, registry, i, secs, names, tables, views, current, names0, tables0, views0, current0) == true
    ensures var pos := Offset(lines, i);
            ClosedState(lines, registry, i, CloseLast(secs, pos), names, tables,
                        if current == null then views else Bump(views, tables, current, pos), current,
                        names0, tables0, views0, current0)
  {
    var hs := Headers(lines, 1, i);
    var pos := Offset(lines, i);
    CloseStep(secs, names, tables, views, current, names0, tables0, views0, current0, FirstBoundary(lines, i), pos);
    Closed(lines, registry, hs, secs, tables0.Keys, pos);
  }

  /** ... and the section it opens is stored under its free name with a new table. */
  lemma AddHeader(lines: seq<Line>, registry: Registry, i: nat, secs: seq<Section>, names: seq<string>,
                  tables: map<string, VisumTable>, views: map<string, View>, current: VisumTable?,
                  names0: seq<string>, tables0: map<string, VisumTable>, views0: map<string, View>,
                  current0: VisumTable?, s: Section, t: VisumTable)
    requires 1 <= i < |lines|
    requires ClosedState(lines, registry, i, secs, names, tables, views, current, names0, tables0, views0, current0) == true
    requires FoundAt(lines, registry, i, s, tables.Keys)
    requires t !in tables.Values
    ensures ScanState(lines, registry, i + 1, secs + [s], names + [s.name], tables[s.name := t],
                      views[s.name := OpenView(s)], t, names0, tables0, views0, current0)
  {
    var hs := Headers(lines, 1, i);
    assert Headers(lines, 1, i + 1) == hs + [i];
    var e0: Option<nat> := Some(if |hs| == 0 then Offset(lines, i) else Offset(lines, hs[0]));
    assert FirstBoundary(lines, i + 1) == e0;
    FreeNameEmpty(s.name, s.header.code, tables.Keys);
    FoundStep(lines, registry, hs, secs, tables0.Keys, i, s);
    EndsStep(lines, hs, secs, i, s);
    AddStep(secs, names, tables, views, names0, tables0, views0, current0, e0, s, t);
  }

  /** A line that is not a header line changes nothing. */
  lemma SkipLine(lines: seq<Line>, registry: Registry, i: nat, secs: seq<Section>, names: seq<string>,
                 tables: map<string, VisumTable>, views: map<string, View>, current: VisumTable?,
                 names0: seq<string>, tables0: map<string, VisumTable>, views0: map<string, View>,
                 current0: VisumTable?)
    requires 1 <= i < |lines| && !IsHeaderLine(lines[i])
    requires ScanState(lines, registry, i, secs, names, tables, views, current, names0, tables0, views0, current0) == true
    ensures ScanState(lines, registry, i + 1, secs, names, tables, views, current, names0, tables0, views0, current0)
  {
    assert Headers(lines, 1, i + 1) == Headers(lines, 1, i);
  }

  /** The end of the file closes the current table, which gives the result of the scan. */
  lemma CloseEnd(lines: seq<Line>, registry: Registry, secs: seq<Section>, names: seq<string>,
                 tables: map<string, VisumTable>, views: map<string, View>, current: VisumTable,
                 names0: seq<string>, tables0: map<string, VisumTable>, views0: map<string, View>,
                 current0: VisumTable?)
    requires |lines| >= 1
    requires ScanState(lines, registry, |lines|, secs, names, tables, views, current, names0, tables0, views0, current0) == true
    ensures var pos := Offset(lines, |lines|);
            Scanned(lines, registry, CloseLast(secs, pos), names, tables, Bump(views, tables, current, pos),
                    names0, tables0, views0, current0)
  {
    var hs := Headers(lines, 1, |lines|);
    var pos := Offset(lines, |lines|);
    CloseStep(secs, names, tables, views, current, names0, tables0, views0, current0, FirstBoundary(lines, |lines|), pos);
    Closed(lines, registry, hs, secs, tables0.Keys, pos);
    ScanEnds(lines, hs, secs);
  }

  /** At the end of the file there is a current table exactly when a header line
      was met or there was a current table before the scan. */
  lemma CurrentAtEnd(lines: seq<Line>, registry: Registry, secs: seq<Section>, names: seq<string>,
                     tables: map<string, VisumTable>, views: map<string, View>, current: VisumTable?,
                     names0: seq<string>, tables0: map<string, VisumTable>, views0: map<string, View>,
                     current0: VisumTable?)
    requires |lines| >= 1
    requires ScanState(lines, registry, |lines|, secs, names, tables, views, current, names0, tables0, views0, current0) == true
    ensures current != null <==> |Headers(lines, 1, |lines|)| >= 1 || current0 != null
    ensures current == null ==> current0 == null
  {
  }

  /** A scan that met no header and had no current table leaves everything as it was. */
  lemma NothingClosed(lines: seq<Line>, registry: Registry, secs: seq<Section>, names: seq<string>,
                      tables: map<string, VisumTable>, views: map<string, View>,
                      names0: seq<string>, tables0: map<string, VisumTable>, views0: map<string, View>)
    requires |lines| >= 1
    requires ScanState(lines, registry, |lines|, secs, names, tables, views, null, names0, tables0, views0, null) == true
    ensures Scanned(lines, registry, secs, names, tables, views, names0, tables0, views0, null)
  {
  }

  // ---------------------------------------------------------------------------
  // the document

  /** No name occurs twice, stated from the last name back so that appending a
      name needs one step only. */
  predicate Unique(s: seq<string>)
  {
    |s| == 0 || (s[|s| - 1] !in s[..|s| - 1] && Unique(s[..|s| - 1]))
  }

  /** `Unique` is pairwise distinctness. */
  lemma {:induction false} UniqueDistinct(s: seq<string>)
    ensures Unique(s) <==> forall i, j :: 0 <= i < j < |s| ==> s[i] != s[j]
  {
    if |s| > 0 {
      var p := s[..|s| - 1];
      UniqueDistinct(p);
      assert forall i :: 0 <= i < |p| ==> p[i] == s[i];
      if forall i, j :: 0 <= i < j < |s| ==> s[i] != s[j] {
        assert s[|s| - 1] !in p by {
          forall i | 0 <= i < |p| ensures p[i] != s[|s| - 1] {
            assert s[i] != s[|s| - 1];
          }
        }
      }
    }
  }

  class VisumTransfer {
    const user: string
    /** `date or datetime.date.today()`: the caller passes the date. */
    const date: string
    /** The keys of the ordered dict `tables`, in insertion order. */
    var names: seq<string>
    var tables: map<string, VisumTable>
    /** `current_table`, absent (null) until a read has met a header. */
    var current: VisumTable?

    ghost predicate Valid()
      reads this`names, this`tables
    {
      && Unique(names)
      && (forall n :: n in tables <==> n in names)
    }

    constructor (user: string, date: string)
      ensures Valid()
      ensures this.user == user && this.date == date
      ensures names == [] && tables == map[] && current == null
    {
      this.user := user;
      this.date := date;
      names := [];
      tables := map[];
      current := null;
    }

    /** `add_table`: stored under `name or table.code`; a name already present keeps
        its place in the order and gets the new table. */
    method AddTable(t: VisumTable, name: string)
      requires Valid()
      modifies this`names, this`tables
      ensures Valid()
      ensures var n := if name == "" then t.code else name;
              && tables == old(tables)[n := t]
              && names == (if n in old(tables) then old(names) else old(names) + [n])
              && Views() == old(Views())[n := ViewOf(t)]
    {
      var n := if name == "" then t.code else name;
      if n !in tables {
        names := names + [n];
        assert names[..|names| - 1] == old(names);
      }
      tables := tables[n := t];
      assert Views() == old(Views())[n := ViewOf(t)] by {
        forall m | m in tables
          ensures ViewOf(tables[m]) == old(Views())[n := ViewOf(t)][m]
        {
          if m != n {
            var x := old(tables)[m];
            assert old(ViewOf(x)) == ViewOf(x);
          }
        }
      }
    }

    /** The tables in insertion order. */
    function Ordered(): (r: seq<VisumTable>)
      requires Valid()
      reads this
      ensures |r| == |names| && forall i :: 0 <= i < |names| ==> r[i] == tables[names[i]]
    {
      var ns, ts := names, tables;
      seq(|ns|, i requires 0 <= i < |ns| && ns[i] in ts => ts[ns[i]])
    }

    /** `write`: the banner, then every block in insertion order. */
    function Write(cat: Catalogue): (r: (seq<string>, Outcome))
      requires Valid()
      reads this, tables.Values
      ensures |r.0| >= 5 && r.0[..5] == Banner(user, date)
      ensures r.0[5..] == Blocks(Ordered(), cat, false).0
      ensures r.1.Pass? <==> forall n :: n in tables ==> tables[n].mode in Modes
    {
      var ts := Ordered();
      assert forall i :: 0 <= i < |ts| ==> ts[i] in tables.Values;
      var b := Blocks(ts, cat, false);
      assert b.1.Pass? <==> forall n :: n in tables ==> tables[n].mode in Modes by {
        forall n | n in tables ensures b.1.Pass? ==> tables[n].mode in Modes {
          var i :| 0 <= i < |names| && names[i] == n;
          assert ts[i] == tables[n];
        }
      }
      (Banner(user, date) + b.0, b.1)
    }

    /** `append`: every block in insertion order except those of code VERSION. */
    function Append(cat: Catalogue): (r: (seq<string>, Outcome))
      requires Valid()
      reads this, tables.Values
      ensures r == Blocks(WithoutVersion(Ordered()), cat, false)
      ensures r.1.Pass? <==> forall n :: n in tables && tables[n].code != VersionClass.code ==> tables[n].mode in Modes
    {
      var ts := Ordered();
      assert forall i :: 0 <= i < |ts| ==> ts[i] in tables.Values;
      BlocksSkipVersion(ts, cat);
      var b := Blocks(ts, cat, true);
      assert b.1.Pass? <==> forall n :: n in tables && tables[n].code != VersionClass.code ==> tables[n].mode in Modes by {
        forall n | n in tables && tables[n].code != VersionClass.code ensures b.1.Pass? ==> tables[n].mode in Modes {
          var i :| 0 <= i < |names| && names[i] == n;
          assert ts[i] == tables[n];
        }
      }
      b
    }

    /** `get_tables`: the tables of format `code` whose mode is in `modes`. */
    function GetTables(code: string, modes: ModeFilter): (r: map<string, VisumTable>)
      reads this, tables.Values
      ensures forall n :: n in r <==> n in tables && tables[n].code == code && ModeIn(tables[n].mode, modes)
      ensures forall n :: n in r ==> r[n] == tables[n]
    {
      map n | n in tables && tables[n].code == code && ModeIn(tables[n].mode, modes) :: tables[n]
    }

    /** The keys of `get_tables` in the order the dictionary yields them, which is the
        insertion order of `self.tables`. */
    function GetTablesOrder(code: string, modes: ModeFilter): (r: seq<string>)
      requires Valid()
      reads this
      ensures forall n :: n in r <==> n in GetTables(code, modes)
    {
      SelectNames(names, tables, code, modes)
    }

    /** Every table has the byte range the parse of the sections needs. */
    predicate AllPositioned()
      reads this, tables.Values
    {
      forall n :: n in tables ==> Positioned(tables[n])
    }

    /** What the per-section parse reads of every table, by name. */
    ghost function Views(): (v: map<string, View>)
      reads this`tables, tables.Values
      ensures v.Keys == tables.Keys
    {
      map n | n in tables :: ViewOf(tables[n])
    }

    /** A header line, or the end of the file, ends the range of the current
        table, if there is one. */
    method CloseCurrentTable(pos: nat)
      modifies (if current == null then {} else {current})`endPos
      ensures names == old(names) && tables == old(tables) && current == old(current)
      ensures Views() == if current == null then old(Views()) else Bump(old(Views()), tables, current, pos)
    {
      if current != null {
        current.endPos := Some(pos);
      }
    }

    /** `self.visum_tables[section](mode=mode)`, given the columns of the header and
        the start of the section. */
    method SectionTable(s: Section, cls: TableClass) returns (t: VisumTable)
      requires cls.code == s.header.code
      ensures fresh(t) && ViewOf(t) == OpenView(s)
      ensures names == old(names) && tables == old(tables) && current == old(current) && Views() == old(Views())
    {
      t := new VisumTable(cls, Some(s.header.mode));
      JoinSplit(s.header.cols, ';');
      t.colsRaw := Join(Split(s.header.cols, ';'), ";");
      t.startPos := Some(s.start);
    }

    /** The header of the section at line `i` and the free name it is stored under. */
    method FindSection(lines: seq<Line>, registry: Registry, i: nat, pos: nat, taken: set<string>)
      returns (r: Result<Section>)
      requires i < |lines| && IsHeaderLine(lines[i]) && pos == Offset(lines, i)
      ensures names == old(names) && tables == old(tables) && current == old(current) && Views() == old(Views())
      ensures var h := ParseHeader(Strip(lines[i].text));
              && (h.Err? ==> r == Err(h.error))
              && (h.Ok? && h.value.code !in registry ==> r == Err(KeyError(h.value.code)))
              && (h.Ok? && h.value.code in registry && !registry[h.value.code].modeKeyword ==>
                    r == Err(TypeError("__init__() got an unexpected keyword argument 'mode'")))
              && (h.Ok? && Opens(registry, h.value.code) ==> r.Ok? && FoundAt(lines, registry, i, r.value, taken))
    {
      var h := ParseHeader(Strip(lines[i].text));
      if h.Err? {
        return Err(h.error);
      }
      var sectionName := SectionName(h.value.code, taken);
      if h.value.code !in registry {
        return Err(KeyError(h.value.code));
      }
      if !registry[h.value.code].modeKeyword {
        return Err(TypeError("__init__() got an unexpected keyword argument 'mode'"));
      }
      return Ok(Section(sectionName, h.value, pos + lines[i].size, 0));
    }

    /** The section at header line `i`: its header is parsed and its name chosen;
        when its code is registered, a new table for it becomes the current table
        and is stored under that name. */
    method OpenSection(lines: seq<Line>, registry: Registry, i: nat, pos: nat) returns (r: Result<Section>)
      requires KeyedByCode(registry) && Valid()
      requires i < |lines| && IsHeaderLine(lines[i]) && pos == Offset(lines, i)
      modifies this`names, this`tables, this`current
      ensures Valid()
      ensures var h := ParseHeader(Strip(lines[i].text));
              && (h.Err? ==> r == Err(h.error))
              && (h.Ok? && h.value.code !in registry ==> r == Err(KeyError(h.value.code)))
              && (h.Ok? && h.value.code in registry && !registry[h.value.code].modeKeyword ==>
                    r == Err(TypeError("__init__() got an unexpected keyword argument 'mode'")))
              && (h.Ok? && Opens(registry, h.value.code) ==> r.Ok? && FoundAt(lines, registry, i, r.value, old(tables).Keys))
      ensures r.Err? ==> names == old(names) && tables == old(tables) && current == old(current)
      ensures r.Ok? ==>
                && fresh(current) && tables == old(tables)[r.value.name := current]
                && names == old(names) + [r.value.name]
                && Views() == old(Views())[r.value.name := OpenView(r.value)]
    {
      r := FindSection(lines, registry, i, pos, tables.Keys);
      if r.Err? {
        return;
      }
      var s := r.value;
      FreeNameEmpty(s.name, s.header.code, tables.Keys);
      var t := SectionTable(s, registry[s.header.code]);
      ghost var v := Views();
      current := t;
      assert Views() == v;
      AddTable(t, s.name);
    }

    /** The check the per-section parse makes in passing: the first table in
        insertion order without a start, or else without an end, stops it. */
    method CheckPositions() returns (r: Outcome)
      requires Valid()
      ensures Views() == old(Views())
      ensures r.Pass? <==> AllPositioned()
      ensures r.Fail? ==>
                exists k :: 0 <= k < |names| &&
                  (forall j :: 0 <= j < k ==> Positioned(tables[names[j]])) &&
                  !Positioned(tables[names[k]]) &&
                  r.error == (if tables[names[k]].startPos.None? then AttributeError("_startpos")
                              else AttributeError("_endpos"))
    {
      var k := 0;
      while k < |names|
        invariant 0 <= k <= |names|
        invariant forall j :: 0 <= j < k ==> Positioned(tables[names[j]])
      {
        var t := tables[names[k]];
        if t.startPos.None? {
          return Fail(AttributeError("_startpos"));
        }
        if t.endPos.None? {
          return Fail(AttributeError("_endpos"));
        }
        k := k + 1;
      }
      assert forall n :: n in tables ==> Positioned(tables[n]) by {
        forall n | n in tables ensures Positioned(tables[n]) {
          var j :| 0 <= j < |names| && names[j] == n;
        }
      }
      return Pass;
    }

    /** One line of the boundary scan: a header line closes the current table and
        opens a new section, any other line is skipped. */
    method ScanLine(lines: seq<Line>, registry: Registry, i: nat, pos: nat, secs: seq<Section>,
                    ghost names0: seq<string>, ghost tables0: map<string, VisumTable>,
                    ghost views0: map<string, View>, ghost current0: VisumTable?)
      returns (err: Option<Error>, secs': seq<Section>)
      requires KeyedByCode(registry) && Valid()
      requires 1 <= i < |lines| && pos == Offset(lines, i)
      requires ScanState(lines, registry, i, secs, names, tables, Views(), current, names0, tables0, views0, current0) == true
      modifies this`names, this`tables, this`current, (if current == null then {} else {current})`endPos
      ensures Valid()
      ensures current == old(current) || fresh(current)
      ensures err.Some? ==> !ScanParses(lines, registry)
      ensures err.None? ==> ScanState(lines, registry, i + 1, secs', names, tables, Views(), current, names0, tables0, views0, current0) == true
    {
      if !IsHeaderLine(lines[i]) {
        SkipLine(lines, registry, i, secs, names, tables, Views(), current, names0, tables0, views0, current0);
        return None, secs;
      }
      CloseHeader(lines, registry, i, secs, names, tables, Views(), current, names0, tables0, views0, current0);
      CloseCurrentTable(pos);
      secs' := CloseLast(secs, pos);
      ghost var v, tables', names' := Views(), tables, names;
      var found := OpenSection(lines, registry, i, pos);
      if found.Err? {
        HeaderFails(lines, registry, i);
        return Some(found.error), secs';
      }
      AddHeader(lines, registry, i, secs', names', tables', v, old(current), names0, tables0, views0, current0, found.value, current);
      secs' := secs' + [found.value];
      err := None;
    }

    /** The loop of the boundary scan over the lines after the first. */
    method ScanLines(lines: seq<Line>, registry: Registry, ghost names0: seq<string>, ghost tables0: map<string, VisumTable>,
                     ghost views0: map<string, View>, ghost current0: VisumTable?)
      returns (err: Option<Error>, secs: seq<Section>, pos: nat)
      requires |lines| >= 1 && KeyedByCode(registry)
      requires Valid() && tables == tables0 && names == names0 && views0 == Views() && current == current0
      modifies this`names, this`tables, this`current, (if current == null then {} else {current})`endPos
      ensures Valid()
      ensures current == old(current) || fresh(current)
      ensures err.Some? ==> !ScanParses(lines, registry)
      ensures err.None? ==>
                && pos == Offset(lines, |lines|)
                && ScanState(lines, registry, |lines|, secs, names, tables, Views(), current, names0, tables0, views0, current0) == true
    {
      secs := [];
      pos := lines[0].size;
      assert pos == Offset(lines, 1);
      ScanStart(lines, registry, names0, tables0, views0, current0);
      var i := 1;
      while i < |lines|
        invariant 1 <= i <= |lines| && pos == Offset(lines, i) && Valid()
        invariant ScanState(lines, registry, i, secs, names, tables, Views(), current, names0, tables0, views0, current0) == true
        invariant current == current0 || fresh(current)
      {
        err, secs := ScanLine(lines, registry, i, pos, secs, names0, tables0, views0, current0);
        if err.Some? {
          return err, secs, pos;
        }
        pos := pos + lines[i].size;
        i := i + 1;
      }
      err := None;
    }

    /** The end of the file ends the range of the current table; without one the
        scan stops on the missing `current_table`. */
    method CloseScan(lines: seq<Line>, registry: Registry, pos: nat, secs: seq<Section>,
                     ghost names0: seq<string>, ghost tables0: map<string, VisumTable>,
                     ghost views0: map<string, View>, ghost current0: VisumTable?)
      returns (r: Outcome, secs': seq<Section>)
      requires Valid() && |lines| >= 1 && pos == Offset(lines, |lines|)
      requires ScanState(lines, registry, |lines|, secs, names, tables, Views(), current, names0, tables0, views0, current0) == true
      modifies (if current == null then {} else {current})`endPos
      ensures r.Pass? <==> |Headers(lines, 1, |lines|)| >= 1 || current0 != null
      ensures r.Fail? ==> r.error == AttributeError("current_table")
      ensures Scanned(lines, registry, secs', names, tables, Views(), names0, tables0, views0, current0) == true
    {
      CurrentAtEnd(lines, registry, secs, names, tables, Views(), current, names0, tables0, views0, current0);
      if current == null {
        NothingClosed(lines, registry, secs, names, tables, Views(), names0, tables0, views0);
        return Fail(AttributeError("current_table")), secs;
      }
      CloseEnd(lines, registry, secs, names, tables, Views(), current, names0, tables0, views0, current0);
      CloseCurrentTable(pos);
      secs' := CloseLast(secs, pos);
      r := Pass;
    }

    /** The boundary scan of `read_from_modification`. A new table is made for every
        `$` line, stored under the first free name of its code, and given the byte
        range of the lines after it; the per-section CSV parse that follows only
        needs every table of the document to carry such a range. */
    method ReadFromModification(lines: seq<Line>, registry: Registry) returns (r: Outcome, secs: seq<Section>)
      requires Valid()
      requires KeyedByCode(registry)
      modifies this, current
      ensures Valid()
      ensures (|lines| == 0 || Strip(lines[0].text) != "$VISION") ==>
                r == Fail(ValueError("no Visum-Modification file")) && names == old(names) && tables == old(tables)
      ensures r.Pass? <==>
                && ScanParses(lines, registry)
                && (|Headers(lines, 1, |lines|)| >= 1 || old(current) != null)
                && AllPositioned()
      ensures ScanParses(lines, registry) ==>
                Scanned(lines, registry, secs, names, tables, Views(), old(names), old(tables), old(Views()), old(current)) == true
    {
      secs := [];
      if |lines| == 0 || Strip(lines[0].text) != "$VISION" {
        assert !ScanParses(lines, registry);
        return Fail(ValueError("no Visum-Modification file")), [];
      }
      var err, pos;
      err, secs, pos := ScanLines(lines, registry, names, tables, Views(), current);
      if err.Some? {
        return Fail(err.value), secs;
      }
      FoundParses(lines, registry, secs, old(tables).Keys);
      r, secs := CloseScan(lines, registry, pos, secs, old(names), old(tables), old(Views()), old(current));
      if r.Pass? {
        r := CheckPositions();
      }
    }
  }
}