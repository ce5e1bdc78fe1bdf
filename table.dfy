/** VisumTable: a schema with two views of its rows. `table` is the record
    array every `add_rows` rebuilds; `frame` is the DataFrame indexed by the
    primary key, which also holds the key-uniqueness invariant. */
module Tables {
  import opened Wrappers
  import opened Text
  import opened Schema

  /** One row of the keyed frame: its key tuple and its non-key cells by column name. */
  datatype Entry = Entry(key: seq<Value>, cells: map<string, Value>)

  predicate DistinctKeys(frame: seq<Entry>)
  {
    forall i, j :: 0 <= i < j < |frame| ==> frame[i].key != frame[j].key
  }

  function KeysOf(frame: seq<Entry>): (r: seq<seq<Value>>)
    ensures |r| == |frame| && forall i :: 0 <= i < |frame| ==> r[i] == frame[i].key
  {
    seq(|frame|, i requires 0 <= i < |frame| => frame[i].key)
  }

  /** The columns that are not key columns, in column order (the DataFrame columns after `set_index`). */
  function NonKey(cols: seq<string>, pkey: seq<string>): (r: seq<string>)
    ensures forall c :: c in r <==> c in cols && c !in pkey
  {
    if |cols| == 0 then []
    else if cols[0] in pkey then NonKey(cols[1..], pkey)
    else [cols[0]] + NonKey(cols[1..], pkey)
  }

  /** The columns of `extra` not yet in `cols`, appended in order (the column union of `append`). */
  function UnionCols(cols: seq<string>, extra: seq<string>): (r: seq<string>)
    ensures |r| >= |cols| && r[..|cols|] == cols
    ensures forall c :: c in r <==> c in cols || c in extra
    decreases |extra|
  {
    if |extra| == 0 then cols
    else if extra[0] in cols then UnionCols(cols, extra[1..])
    else UnionCols(cols + [extra[0]], extra[1..])
  }

  /** A row as a keyed-frame entry. */
  function EntryOf(cols: seq<string>, pkey: seq<string>, positions: seq<nat>, row: Row): (e: Entry)
    requires |row| == |cols|
    requires forall k :: 0 <= k < |positions| ==> positions[k] < |cols|
    ensures e.key == Project(row, positions)
    ensures e.cells.Keys == set c | c in cols && c !in pkey
    ensures forall i :: 0 <= i < |cols| && cols[i] !in pkey && IndexOf(cols, cols[i]) == Some(i) ==>
              e.cells[cols[i]] == row[i]
  {
    Entry(Project(row, positions),
          map c | c in cols && c !in pkey :: row[IndexOf(cols, c).value])
  }

  function EntriesOf(cols: seq<string>, pkey: seq<string>, positions: seq<nat>, rows: seq<Row>): (r: seq<Entry>)
    requires forall k :: 0 <= k < |rows| ==> |rows[k]| == |cols|
    requires forall k :: 0 <= k < |positions| ==> positions[k] < |cols|
    ensures |r| == |rows|
    ensures forall k :: 0 <= k < |rows| ==> r[k] == EntryOf(cols, pkey, positions, rows[k])
  {
    seq(|rows|, k requires 0 <= k < |rows| => EntryOf(cols, pkey, positions, rows[k]))
  }

  /** The text of one cell of `write_df`: a column the catalogue marks boolean is written
      as an integer, a missing cell as ''. */
  function CellText(v: Value, isBool: bool): string
  {
    if isBool then
      match v
      case VBool(b) => if b then "1" else "0"
      case _ => FormatValue(v)
    else FormatValue(v)
  }

  class VisumTable {
    const code: string
    const name: string
    const pkeyRaw: string
    const defaults: map<string, Value>
    const mode: string
    /** `_cols`; `add_cols` and the read scan reassign it. */
    var colsRaw: string
    /** The record array `self.table`. */
    var table: seq<Row>
    /** The keyed frame `self.df`: its rows and its non-index columns. */
    var frame: seq<Entry>
    var frameCols: seq<string>
    /** `self.new_df` of `update_original_df`, absent until the first call. */
    var updateFrame: Option<seq<Entry>>
    /** `_startpos` and `_endpos`, the byte range of the table's section, set by the read scan. */
    var startPos: Option<nat>
    var endPos: Option<nat>

    ghost predicate Valid()
      reads this
    {
      DistinctKeys(frame)
    }

    /** `cols`. */
    function Cols(): (r: seq<string>)
      reads this
      ensures |r| >= 1
    {
      ColsOf(colsRaw)
    }

    /** `pkey`. */
    function Pkey(): (r: seq<string>)
      reads this
      ensures |r| >= 1
    {
      PkeyOf(pkeyRaw, Cols())
    }

    /** `len(table)`, which is the length of the keyed frame. */
    function Len(): nat
      reads this
    {
      |frame|
    }

    /** A fresh `Row(**overrides)` of the current column list. */
    function NewRow(overrides: map<string, Value>): Result<Row>
      reads this
    {
      MakeRow(Cols(), defaults, overrides)
    }

    constructor (cls: TableClass, modeArg: Option<string>)
      ensures Valid()
      ensures code == cls.code && name == cls.name && colsRaw == cls.cols
      ensures pkeyRaw == cls.pkey && defaults == cls.defaults
      ensures mode == if modeArg.Some? then modeArg.value else cls.mode
      ensures table == [] && frame == [] && frameCols == [] && updateFrame == None
      ensures startPos == None && endPos == None
    {
      code := cls.code;
      name := cls.name;
      colsRaw := cls.cols;
      pkeyRaw := cls.pkey;
      defaults := cls.defaults;
      mode := if modeArg.Some? then modeArg.value else cls.mode;
      table := [];
      frame := [];
      frameCols := [];
      updateFrame := None;
      startPos, endPos := None, None;
    }

    /** `add_rows`. The record array is reassigned first, so it keeps the batch
        even when the frame then refuses it; `np.rec.fromrecords([])` raises
        IndexError when both the record array and the batch are empty. The frame
        takes the batch only when every row has one value per column, every key
        column exists and the keys of the old and new rows together are pairwise
        distinct. */
    method AddRows(rows: seq<Row>) returns (r: Outcome)
      requires Valid()
      modifies this`table, this`frame, this`frameCols
      ensures Valid()
      ensures table == old(table) + rows
      ensures |old(table)| == 0 && |rows| == 0 ==> r == Fail(IndexError)
      ensures r.Pass? <==>
        && (|old(table)| > 0 || |rows| > 0)
        && (forall k :: 0 <= k < |rows| ==> |rows[k]| == |Cols()|)
        && KeyPositions(Cols(), Pkey()).Ok?
        && DistinctKeys(old(frame) + EntriesOf(Cols(), Pkey(), KeyPositions(Cols(), Pkey()).value, rows))
      ensures r.Pass? ==>
        && frame == old(frame) + EntriesOf(Cols(), Pkey(), KeyPositions(Cols(), Pkey()).value, rows)
        && frameCols == UnionCols(old(frameCols), NonKey(Cols(), Pkey()))
      ensures r.Fail? ==> frame == old(frame) && frameCols == old(frameCols)
      ensures r.Fail? && (|old(table)| > 0 || |rows| > 0) && KeyPositions(Cols(), Pkey()).Ok?
              && (forall k :: 0 <= k < |rows| ==> |rows[k]| == |Cols()|)
              ==> r.error == ValueError("Indexes have overlapping values")
    {
      if |table| == 0 && |rows| == 0 {
        return Fail(IndexError);
      }
      table := table + rows;
      var cols := Cols();
      if exists k :: 0 <= k < |rows| && |rows[k]| != |cols| {
        return Fail(ValueError("columns passed do not match the data"));
      }
      var positions := KeyPositions(cols, Pkey());
      if positions.Err? {
        return Fail(positions.error);
      }
      var entries := EntriesOf(cols, Pkey(), positions.value, rows);
      if !DistinctKeys(frame + entries) {
        return Fail(ValueError("Indexes have overlapping values"));
      }
      frame := frame + entries;
      frameCols := UnionCols(frameCols, NonKey(cols, Pkey()));
      return Pass;
    }

    /** `add_row`: a batch of one. */
    method AddRow(row: Row) returns (r: Outcome)
      requires Valid()
      modifies this`table, this`frame, this`frameCols
      ensures Valid()
      ensures table == old(table) + [row]
      ensures r.Pass? <==>
        && |row| == |Cols()|
        && KeyPositions(Cols(), Pkey()).Ok?
        && Project(row, KeyPositions(Cols(), Pkey()).value) !in KeysOf(old(frame))
      ensures r.Pass? ==> frame == old(frame) + [EntryOf(Cols(), Pkey(), KeyPositions(Cols(), Pkey()).value, row)]
      ensures r.Fail? ==> frame == old(frame) && frameCols == old(frameCols)
      ensures r.Fail? && |row| == |Cols()| && KeyPositions(Cols(), Pkey()).Ok? ==>
                r.error == ValueError("Indexes have overlapping values")
    {
      var single := [row];
      r := AddRows(single);
      assert single[0] == row;
      assert (forall k :: 0 <= k < |single| ==> |single[k]| == |Cols()|) <==> |row| == |Cols()|;
      if |row| == |Cols()| && KeyPositions(Cols(), Pkey()).Ok? {
        var e := EntryOf(Cols(), Pkey(), KeyPositions(Cols(), Pkey()).value, row);
        assert EntriesOf(Cols(), Pkey(), KeyPositions(Cols(), Pkey()).value, single) == [e];
        AppendOneDistinct(old(frame), e);
      }
    }

    /** `add_cols`: the new columns go after the existing ones; the stored rows of
        both views stay as they are. */
    method AddCols(newCols: seq<string>)
      modifies this`colsRaw
      ensures colsRaw == Join(old(Cols()) + newCols, ";")
      ensures (forall i :: 0 <= i < |newCols| ==> PlainColumn(newCols[i])) ==> Cols() == old(Cols()) + newCols
    {
      var all := Cols() + newCols;
      colsRaw := Join(all, ";");
      if forall i :: 0 <= i < |newCols| ==> PlainColumn(newCols[i]) {
        assert forall i :: 0 <= i < |all| ==> PlainColumn(all[i]) by {
          forall i | 0 <= i < |all| ensures PlainColumn(all[i]) {
            if i >= |old(Cols())| { assert all[i] == newCols[i - |old(Cols())|]; }
          }
        }
        ColsOfJoin(all);
      }
    }

    /** `update_original_df`: both `self.df.iloc[:0].set_index(self.pkey)` and
        `new_df.reset_index()[columns].set_index(self.pkey)` look the key up among
        the frame's columns, and fail with KeyError for the first key column that is
        not one. Otherwise keyed rows whose key is not yet in the update frame are
        appended to it; the filter looks only at the frame as it was before the call. */
    method UpdateOriginalDf(newEntries: seq<Entry>) returns (r: Outcome)
      modifies this`updateFrame
      ensures KeyPositions(frameCols, Pkey()).Err? ==>
                r == Fail(KeyPositions(frameCols, Pkey()).error) && updateFrame == old(updateFrame)
      ensures KeyPositions(frameCols, Pkey()).Ok? ==> r.Pass? && updateFrame.Some?
      ensures KeyPositions(frameCols, Pkey()).Ok? ==>
                var base := if old(updateFrame).Some? then old(updateFrame).value else [];
                updateFrame.value == base + FreshEntries(newEntries, KeysOf(base))
    {
      var positions := KeyPositions(frameCols, Pkey());
      if positions.Err? {
        return Fail(positions.error);
      }
      var base := if updateFrame.Some? then updateFrame.value else [];
      updateFrame := Some(base + FreshEntries(newEntries, KeysOf(base)));
      return Pass;
    }

    /** `df.empty`: the frame has no rows or no columns besides its index. */
    predicate FrameEmpty()
      reads this
    {
      |frame| == 0 || |frameCols| == 0
    }

    /** `write_table`: the header with the column list, one line per record, a blank line. */
    function WriteTable(): (lines: seq<string>)
      reads this
      ensures |lines| == |table| + 2
      ensures lines[0] == HeaderLine(mode, code, Cols()) && lines[|lines| - 1] == ""
      ensures forall k :: 0 <= k < |table| ==> lines[k + 1] == RowLine(table[k])
    {
      var rows := table;
      [HeaderLine(mode, code, Cols())]
        + seq(|rows|, k requires 0 <= k < |rows| => RowLine(rows[k]))
        + [""]
    }

    /** The columns `write_df` writes: the key columns that `reset_index` puts first, then the frame's columns. */
    function DfColumns(): seq<string>
      reads this
    {
      Pkey() + frameCols
    }

    /** `write_df`: the header with the frame's columns, one line per frame row, a blank line. */
    function WriteDf(cat: Catalogue): (lines: seq<string>)
      reads this
      ensures |lines| == |frame| + 2
      ensures lines[0] == HeaderLine(mode, code, DfColumns()) && lines[|lines| - 1] == ""
    {
      var entries, cols, tableName := frame, frameCols, name;
      [HeaderLine(mode, code, DfColumns())]
        + seq(|entries|, k requires 0 <= k < |entries| => DfLine(cat, tableName, cols, entries[k]))
        + [""]
    }

    /** `write_block`: the banner, then the record array when the frame is empty (no rows,
        or no columns besides the key) and the frame otherwise. An unknown mode fails after
        the banner's first line is written. */
    function WriteBlock(cat: Catalogue): (r: (seq<string>, Outcome))
      reads this
      ensures r.1.Pass? <==> mode in Modes
    {
      match BlockBanner(name, mode)
      case Err(e) => (["*"], Fail(e))
      case Ok(banner) => (banner + (if FrameEmpty() then WriteTable() else WriteDf(cat)), Pass)
    }

    /** The lines of a block: the banner, then the record array when the frame is
        empty and the frame otherwise; only the banner's first line for an unknown mode.
        A key-only table is always written from its record array. */
    lemma WriteBlockLines(cat: Catalogue)
      ensures var r := WriteBlock(cat);
              && (r.1.Fail? ==> r.0 == ["*"])
              && (r.1.Pass? ==> |r.0| >= 3 && r.0[..3] == BlockBanner(name, mode).value)
              && (r.1.Pass? ==> r.0[3..] == if FrameEmpty() then WriteTable() else WriteDf(cat))
              && (r.1.Pass? && frameCols == [] ==> r.0[3..] == WriteTable())
    {
    }
  }

  /** One line of `write_df`: the key values, then each frame column's cell ('' where the row has none). */
  function DfLine(cat: Catalogue, tableName: string, cols: seq<string>, e: Entry): string
  {
    Join(FormatAll(e.key)
           + seq(|cols|, i requires 0 <= i < |cols| =>
               if cols[i] in e.cells then CellText(e.cells[cols[i]], IsBool(cat, tableName, cols[i]))
               else ""),
         ";")
  }

  /** Entries whose key is not among `keys` (duplicates within the batch are all kept). */
  function FreshEntries(entries: seq<Entry>, keys: seq<seq<Value>>): (r: seq<Entry>)
    ensures forall i :: 0 <= i < |r| ==> r[i] in entries && r[i].key !in keys
    ensures forall e :: e in entries && e.key !in keys ==> e in r
  {
    if |entries| == 0 then []
    else if entries[0].key in keys then FreshEntries(entries[1..], keys)
    else [entries[0]] + FreshEntries(entries[1..], keys)
  }

  /** Appending one entry keeps the keys distinct exactly when its key is new. */
  lemma AppendOneDistinct(frame: seq<Entry>, e: Entry)
    requires DistinctKeys(frame)
    ensures DistinctKeys(frame + [e]) <==> e.key !in KeysOf(frame)
  {
    if e.key in KeysOf(frame) {
      var i :| 0 <= i < |frame| && KeysOf(frame)[i] == e.key;
      assert (frame + [e])[i].key == (frame + [e])[|frame|].key;
    }
  }

  /** The columns `add_rows` gives the frame are the non-key columns, so a frame
      built by `add_rows` never has a key column among its columns ... */
  lemma AddedColumnsKeyFree(frameCols: seq<string>, cols: seq<string>, pkey: seq<string>)
    requires forall c :: c in frameCols ==> c !in pkey
    ensures forall c :: c in UnionCols(frameCols, NonKey(cols, pkey)) ==> c !in pkey
  {
  }

  /** ... and `update_original_df` on such a frame fails with KeyError for the first
      key column. */
  lemma KeyFreeRefusesUpdate(frameCols: seq<string>, pkey: seq<string>)
    requires |pkey| >= 1
    requires forall c :: c in frameCols ==> c !in pkey
    ensures KeyPositions(frameCols, pkey) == Err(KeyError(pkey[0]))
  {
    assert pkey[0] !in frameCols;
  }
}
