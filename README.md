# visumtransfer core in Dafny

This project models the core of `visumtransfer`, a Python library that writes and reads
PTV Visum transfer files. A transfer file (`*.tra`, "Modifikationsdatei") is a sequence of
table blocks. Each block has a `*` banner, a `$<mode><CODE>:<columns>` header and `;`-separated
data lines.

The model covers these parts:

- **Table engine (`Tables`, `Schema`, `Text`).** A `VisumTable` has its column list, key and
  per-column defaults.
  - Row field names are the lower-cased column names, translated with the ten-character
    umlaut table.
  - It keeps two views of its rows. The record array `table` is reassigned before the
    duplicate check. The keyed frame `frame` only changes when the check passes.
  - `add_rows` rejects duplicate primary keys with pandas' ValueError. `add_cols` extends the
    column list. A block is written as banner, header, rows and a blank line.
  - The metaclass registry is an explicit map.
- **The transfer document (`Transfer`).**
  - An ordered name-to-table dictionary in which the last `add_table` wins.
  - `write` and `append`. `append` leaves out the VERSION block.
  - The fixed-width `M000042.tra` modification file names, and `get_tables`.
  - The boundary scan of `read_from_modification`:
    - the `$VISION` check;
    - the header grammar, giving mode, upper-cased code and columns;
    - `CODE_1`, `CODE_2`, … for repeated codes;
    - the `[start, end)` byte range of every section, which tile the file.
- **The matrix-number allocator (`Matrices`).**
  - `MatrixCategories` sorts the categories by the end of their block. This gives contiguous
    half-open ranges from 1 and a `_fallback` range `[10000, 9999999)`.
  - `Matrix.next_number` draws from the current category and falls back to `_fallback` when
    the category is exhausted. A number is never handed out twice.
  - `add_daten_matrix` and `add_formel_matrix` add one row keyed by that fresh number.
- **Activities (`Demand`).** `get_hierarchy` ranks the activities by (home flag, rank, code).
  `get_main_activity` takes the first element of minimal rank in a chain. Also modelled:
  - the composite-activity sets of `set_activityset`;
  - `all_non_composite_activites`;
  - `Aktivitaet.create_tables`;
  - `Aktivitaetenpaar.create_tables`.
- **Person groups (`PersonGroups`).**
  - The category cross join of `get_groups_destmode`.
  - The destination/mode grouping loop of `create_groups_destmode`. The first chain of a
    `group_mainact` code creates the group; later chains are appended to `gd_codes`.
  - `create_df_from_group_list`.
- **Demand strata (`DemandStrata`).** `Nachfrageschicht.create_tables_gd`: one `group:chain` stratum
  per chain of every group of the chosen category, added in one batch.
- **User-defined tables (`UserTables`).** This is `create_userdefined_table`:
  - the generated table class, with its columns, code, name and defaults;
  - the one `Tabellendefinition` row;
  - one user-defined attribute per declared column, with `datenquellentyp` popped from
    formula columns.

Nothing here is executed; the properties are proved by the Dafny verifier.

Where the source computes with recursion and expressions the model uses functions and lemmas.
Where it changes state (`add_rows`, the read scan, the allocator cursors, `gd_codes`, the
attribute log) the model is a `class` whose `method`s are proved against those functions.

The class `Personengruppe` is defined twice: `visum_tables/demand.py:21-88` and
`visum_tables/persongroups.py:11-112`. Both register under the same code, so the registry
keeps whichever module is imported last. The second definition adds `get_groups_destmode`
and drops the `isinstance` assertion; otherwise the two agree. The model follows
`persongroups.py`.

`Matrix.__init__` (`visum_tables/matrizen.py:75`) takes no `mode` argument, but the read scan
builds every section's table with `mode=` (`visum_table.py:500`). Reading a modification file
that holds a `$+MATRIX` section therefore raises TypeError, and the model does the same: a
registered class records whether its constructor accepts `mode` (Schema.Opens).

`Aktivitaetenpaar` files its default 3 under `QUELLZIELTYP`, which is not a column (the
column is `QUELLEZIELTYP`). The model keeps that behaviour: the column is always `''`.

## Model

| member | source | states |
|---|---|---|
| Text.Split | visumtransfer/src/visumtransfer/visum_table.py:163 | `str.split` on one character yields at least one part, no part holds the separator, and a string without it is its own only part |
| Text.JoinSplit | visumtransfer/src/visumtransfer/visum_table.py:313-316 | joining the parts of a split with the same separator gives the string back |
| Text.SplitJoin | visumtransfer/src/visumtransfer/visum_table.py:313-316 | splitting a join of separator-free parts gives the parts back |
| Text.SplitPrefix | visumtransfer/src/visumtransfer/visum_table.py:486 | a separator-free prefix becomes the first part of the split |
| Text.SplitJoinLength | visumtransfer/src/visumtransfer/visum_table.py:313-316 | the split of a join has as many parts as were joined |
| Text.JoinHasSep | visumtransfer/src/visumtransfer/visum_table.py:315 | a join of two or more parts contains the separator |
| Text.JoinChars | visumtransfer/src/visumtransfer/visum_table.py:315 | a character in neither the parts nor the separator is not in the join |
| Text.LowerNoCapitals | visumtransfer/src/visumtransfer/visum_table.py:156 | a lower-cased string holds no capital Latin letter |
| Text.UpperNoSmall | visumtransfer/src/visumtransfer/visum_table.py:158 | an upper-cased string holds no small Latin letter |
| Text.TranslateCharClean | visumtransfer/src/visumtransfer/visum_table.py:73-74 | no character is translated into one of `-()äöüÄÖÜß` |
| Text.TranslateClean | visumtransfer/src/visumtransfer/visum_table.py:94 | a translated string holds none of `-()äöüÄÖÜß` |
| Text.TranslateTable | visumtransfer/src/visumtransfer/visum_table.py:73-74 | the k-th character of `_intab` becomes the k-th of `_outtab` |
| Text.StripLeft | visumtransfer/src/visumtransfer/visum_table.py:473 | the left strip no longer starts with a stripped character |
| Text.StripRight | visumtransfer/src/visumtransfer/visum_table.py:473 | the right strip no longer ends with a stripped character and keeps the first one |
| Text.StripChars | visumtransfer/src/visumtransfer/visum_tables/persongroups.py:54 | `strip(chars)` neither starts nor ends with one of the characters and is no longer than the input |
| Text.StripNoop | visumtransfer/src/visumtransfer/visum_table.py:479 | stripping a string that neither starts nor ends with a stripped character leaves it alone |
| Text.NatToString | visumtransfer/src/visumtransfer/visum_table.py:459 | `str(n)` is a non-empty digit string without a leading zero |
| Text.ParseNatToString | visumtransfer/src/visumtransfer/visum_table.py:459 | reading `str(n)` back gives n |
| Text.ParseLeadingZeros | visumtransfer/src/visumtransfer/visum_table.py:459 | leading zeros do not change the value of a digit string |
| Text.ParseZeros | visumtransfer/src/visumtransfer/visum_table.py:459 | a string of zeros has the value 0 |
| Text.PadZeros | visumtransfer/src/visumtransfer/visum_table.py:459 | zero padding gives at least the width and does not cut longer strings |
| Text.Format06dRoundTrip | visumtransfer/src/visumtransfer/visum_table.py:459 | `{n:06d}` below a million is six digits that read back as n |
| Text.NatToStringLength | visumtransfer/src/visumtransfer/visum_table.py:459 | the number of decimal digits of n by its magnitude |
| Schema.ModeTagsAreModes | visumtransfer/src/visumtransfer/visum_table.py:488 | a header character is a mode tag exactly when it is a key of `_modes` |
| Schema.TaggedMode | visumtransfer/src/visumtransfer/visum_table.py:62-67 | every mode other than `''` is one tag character |
| Schema.ColsOf | visumtransfer/src/visumtransfer/visum_table.py:161-163 | `cols` has at least one column and no column holds `;` or a backslash |
| Schema.PartsOfSplit | visumtransfer/src/visumtransfer/visum_table.py:163 | a character absent from `_cols` is absent from every column |
| Schema.ColsOfJoin | visumtransfer/src/visumtransfer/visum_table.py:313-316 | writing plain columns into `_cols` and reading `cols` gives the same list |
| Schema.PkeyOf | visumtransfer/src/visumtransfer/visum_table.py:165-170 | the key is the first column when `_pkey` is empty, else the parts of `_pkey`, which join back to it |
| Schema.FieldOf | visumtransfer/src/visumtransfer/visum_table.py:156 | a column of capitals and underscores has its lower-case spelling as field |
| Schema.UpperOfCapitals | visumtransfer/src/visumtransfer/visum_table.py:158 | `upper()` leaves a capital column unchanged |
| Schema.DefaultOfCapitals | visumtransfer/src/visumtransfer/visum_table.py:158-159 | the default of a capital column is its `_defaults` entry, else `''` |
| Schema.PlainConcat | visumtransfer/src/visumtransfer/visum_table.py:315 | concatenated plain column lists are plain |
| Schema.MakeRowIs | visumtransfer/src/visumtransfer/visum_table.py:150-159 | a row with the cells of `Row(**kw)` is that row |
| Schema.MakeRowOfFour | visumtransfer/src/visumtransfer/visum_table.py:150-159 | `Row(**kw)` of four columns from its four cells |
| Schema.MakeRowOfSix | visumtransfer/src/visumtransfer/visum_table.py:150-159 | `Row(**kw)` of six columns from its six cells |
| Schema.GivenCell | visumtransfer/src/visumtransfer/visum_table.py:155-159 | a column whose field is given takes the value given |
| Schema.MakeRowGet | visumtransfer/src/visumtransfer/tests/test_transfer.py:95-97 | reading a field of a fresh row gives the keyword value, else the column default |
| Schema.MakeRowGetTail | visumtransfer/src/visumtransfer/visum_table.py:155-157 | the attribute of a field is the cell of the first column with that field |
| Schema.IndexOf | visumtransfer/src/visumtransfer/visum_table.py:277 | the first position of a column, or none when it is absent |
| Schema.KeyPositions | visumtransfer/src/visumtransfer/visum_table.py:277 | `set_index(pkey)` finds every key column, or fails with KeyError naming a missing one |
| Schema.FirstColumnKey | visumtransfer/src/visumtransfer/visum_table.py:165-169 | the implicit key sits at position 0 |
| Schema.HeaderRoundTrip | visumtransfer/src/visumtransfer/visum_table.py:252 | a header the writer produces reads back as its mode, upper-cased code and columns |
| Schema.HeaderColonCount | visumtransfer/src/visumtransfer/visum_table.py:486 | a header without `:` or with a second `:` does not unpack into section and columns: ValueError |
| Schema.HeaderWithoutCode | visumtransfer/src/visumtransfer/visum_table.py:488 | `$:` has no character after `$`, so `full_section[1]` raises IndexError |
| Schema.RowLineFields | visumtransfer/src/visumtransfer/visum_table.py:253-262 | a data line splits back into one field per value |
| Schema.TableName | visumtransfer/src/visumtransfer/visum_table.py:220-229 | `tablename` is the catalogue entry of the display name, or KeyError |
| Schema.IsBoolIff | visumtransfer/src/visumtransfer/visum_table.py:231-239 | an unknown table (its `tablename` KeyError) or an unknown column (the `attrs.loc` KeyError) reads as false, and otherwise `is_bool` is true exactly when the value type is `bool` |
| Schema.AttributeKeyUpper | visumtransfer/src/visumtransfer/visum_attributes.py:68-76 | every catalogue column key is free of small letters, and when a short name is present the AttributeID does not matter |
| Schema.Register | visumtransfer/src/visumtransfer/visum_table.py:47-53 | registering stores the class under its code, overwrites that code only, and keeps every class under its own code |
| Tables.NonKey | visumtransfer/src/visumtransfer/visum_table.py:277 | the frame columns are the columns outside the key |
| Tables.UnionCols | visumtransfer/src/visumtransfer/visum_table.py:302 | `append` keeps the old columns in front and adds the new ones |
| Tables.EntryOf | visumtransfer/src/visumtransfer/visum_table.py:276-278 | a row becomes a frame entry keyed by its key cells, with one cell per non-key column |
| Tables.VisumTable.Cols | visumtransfer/src/visumtransfer/visum_table.py:161-163 | `cols` is never empty |
| Tables.VisumTable.Pkey | visumtransfer/src/visumtransfer/visum_table.py:165-170 | `pkey` is never empty |
| Tables.VisumTable.constructor | visumtransfer/src/visumtransfer/visum_table.py:77-97 | a new table takes the class attributes, the mode argument if given, and starts empty |
| Tables.VisumTable.AddRows | visumtransfer/src/visumtransfer/visum_table.py:291-302 | IndexError for an empty batch on an empty record array; otherwise the record array takes the batch, and the frame takes it exactly when rows fit, the key exists and no key repeats, else it stays as it was with the matching error |
| Tables.VisumTable.AddRow | visumtransfer/src/visumtransfer/visum_table.py:288-289 | `add_row` succeeds exactly when the row's key is new, and appends one entry |
| Tables.VisumTable.AddCols | visumtransfer/src/visumtransfer/visum_table.py:313-316 | the new columns come after the old ones; stored rows are untouched |
| Tables.VisumTable.UpdateOriginalDf | visumtransfer/src/visumtransfer/visum_table.py:324-341 | KeyError for the first key column the frame lacks, with nothing changed; otherwise the update frame gains the given entries whose key it does not hold yet |
| Tables.VisumTable.WriteTable | visumtransfer/src/visumtransfer/visum_table.py:241-263 | header, one line per record, blank line |
| Tables.VisumTable.WriteDf | visumtransfer/src/visumtransfer/visum_table.py:189-218 | header with the frame's columns, one line per frame row, blank line |
| Tables.VisumTable.WriteBlock | visumtransfer/src/visumtransfer/visum_table.py:172-187 | a block is written exactly when the mode is a `_modes` key; its rows come from the record array when the frame is empty (no rows or no columns), else from the frame |
| Tables.VisumTable.WriteBlockLines | visumtransfer/src/visumtransfer/visum_table.py:172-187 | the banner, then the record array when the frame has no rows or no columns and the frame otherwise; a key-only table writes its record array |
| Tables.FreshEntries | visumtransfer/src/visumtransfer/visum_table.py:339 | exactly the entries whose key is not among the given keys |
| Tables.AddedColumnsKeyFree | visumtransfer/src/visumtransfer/visum_table.py:300-302 | a frame built by `add_rows` never has a key column, however many batches it took |
| Tables.KeyFreeRefusesUpdate | visumtransfer/src/visumtransfer/visum_table.py:335 | on a frame without key columns `set_index(pkey)` raises KeyError for the first key column |
| Tables.AppendOneDistinct | visumtransfer/src/visumtransfer/visum_table.py:302 | `verify_integrity` accepts one more entry exactly when its key is new |
| Transfer.VersionColumns | visumtransfer/src/visumtransfer/visum_table.py:350 | the version block has the columns VERSNR, FILETYPE, LANGUAGE, UNIT |
| Transfer.VersionFields | visumtransfer/src/visumtransfer/visum_table.py:350 | their row fields are versnr, filetype, language, unit |
| Transfer.DefaultVersnr | visumtransfer/src/visumtransfer/visum_table.py:352 | VERSNR defaults to 10.0 |
| Transfer.DefaultFiletype | visumtransfer/src/visumtransfer/visum_table.py:354 | FILETYPE defaults to Demand |
| Transfer.DefaultLanguage | visumtransfer/src/visumtransfer/visum_table.py:353 | LANGUAGE defaults to DEU |
| Transfer.DefaultUnit | visumtransfer/src/visumtransfer/visum_table.py:355 | UNIT defaults to KM |
| Transfer.VersionRow | visumtransfer/src/visumtransfer/visum_table.py:359-367 | `Row()` and `Row(filetype=...)` give the defaults with the given file type |
| Transfer.VersionKey | visumtransfer/src/visumtransfer/visum_table.py:347-350 | the version block is keyed by VERSNR at position 0 |
| Transfer.VersionTableKey | visumtransfer/src/visumtransfer/visum_table.py:347-350 | every version table is keyed by VERSNR, found at position 0 |
| Transfer.VersionRowOk | visumtransfer/src/visumtransfer/visum_table.py:364-367 | the header keywords `filetype=...` always make a valid row |
| Transfer.VersionCellVersnr | visumtransfer/src/visumtransfer/visum_table.py:352 | the VERSNR cell of a header row is 10.0 |
| Transfer.VersionNewRow | visumtransfer/src/visumtransfer/visum_table.py:364-367 | a version table's header row and its key 10.0 |
| Transfer.AddFileHeader | visumtransfer/src/visumtransfer/visum_table.py:359-367 | `add_netfile_header`/`add_transfile_header` append `[10.0, Demand or Trans, DEU, KM]` to the record array; exactly when no header row is there yet it enters the keyed frame under 10.0, otherwise the frame is unchanged and the error is `verify_integrity`'s ValueError |
| Transfer.Banner | visumtransfer/src/visumtransfer/visum_table.py:440-444 | `write` starts with five lines, the first `$VISION` |
| Transfer.Collect | visumtransfer/src/visumtransfer/visum_table.py:445-446 | writing a run of blocks fails exactly when some block fails, with that block's error |
| Transfer.CollectConcat | visumtransfer/src/visumtransfer/visum_table.py:445-446 | the lines of two runs of written blocks are the lines of each, in order |
| Transfer.EmittedPass | visumtransfer/src/visumtransfer/visum_table.py:451-455 | every emitted block is written exactly when every table not skipped has a known mode |
| Transfer.Blocks | visumtransfer/src/visumtransfer/visum_table.py:445-446 | the blocks pass exactly when every table not skipped has a known mode |
| Transfer.Emitted | visumtransfer/src/visumtransfer/visum_table.py:445-446 | at most one block per table |
| Transfer.EmittedConcat | visumtransfer/src/visumtransfer/visum_table.py:451-455 | the emitted blocks of two table lists are those of each |
| Transfer.BlocksConcat | visumtransfer/src/visumtransfer/visum_table.py:445-446 | the blocks of `a + b` are those of `a` followed by those of `b` |
| Transfer.WithoutVersion | visumtransfer/src/visumtransfer/visum_table.py:451-454 | only non-VERSION tables of the input, and every one of them; the order is kept, see WithoutVersionConcat |
| Transfer.WithoutVersionConcat | visumtransfer/src/visumtransfer/visum_table.py:451-454 | dropping VERSION distributes over concatenation, so the kept tables stay in their order |
| Transfer.WithoutVersionOne | visumtransfer/src/visumtransfer/visum_table.py:452-454 | a single table is kept exactly when its code is not VERSION |
| Transfer.BlocksSkipVersion | visumtransfer/src/visumtransfer/visum_table.py:448-455 | `append` writes what writing the tables without VERSION writes |
| Transfer.PathJoin | visumtransfer/src/visumtransfer/visum_table.py:460 | `os.path.join` ends with the name and starts with the folder, with one `/` between them when needed |
| Transfer.ModificationFileNumber | visumtransfer/src/visumtransfer/visum_table.py:457-461 | the file name ends in `M`, six digits that read back as the number, and `.tra` |
| Transfer.EmptyModeInEveryString | visumtransfer/src/visumtransfer/visum_table.py:422 | with a string of modes, mode `''` is always selected |
| Transfer.TagInString | visumtransfer/src/visumtransfer/visum_table.py:422 | with a string of modes, a tag is selected exactly when it occurs in it |
| Transfer.OffsetMonotone | visumtransfer/src/visumtransfer/visum_table.py:483 | byte offsets grow with the line number |
| Transfer.Headers | visumtransfer/src/visumtransfer/visum_table.py:478-482 | only header lines are listed, inside the given range |
| Transfer.HeadersSorted | visumtransfer/src/visumtransfer/visum_table.py:478-482 | header lines are met in increasing order |
| Transfer.HeadersComplete | visumtransfer/src/visumtransfer/visum_table.py:478-482 | every header line is met |
| Transfer.SectionsTile | visumtransfer/src/visumtransfer/visum_table.py:482-511 | each section starts after its header line and ends where the next header line begins, or at the end of the file |
| Transfer.SuffixedInjective | visumtransfer/src/visumtransfer/visum_table.py:498 | different numbers give different `CODE_i` names |
| Transfer.FreeNameEmpty | visumtransfer/src/visumtransfer/visum_table.py:495-499 | only the empty code is stored under the empty name |
| Transfer.TriedHas | visumtransfer/src/visumtransfer/visum_table.py:495-499 | after n rounds the code and `CODE_1` … `CODE_n` have been tried |
| Transfer.NotTried | visumtransfer/src/visumtransfer/visum_table.py:495-499 | a larger suffix has not been tried yet |
| Transfer.TriedGrows | visumtransfer/src/visumtransfer/visum_table.py:495-499 | every round tries one more taken name, so the loop ends |
| Transfer.SectionName | visumtransfer/src/visumtransfer/visum_table.py:495-499 | the name is the code if free, else `CODE_i` with the smallest free i ≥ 1 |
| Transfer.CloseLast | visumtransfer/src/visumtransfer/visum_table.py:485 | `_endpos` is set on the current table only |
| Transfer.Closed | visumtransfer/src/visumtransfer/visum_table.py:511 | closing the last section keeps every section found |
| Transfer.FoundStep | visumtransfer/src/visumtransfer/visum_table.py:486-506 | a header line adds its section, named against the names taken so far |
| Transfer.EndsStep | visumtransfer/src/visumtransfer/visum_table.py:483-485 | the section before a header line ends where that line begins |
| Transfer.HeaderFails | visumtransfer/src/visumtransfer/visum_table.py:486-500 | a header that does not parse, names an unknown code or names a class whose `__init__` takes no `mode` rules the file out |
| Transfer.FoundParses | visumtransfer/src/visumtransfer/visum_table.py:478-506 | sections found at every header line mean the file parses |
| Transfer.Bump | visumtransfer/src/visumtransfer/visum_table.py:485 | setting `_endpos` keeps the names |
| Transfer.CloseStep | visumtransfer/src/visumtransfer/visum_table.py:484-485 | a header line closes the last section, or the table current before the scan |
| Transfer.BumpOne | visumtransfer/src/visumtransfer/visum_table.py:485 | `_endpos` on a table held by one name changes only that name |
| Transfer.BumpFirst | visumtransfer/src/visumtransfer/visum_table.py:484-485 | the first boundary closes a table left current by an earlier read |
| Transfer.CloseOn | visumtransfer/src/visumtransfer/visum_table.py:484-485 | the boundary after the last section closes it |
| Transfer.CloseKept | visumtransfer/src/visumtransfer/visum_table.py:484-485 | closing keeps the tables there were before the scan |
| Transfer.CloseOpened | visumtransfer/src/visumtransfer/visum_table.py:484-485 | closing gives the last section its end and leaves the others |
| Transfer.AddStep | visumtransfer/src/visumtransfer/visum_table.py:500-506 | a new section's table is stored under its free name and becomes current |
| Transfer.AddKept | visumtransfer/src/visumtransfer/visum_table.py:506 | storing a new section keeps the tables there were |
| Transfer.AddSections | visumtransfer/src/visumtransfer/visum_table.py:500-506 | the new table has the view of its section |
| Transfer.ScanEnds | visumtransfer/src/visumtransfer/visum_table.py:510-511 | at the end of the file every section ends at its boundary |
| Transfer.ScanStart | visumtransfer/src/visumtransfer/visum_table.py:471-477 | before the loop nothing is found and nothing has changed |
| Transfer.CloseHeader | visumtransfer/src/visumtransfer/visum_table.py:482-485 | a header line closes the current table at the line's first byte |
| Transfer.AddHeader | visumtransfer/src/visumtransfer/visum_table.py:486-506 | the section of a header line is stored under its free name with a new table |
| Transfer.SkipLine | visumtransfer/src/visumtransfer/visum_table.py:479-481 | blank, `*` and data lines change nothing |
| Transfer.CloseEnd | visumtransfer/src/visumtransfer/visum_table.py:510-511 | the end of the file closes the current table, which gives the result of the scan |
| Transfer.CurrentAtEnd | visumtransfer/src/visumtransfer/visum_table.py:510-511 | there is a table to close at the end exactly when a header was met or one was current before |
| Transfer.NothingClosed | visumtransfer/src/visumtransfer/visum_table.py:510-511 | a scan that met no header leaves everything as it was |
| Transfer.UniqueDistinct | visumtransfer/src/visumtransfer/visum_table.py:379 | the names of the ordered dictionary are pairwise distinct |
| Transfer.VisumTransfer.constructor | visumtransfer/src/visumtransfer/visum_table.py:373-381 | a new document has its user and date and no tables |
| Transfer.VisumTransfer.AddTable | visumtransfer/src/visumtransfer/visum_table.py:396-402 | the table is stored under `name or table.code`; a new name is appended, a present one keeps its place and is overwritten |
| Transfer.VisumTransfer.Write | visumtransfer/src/visumtransfer/visum_table.py:437-446 | the banner, then every block in insertion order; it fails exactly when some table has an unknown mode |
| Transfer.VisumTransfer.Append | visumtransfer/src/visumtransfer/visum_table.py:448-455 | every block in insertion order except the VERSION ones |
| Transfer.VisumTransfer.GetTables | visumtransfer/src/visumtransfer/visum_table.py:415-423 | exactly the tables of the code whose mode is in `modes`; their order is GetTablesOrder |
| Transfer.VisumTransfer.GetTablesOrder | visumtransfer/src/visumtransfer/visum_table.py:420-422 | the selected names, in the document's order, are exactly the keys of GetTables |
| Transfer.VisumTransfer.Views | visumtransfer/src/visumtransfer/visum_table.py:513-525 | one view per stored name |
| Transfer.VisumTransfer.CloseCurrentTable | visumtransfer/src/visumtransfer/visum_table.py:484-485 | `_endpos` of the current table, if any, is set; nothing else changes |
| Transfer.VisumTransfer.SectionTable | visumtransfer/src/visumtransfer/visum_table.py:500-505 | once the class is known to open, a fresh table of it with the header's mode, columns split and re-joined on `;`, and its start |
| Transfer.VisumTransfer.FindSection | visumtransfer/src/visumtransfer/visum_table.py:486-500 | the header's error, KeyError for an unknown code, TypeError for a class whose `__init__` takes no `mode` (Matrix), or the section with its free name |
| Transfer.VisumTransfer.OpenSection | visumtransfer/src/visumtransfer/visum_table.py:486-506 | TypeError for a MATRIX section, as for any class without a `mode` keyword; on success the new table is current and stored under the free name; on failure nothing changes |
| Transfer.VisumTransfer.CheckPositions | visumtransfer/src/visumtransfer/visum_table.py:513-516 | the parse loop fails with AttributeError at the first table without a byte range |
| Transfer.VisumTransfer.ScanLine | visumtransfer/src/visumtransfer/visum_table.py:478-508 | one line of the scan keeps the scan state |
| Transfer.VisumTransfer.ScanLines | visumtransfer/src/visumtransfer/visum_table.py:478-508 | the loop over the lines after the first reaches the end state or stops at the first bad header |
| Transfer.VisumTransfer.CloseScan | visumtransfer/src/visumtransfer/visum_table.py:510-511 | the end of the file closes the current table; without one the scan fails |
| Transfer.VisumTransfer.ReadFromModification | visumtransfer/src/visumtransfer/visum_table.py:467-511 | ValueError unless the first line is `$VISION`; success exactly when every header parses and opens a class that takes `mode` (so never with a MATRIX section), some table is current at the end and every table has its range; then the scanned tables are stored |
| Matrices.AdjacentSorted | visumtransfer/src/visumtransfer/visum_tables/matrizen.py:47-48 | neighbours in order make the list ordered by end |
| Matrices.InsertByEnd | visumtransfer/src/visumtransfer/visum_tables/matrizen.py:47-48 | inserting keeps the order by end and the elements |
| Matrices.InsertedBelow | visumtransfer/src/visumtransfer/visum_tables/matrizen.py:47-48 | an insertion below the last element stays below it |
| Matrices.SortByEnd | visumtransfer/src/visumtransfer/visum_tables/matrizen.py:47-48 | `sorted(..., key=end)` is ordered by end and a permutation |
| Matrices.SortSortedIdentity | visumtransfer/src/visumtransfer/visum_tables/matrizen.py:47-48 | the stable sort leaves an ordered list alone |
| Matrices.SortedFront | visumtransfer/src/visumtransfer/visum_tables/matrizen.py:47-48 | a prefix of an ordered list is ordered |
| Matrices.AppendInOrder | visumtransfer/src/visumtransfer/visum_tables/matrizen.py:47-48 | inserting the last element puts it back at the end |
| Matrices.SortByEndLast | visumtransfer/src/visumtransfer/visum_tables/matrizen.py:47-48 | the sort inserts the last element into the sorted rest |
| Matrices.Ranges | visumtransfer/src/visumtransfer/visum_tables/matrizen.py:46-51 | each category gets `[previous end, own end)`, the first from the start |
| Matrices.EndBlockSorted | visumtransfer/src/visumtransfer/visum_tables/matrizen.py:13-43 | the category table lists its ends in increasing order |
| Matrices.EndBlockDistinct | visumtransfer/src/visumtransfer/visum_tables/matrizen.py:13-43 | the category names are distinct and none is `_fallback` |
| Matrices.PermutedNames | visumtransfer/src/visumtransfer/visum_tables/matrizen.py:47-48 | sorting keeps the set of names |
| Matrices.PermutedDistinct | visumtransfer/src/visumtransfer/visum_tables/matrizen.py:47-48 | sorting keeps the names distinct |
| Matrices.AssignedAt | visumtransfer/src/visumtransfer/visum_tables/matrizen.py:46-51 | an assigned category's range is `[1 or previous end, own end)` |
| Matrices.AssignedBelow | visumtransfer/src/visumtransfer/visum_tables/matrizen.py:46-52 | every category range ends before `_fallback` starts |
| Matrices.AssignedApart | visumtransfer/src/visumtransfer/visum_tables/matrizen.py:45-52 | the category ranges are pairwise disjoint |
| Matrices.DrawStep | visumtransfer/src/visumtransfer/visum_tables/matrizen.py:87-93 | the cursor's number was never handed out, and moving the cursor keeps every invariant |
| Matrices.FallbackApart | visumtransfer/src/visumtransfer/visum_tables/matrizen.py:52 | `_fallback` is disjoint from every category range |
| Matrices.AssignStep | visumtransfer/src/visumtransfer/visum_tables/matrizen.py:47-51 | one round of the constructor's loop assigns the next category |
| Matrices.AssignDone | visumtransfer/src/visumtransfer/visum_tables/matrizen.py:47-51 | after the loop every category has its range |
| Matrices.AssignRanges | visumtransfer/src/visumtransfer/visum_tables/matrizen.py:46-51 | the loop assigns every sorted category its range |
| Matrices.Allot | visumtransfer/src/visumtransfer/visum_tables/matrizen.py:45-52 | the constructor's ranges, pairwise disjoint, with `_fallback` after the last boundary |
| Matrices.MatrixCategories.constructor | visumtransfer/src/visumtransfer/visum_tables/matrizen.py:45-52 | every cursor at the start of its range, nothing handed out |
| Matrices.MatrixCategories.Draw | visumtransfer/src/visumtransfer/visum_tables/matrizen.py:49 | `next` on a range iterator: KeyError for an unknown category, StopIteration when exhausted, else the cursor, which was never handed out |
| Matrices.MatrixColumns | visumtransfer/src/visumtransfer/visum_tables/matrizen.py:60-65 | the matrix table has its 29 columns |
| Matrices.MatrixFields | visumtransfer/src/visumtransfer/visum_tables/matrizen.py:60-65 | the fields the add methods set sit at NR 0, CODE 1, NAME 2, DATNAME 7, DATENQUELLENTYP 9, FORMEL 10, LOADMATRIX 24, MATRIXFOLDER 25, CATEGORY 28 |
| Matrices.OverridesNumber | visumtransfer/src/visumtransfer/visum_tables/matrizen.py:131 | both add methods pass the number as `nr` |
| Matrices.FixedCell | visumtransfer/src/visumtransfer/visum_tables/matrizen.py:131-139 | an explicit keyword ends up in its column |
| Matrices.DatenRow | visumtransfer/src/visumtransfer/visum_tables/matrizen.py:128-139 | a data matrix row holds NR, CODE, `name or code`, `datname or code`, DATEN, LOADMATRIX, MATRIXFOLDER and `category or matrix_category` |
| Matrices.FormelRow | visumtransfer/src/visumtransfer/visum_tables/matrizen.py:175-186 | a formula matrix row holds NR, CODE, FORMEL, the same defaulting, FORMEL as source type and LOADMATRIX 0 |
| Matrices.SortedAssigned | visumtransfer/src/visumtransfer/visum_tables/matrizen.py:46-52 | for an already ordered table category i gets `[1 or end of i-1, end of i)` |
| Matrices.SortedCategories | visumtransfer/src/visumtransfer/visum_tables/matrizen.py:45-52 | the allocator of an ordered table is valid and untouched, holds exactly the table's categories and `_fallback`, and gives each its range |
| Matrices.MatrixSectionRefused | visumtransfer/src/visumtransfer/visum_tables/matrizen.py:75 | the registered Matrix class is not opened by the read scan, because its `__init__` takes no `mode` |
| Matrices.Matrix.constructor | visumtransfer/src/visumtransfer/visum_tables/matrizen.py:75-77 | an empty matrix table, category `''`, nothing handed out, and the allocator's categories are exactly the table's and `_fallback` |
| Matrices.FirstDrawUnset | visumtransfer/src/visumtransfer/visum_tables/matrizen.py:75-93 | `next_number` on a new `Matrix` before `set_category` raises KeyError for `''` |
| Matrices.Matrix.SetCategory | visumtransfer/src/visumtransfer/visum_tables/matrizen.py:79-81 | only the category changes |
| Matrices.Matrix.MatrixNumbers | visumtransfer/src/visumtransfer/visum_tables/matrizen.py:83-85 | the current category's iterator, or KeyError |
| Matrices.Matrix.Upcoming | visumtransfer/src/visumtransfer/visum_tables/matrizen.py:87-93 | the next number is a cursor value; an unknown category is a KeyError |
| Matrices.Matrix.NextNumber | visumtransfer/src/visumtransfer/visum_tables/matrizen.py:87-93 | the cursor of the category while it lasts, then the `_fallback` cursor; the number is new and recorded, and exactly the drawn cursor advances |
| Matrices.Matrix.UpcomingFresh | visumtransfer/src/visumtransfer/visum_tables/matrizen.py:87-93 | the next number was never handed out |
| Matrices.Matrix.FreshKey | visumtransfer/src/visumtransfer/visum_tables/matrizen.py:130-140 | a number not yet handed out is not a key of the matrix table |
| Matrices.Matrix.NumberKey | visumtransfer/src/visumtransfer/visum_tables/matrizen.py:60 | NR is the key |
| Matrices.Matrix.AddNumbered | visumtransfer/src/visumtransfer/visum_tables/matrizen.py:140 | `add_row` of a freshly numbered row adds exactly that row |
| Matrices.Matrix.AddMatrixRow | visumtransfer/src/visumtransfer/visum_tables/matrizen.py:131-141 | one row from the keywords, a TypeError for repeated or unknown keywords, and the number returned |
| Matrices.Matrix.AddDatenMatrix | visumtransfer/src/visumtransfer/visum_tables/matrizen.py:95-141 | succeeds exactly when a number can be drawn and `Row(**kw)` accepts the keywords; the error is the draw's KeyError or StopIteration or a keyword TypeError, never a duplicate key; on success exactly one data-matrix row is added under the drawn number, which is returned; the drawn cursor advances whether the row is built or not |
| Matrices.Matrix.AddFormelMatrix | visumtransfer/src/visumtransfer/visum_tables/matrizen.py:143-188 | the same success condition, error kinds and cursor step for a formula matrix row |
| Demand.StrLessIrreflexive | visumtransfer/src/visumtransfer/visum_tables/demand.py:287 | no code sorts before itself |
| Demand.StrLessTransitive | visumtransfer/src/visumtransfer/visum_tables/demand.py:287 | the order of codes is transitive |
| Demand.StrLessTotal | visumtransfer/src/visumtransfer/visum_tables/demand.py:287 | two different codes are ordered |
| Demand.PrecedesIrreflexive | visumtransfer/src/visumtransfer/visum_tables/demand.py:286-287 | no row precedes itself in (ISTHEIMATAKTIVITAET, RANG, CODE) order |
| Demand.PrecedesTransitive | visumtransfer/src/visumtransfer/visum_tables/demand.py:286-287 | the sort order is transitive |
| Demand.PrecedesTotal | visumtransfer/src/visumtransfer/visum_tables/demand.py:286-287 | rows with different codes are ordered |
| Demand.Insert | visumtransfer/src/visumtransfer/visum_tables/demand.py:286-287 | insertion adds exactly one row |
| Demand.SameCodes | visumtransfer/src/visumtransfer/visum_tables/demand.py:286-288 | reordering keeps the codes |
| Demand.InsertDistinct | visumtransfer/src/visumtransfer/visum_tables/demand.py:286-287 | inserting a new code keeps codes distinct |
| Demand.InsertOrdered | visumtransfer/src/visumtransfer/visum_tables/demand.py:286-287 | inserting keeps the list sorted |
| Demand.SortActs | visumtransfer/src/visumtransfer/visum_tables/demand.py:286-287 | the sort is a permutation |
| Demand.SortDistinct | visumtransfer/src/visumtransfer/visum_tables/demand.py:286-287 | sorting keeps codes distinct |
| Demand.SortOrdered | visumtransfer/src/visumtransfer/visum_tables/demand.py:286-287 | the sort is sorted |
| Demand.HierarchyAt | visumtransfer/src/visumtransfer/visum_tables/demand.py:288-290 | the i-th sorted row's code maps to i |
| Demand.HierarchyKeys | visumtransfer/src/visumtransfer/visum_tables/demand.py:278-291 | the hierarchy has exactly the codes of the frame as keys |
| Demand.HierarchyBijective | visumtransfer/src/visumtransfer/visum_tables/demand.py:278-291 | the codes map one to one onto `0 .. n-1` |
| Demand.HierarchyOrder | visumtransfer/src/visumtransfer/visum_tables/demand.py:286-290 | a row ranks lower exactly when it precedes in sort order |
| Demand.NonHomeFirst | visumtransfer/src/visumtransfer/visum_tables/demand.py:286-290 | every non-home activity ranks before every home activity |
| Demand.Ranks | visumtransfer/src/visumtransfer/visum_tables/demand.py:274-275 | `[hierarchy[a] for a in ac]`, or KeyError at the first unranked element |
| Demand.ArgMin | visumtransfer/src/visumtransfer/visum_tables/demand.py:274 | `np.argmin` is the first position of a minimum |
| Demand.MainActivity | visumtransfer/src/visumtransfer/visum_tables/demand.py:259-276 | the first element of the chain of minimal rank, or KeyError for an unranked element |
| Demand.NonCompositeCodes | visumtransfer/src/visumtransfer/visum_tables/demand.py:239-240 | exactly the codes of home or CALCDESTMODE rows |
| Demand.AllNonCompositeSplit | visumtransfer/src/visumtransfer/visum_tables/demand.py:237-241 | splitting the `,`-join gives those codes back in frame order |
| Demand.AddTo | visumtransfer/src/visumtransfer/visum_tables/demand.py:249 | `activitysets[k].add(c)` adds exactly that membership |
| Demand.AddParts | visumtransfer/src/visumtransfer/visum_tables/demand.py:251-255 | the inner loop keeps the dictionary well formed |
| Demand.AddPartsMembers | visumtransfer/src/visumtransfer/visum_tables/demand.py:251-255 | the code joins the set of every non-empty composite part |
| Demand.AddActivity | visumtransfer/src/visumtransfer/visum_tables/demand.py:246-255 | one row of the outer loop keeps the dictionary well formed |
| Demand.Collect | visumtransfer/src/visumtransfer/visum_tables/demand.py:245-255 | the collected dictionary is well formed |
| Demand.CollectStep | visumtransfer/src/visumtransfer/visum_tables/demand.py:246 | one more row of the outer loop |
| Demand.ContributedLast | visumtransfer/src/visumtransfer/visum_tables/demand.py:246-255 | the contributions of a frame are those of its front and of its last row |
| Demand.CollectMembers | visumtransfer/src/visumtransfer/visum_tables/demand.py:243-255 | the set of Y holds X exactly when X is Y and home or CALCDESTMODE, or X lists Y among its composite activities |
| Demand.WrittenNext | visumtransfer/src/visumtransfer/visum_tables/demand.py:256-257 | one more key of the write-back loop |
| Demand.WrittenRows | visumtransfer/src/visumtransfer/visum_tables/demand.py:256-257 | the write-back sets AKTIVITAETSET on known codes and appends a NaN row for unknown ones |
| Demand.WrittenStep | visumtransfer/src/visumtransfer/visum_tables/demand.py:257 | one assignment keeps the write-back invariant |
| Demand.NewActivity | visumtransfer/src/visumtransfer/visum_tables/demand.py:215-226 | `rang = rank or 1`, ISTHEIMATAKTIVITAET = KOPPLUNGZIEL = home, and the suffix on code and STRUKTURGROESSENCODES |
| Demand.NoPlaceholderAppend | visumtransfer/src/visumtransfer/visum_tables/demand.py:228 | new rows of their own add no NaN row |
| Demand.Aktivitaet.constructor | visumtransfer/src/visumtransfer/visum_tables/demand.py:202-207 | a new activity table is empty |
| Demand.Aktivitaet.AddRows | visumtransfer/src/visumtransfer/visum_tables/demand.py:228 | IndexError for an empty batch on an empty table; otherwise the record array takes the batch, and the frame takes it exactly when the codes stay distinct, else ValueError |
| Demand.Aktivitaet.SetActivitySet | visumtransfer/src/visumtransfer/visum_tables/demand.py:243-257 | the collected sets written back, or AttributeError on a NaN row |
| Demand.Aktivitaet.CollectSets | visumtransfer/src/visumtransfer/visum_tables/demand.py:245-255 | the first loop's dictionary, or failure on a NaN row |
| Demand.Aktivitaet.AddRowSets | visumtransfer/src/visumtransfer/visum_tables/demand.py:247-255 | one row of the first loop |
| Demand.Aktivitaet.WriteSets | visumtransfer/src/visumtransfer/visum_tables/demand.py:256-257 | the second loop assigns every set |
| Demand.Aktivitaet.CreateTables | visumtransfer/src/visumtransfer/visum_tables/demand.py:209-229 | IndexError for no inputs on an empty table; otherwise the rows of the inputs added in one batch, then `set_activityset`, with each error case |
| Demand.HomeActivity | visumtransfer/src/visumtransfer/visum_tables/demand.py:231-234 | the code of the first home activity, or IndexError |
| Demand.PairColumns | visumtransfer/src/visumtransfer/visum_tables/demand.py:767 | the pair table has its six columns |
| Demand.PairKeywords | visumtransfer/src/visumtransfer/visum_tables/demand.py:781-785 | every keyword is a field |
| Demand.PairRowOf | visumtransfer/src/visumtransfer/visum_tables/demand.py:780-785 | the pair row is `[qa_za, code, model, qa, za, '']` |
| Demand.PairGivenCells | visumtransfer/src/visumtransfer/visum_tables/demand.py:780-785 | CODE is `qa + '_' + za`, NAME the old code, then model, qa and za |
| Demand.PairDefaultCell | visumtransfer/src/visumtransfer/visum_tables/demand.py:769-770 | QUELLEZIELTYP gets no keyword and no default |
| Demand.PairNoDefault | visumtransfer/src/visumtransfer/visum_tables/demand.py:769-770 | the default under QUELLZIELTYP does not reach the column QUELLEZIELTYP |
| Demand.PairNotGiven | visumtransfer/src/visumtransfer/visum_tables/demand.py:781-785 | `create_tables` passes no `quellezieltyp` |
| Demand.PairEntries | visumtransfer/src/visumtransfer/visum_tables/demand.py:780 | each pair is keyed by `qa_za` |
| Demand.PairClassShaped | visumtransfer/src/visumtransfer/visum_tables/demand.py:764-770 | a table of the class has the pair shape |
| Demand.PairKey | visumtransfer/src/visumtransfer/visum_tables/demand.py:768 | `_pkey = 'CODE'` is the first column |
| Demand.CreatePairs | visumtransfer/src/visumtransfer/visum_tables/demand.py:772-787 | all pair rows in one batch; IndexError for no pairs on an empty table, otherwise they enter the frame exactly when no `qa_za` code repeats or exists, else ValueError |
| Demand.NewPairRows | visumtransfer/src/visumtransfer/visum_tables/demand.py:776-786 | the loop builds the pair rows in order |
| PersonGroups.InCategoryMembers | visumtransfer/src/visumtransfer/visum_tables/persongroups.py:36-37 | the selection holds exactly the groups of the category |
| PersonGroups.CrossJoinAt | visumtransfer/src/visumtransfer/visum_tables/persongroups.py:49-56 | the merge on `one` puts pair (i, j) at `i·m + j` |
| PersonGroups.CrossJoinSize | visumtransfer/src/visumtransfer/visum_tables/persongroups.py:49 | the merge has `n·m` rows |
| PersonGroups.JoinCategories | visumtransfer/src/visumtransfer/visum_tables/persongroups.py:41-57 | the loop fails only with AssertionError |
| PersonGroups.GetGroupsDestmode | visumtransfer/src/visumtransfer/visum_tables/persongroups.py:27-60 | `get_groups_destmode` fails only with AssertionError |
| PersonGroups.PopulatedTail | visumtransfer/src/visumtransfer/visum_tables/persongroups.py:41-47 | a list of categories is populated exactly when its head and tail are |
| PersonGroups.JoinCategoriesOk | visumtransfer/src/visumtransfer/visum_tables/persongroups.py:41-57 | the joins pass exactly when every category has a group, and then multiply the rows |
| PersonGroups.GroupsDestmodeShape | visumtransfer/src/visumtransfer/visum_tables/persongroups.py:27-60 | success exactly when the list is non-empty and every category has a group; then as many rows as the product of the group counts, each with the new category |
| PersonGroups.PickedTail | visumtransfer/src/visumtransfer/visum_tables/persongroups.py:41 | the picks of the later categories |
| PersonGroups.JoinCategoriesAt | visumtransfer/src/visumtransfer/visum_tables/persongroups.py:41-57 | every choice of one group per later category is a joined row, at its slot |
| PersonGroups.SlotPosition | visumtransfer/src/visumtransfer/visum_tables/persongroups.py:49 | the slot is the row's block plus the mixed-radix position of the choice |
| PersonGroups.GroupsDestmodeAt | visumtransfer/src/visumtransfer/visum_tables/persongroups.py:27-60 | the result holds, for each choice, the first group joined with the others |
| PersonGroups.PositionSlot | visumtransfer/src/visumtransfer/visum_tables/persongroups.py:34-49 | the position of a choice is the slot of its first pick |
| PersonGroups.AlongCodes | visumtransfer/src/visumtransfer/visum_tables/persongroups.py:52-56 | CODE is the first CODE followed by each CODEPART; GROUPS_CONSTANTS gains `,CODE` per later category |
| PersonGroups.AlongName | visumtransfer/src/visumtransfer/visum_tables/persongroups.py:53-54 | NAME neither starts nor ends with `,` or a blank |
| PersonGroups.GroupCode | visumtransfer/src/visumtransfer/visum_tables/persongroups.py:88-89 | the group code is `group_mainact`, or the KeyError of `get_main_activity` |
| PersonGroups.GroupOverridesKeys | visumtransfer/src/visumtransfer/visum_tables/persongroups.py:96-104 | the keywords of a new group |
| PersonGroups.GroupedFinishes | visumtransfer/src/visumtransfer/visum_tables/persongroups.py:82-108 | the loop passes when every chain is ranked and every keyword is a column |
| PersonGroups.StepCodes | visumtransfer/src/visumtransfer/visum_tables/persongroups.py:88-108 | one pass enters the chain under its code and adds a group only for a new code |
| PersonGroups.GroupedFirst | visumtransfer/src/visumtransfer/visum_tables/persongroups.py:82 | a passed loop passed its first step |
| PersonGroups.GroupedChains | visumtransfer/src/visumtransfer/visum_tables/persongroups.py:82-108 | every code ends up holding its chains in encounter order |
| PersonGroups.ChainsWithCons | visumtransfer/src/visumtransfer/visum_tables/persongroups.py:82-89 | the chains of a code, the first trip chain first |
| PersonGroups.ChainsOfUpdate | visumtransfer/src/visumtransfer/visum_tables/persongroups.py:108 | appending a chain to one code changes that code only |
| PersonGroups.GroupedKeys | visumtransfer/src/visumtransfer/visum_tables/persongroups.py:91-93 | the codes are the old ones plus those met |
| PersonGroups.GroupedCount | visumtransfer/src/visumtransfer/visum_tables/persongroups.py:91-104 | exactly one group per new code |
| PersonGroups.GroupedUnfold | visumtransfer/src/visumtransfer/visum_tables/persongroups.py:82 | the loop is its first step, then the rest |
| PersonGroups.StepErr | visumtransfer/src/visumtransfer/visum_tables/persongroups.py:88 | an unranked sequence stops with KeyError and changes nothing |
| PersonGroups.StepKnown | visumtransfer/src/visumtransfer/visum_tables/persongroups.py:105-108 | a known code only gains the chain |
| PersonGroups.StepNew | visumtransfer/src/visumtransfer/visum_tables/persongroups.py:91-104 | a new code is entered with its chain, then its group row is made |
| PersonGroups.KeywordsOfNewGroup | visumtransfer/src/visumtransfer/visum_tables/persongroups.py:96-104 | `add_group`'s keywords form the new group's row keywords |
| PersonGroups.Personengruppe.constructor | visumtransfer/src/visumtransfer/visum_tables/persongroups.py:16-19 | an empty table, no groups, empty `gd_codes` |
| PersonGroups.Personengruppe.AddGroup | visumtransfer/src/visumtransfer/visum_tables/persongroups.py:21-25 | `Row(code, nachfragemodellcode, **kw)` appended, or TypeError for repeated or unknown keywords |
| PersonGroups.Personengruppe.CreateGroupsDestmode | visumtransfer/src/visumtransfer/visum_tables/persongroups.py:62-108 | `gd_codes`, the groups and the outcome are those of the grouping fold over the trip chains |
| PersonGroups.Personengruppe.GroupChain | visumtransfer/src/visumtransfer/visum_tables/persongroups.py:83-108 | one pass of the loop is one fold step |
| PersonGroups.Personengruppe.EnterGroup | visumtransfer/src/visumtransfer/visum_tables/persongroups.py:91-104 | a new code's pass is one fold step |
| PersonGroups.Personengruppe.CreateDfFromGroupList | visumtransfer/src/visumtransfer/visum_tables/persongroups.py:110-112 | the collected groups go into the record array; IndexError for no groups on an empty table, otherwise they enter the frame exactly when every group fits the columns and no CODE repeats, else ValueError with the frame unchanged |
| DemandStrata.StratumColumns | visumtransfer/src/visumtransfer/visum_tables/nachfrageschicht.py:10 | the strata table has its six columns |
| DemandStrata.StratumFieldsOfCols | visumtransfer/src/visumtransfer/visum_tables/nachfrageschicht.py:10 | the fields of those columns, in order |
| DemandStrata.StratumKeywords | visumtransfer/src/visumtransfer/visum_tables/nachfrageschicht.py:23-29 | every keyword is a field |
| DemandStrata.StratumGivenCells | visumtransfer/src/visumtransfer/visum_tables/nachfrageschicht.py:22-29 | CODE = NAME = `group:chain`, then model, chain, group, nsegset |
| DemandStrata.StratumRowOf | visumtransfer/src/visumtransfer/visum_tables/nachfrageschicht.py:23-29 | `Row(...)` is the stratum row whatever the defaults |
| DemandStrata.StrataClassShaped | visumtransfer/src/visumtransfer/visum_tables/nachfrageschicht.py:7-10 | a table of the class has the strata shape |
| DemandStrata.StrataKey | visumtransfer/src/visumtransfer/visum_tables/nachfrageschicht.py:10 | the implicit key is CODE at position 0 |
| DemandStrata.SelectedGroupsMembers | visumtransfer/src/visumtransfer/visum_tables/nachfrageschicht.py:18-19 | a group is selected exactly when its row has CATEGORY = `category` |
| DemandStrata.SelectedGroupsDistinct | visumtransfer/src/visumtransfer/visum_tables/nachfrageschicht.py:19-20 | the selected groups do not repeat |
| DemandStrata.TailKeysDistinct | visumtransfer/src/visumtransfer/visum_tables/nachfrageschicht.py:19 | the rest of a frame with distinct keys has distinct keys |
| DemandStrata.ConsNoRepeats | visumtransfer/src/visumtransfer/visum_tables/nachfrageschicht.py:20 | a new group before distinct ones |
| DemandStrata.StrataRows | visumtransfer/src/visumtransfer/visum_tables/nachfrageschicht.py:20-30 | every stratum row has six cells |
| DemandStrata.TouchedChains | visumtransfer/src/visumtransfer/visum_tables/nachfrageschicht.py:21 | `gd_codes[g]` inserts the selected groups and changes no group's chains |
| DemandStrata.StrataRowsConcat | visumtransfer/src/visumtransfer/visum_tables/nachfrageschicht.py:20-30 | the strata of two runs of groups are those of each, in order |
| DemandStrata.StrataCount | visumtransfer/src/visumtransfer/visum_tables/nachfrageschicht.py:20-30 | exactly one row per chain of every selected group |
| DemandStrata.StrataMembers | visumtransfer/src/visumtransfer/visum_tables/nachfrageschicht.py:20-30 | a row is a stratum exactly when it is the row of a selected group and one of its chains |
| DemandStrata.StrataRowAt | visumtransfer/src/visumtransfer/visum_tables/nachfrageschicht.py:20-30 | every chain of a selected group gives its stratum |
| DemandStrata.StrataRowOrigin | visumtransfer/src/visumtransfer/visum_tables/nachfrageschicht.py:20-30 | every stratum comes from a selected group and one of its chains |
| DemandStrata.StrataEntries | visumtransfer/src/visumtransfer/visum_tables/nachfrageschicht.py:31 | each stratum is keyed by its code |
| DemandStrata.RepeatedChainClashes | visumtransfer/src/visumtransfer/visum_tables/nachfrageschicht.py:31 | a chain recorded twice for one group makes `add_rows` fail |
| DemandStrata.StrataOffset | visumtransfer/src/visumtransfer/visum_tables/nachfrageschicht.py:20-30 | the strata of one group stand together |
| DemandStrata.StrataSplit | visumtransfer/src/visumtransfer/visum_tables/nachfrageschicht.py:20-30 | the rows before a group, its own, and those after |
| DemandStrata.CreateStrata | visumtransfer/src/visumtransfer/visum_tables/nachfrageschicht.py:12-31 | KeyError without a CATEGORY column; IndexError for no strata on an empty table; otherwise all strata in one batch, entering the frame exactly when no code repeats, else ValueError with the frame unchanged; `gd_codes` gains the selected groups |
| DemandStrata.StrataLoop | visumtransfer/src/visumtransfer/visum_tables/nachfrageschicht.py:20-30 | the nested loop builds the strata rows and inserts the selected groups into `gd_codes` |
| DemandStrata.StrataNext | visumtransfer/src/visumtransfer/visum_tables/nachfrageschicht.py:20-21 | one more selected group |
| DemandStrata.GroupStrata | visumtransfer/src/visumtransfer/visum_tables/nachfrageschicht.py:21-30 | the inner loop builds the strata of one group |
| UserTables.DefinitionColumns | visumtransfer/src/visumtransfer/visum_tables/usertables.py:9 | the definition table has NAME, GRUPPE, KOMMENTAR |
| UserTables.DefinitionFieldsOfCols | visumtransfer/src/visumtransfer/visum_tables/usertables.py:9 | their fields are name, gruppe, kommentar |
| UserTables.DefinitionClassShaped | visumtransfer/src/visumtransfer/visum_tables/usertables.py:6-10 | `_pk` is not `_pkey`, so the key is NAME |
| UserTables.DefinitionRowOf | visumtransfer/src/visumtransfer/visum_tables/usertables.py:34 | `Row(name=name, gruppe=group)` is `[name, group, '']` |
| UserTables.AddDefinition | visumtransfer/src/visumtransfer/visum_tables/usertables.py:33-34 | one definition row; a repeated name fails with ValueError and leaves the frame |
| UserTables.FreshDefinition | visumtransfer/src/visumtransfer/visum_tables/usertables.py:33 | a fresh definition table always takes the row |
| UserTables.DataColumnsMembers | visumtransfer/src/visumtransfer/visum_tables/usertables.py:22-23 | a column is a data column exactly when it is declared and not a formula |
| UserTables.DefinitionNameField | visumtransfer/src/visumtransfer/visum_tables/usertables.py:22 | the column TABELLENDEFINITIONNAME has the field `tabellendefinitionname` and is its own upper case |
| UserTables.UserColumnsRead | visumtransfer/src/visumtransfer/visum_tables/usertables.py:22-31 | the class's columns read back as TABELLENDEFINITIONNAME, NR, then the data columns |
| UserTables.DefaultRowKey | visumtransfer/src/visumtransfer/visum_tables/usertables.py:26 | a row not naming TABELLENDEFINITIONNAME is keyed by `name` |
| UserTables.SecondDefaultRowClashes | visumtransfer/src/visumtransfer/tests/test_transfer.py:163-164 | a second such row finds its key present, so its `add_row` fails |
| UserTables.UserAttributes.constructor | visumtransfer/src/visumtransfer/visum_tables/usertables.py:36 | a new attribute table has no attributes |
| UserTables.StepPopEquivalent | visumtransfer/src/visumtransfer/visum_tables/usertables.py:39-40 | popping `datenquellentyp` keeps what the loop reads |
| UserTables.PopEquivalentTrans | visumtransfer/src/visumtransfer/visum_tables/usertables.py:39-40 | pops compose |
| UserTables.PopEquivalentRefl | visumtransfer/src/visumtransfer/visum_tables/usertables.py:39-40 | nothing popped |
| UserTables.AttributesFoldPass | visumtransfer/src/visumtransfer/visum_tables/usertables.py:36-51 | the loop passes exactly when no column's attributes repeat `objid`, `name` or `datentyp`; otherwise TypeError |
| UserTables.AttributesFoldLog | visumtransfer/src/visumtransfer/visum_tables/usertables.py:36-51 | the log gains one formula or data attribute per column, in order |
| UserTables.StepLog | visumtransfer/src/visumtransfer/visum_tables/usertables.py:38-51 | one column logs the attribute the caller's attributes declare |
| UserTables.DefsCons | visumtransfer/src/visumtransfer/visum_tables/usertables.py:37 | the attributes of the first column, then the rest |
| UserTables.DeclaresCons | visumtransfer/src/visumtransfer/visum_tables/usertables.py:37 | a column is declared by the first entry or the rest |
| UserTables.StepPops | visumtransfer/src/visumtransfer/visum_tables/usertables.py:39-40 | a formula column loses `datenquellentyp`, no other changes |
| UserTables.AttributesFoldPops | visumtransfer/src/visumtransfer/visum_tables/usertables.py:37-40 | exactly the declared formula columns lose `datenquellentyp` in the caller's dict |
| UserTables.PopTwice | visumtransfer/src/visumtransfer/visum_tables/usertables.py:40 | popping again changes nothing |
| UserTables.DataColumnsAreDaten | visumtransfer/src/visumtransfer/visum_tables/usertables.py:22-23 | the table's data columns are the data attributes, in order |
| UserTables.AddColumnAttributes | visumtransfer/src/visumtransfer/visum_tables/usertables.py:37-51 | the loop's log, attributes and outcome are those of the attribute fold |
| UserTables.CreateUserdefinedTable | visumtransfer/src/visumtransfer/visum_tables/usertables.py:13-52 | the class is registered under `TABLEENTRIES_<name>`, `defaults` gains the name, one definition row, then one attribute per column |
| UserTables.AddDefinitionTo | visumtransfer/src/visumtransfer/visum_tables/usertables.py:33-34 | the row goes to the given table or a fresh one, failing only on a repeated name |

## Left out

- File I/O, `print` and file handles (`WriteLine`, `open`, `f.tell`). Writing a table gives its lines. Reading takes the file as lines with their byte lengths.
- The pandas parse of each section (`read_csv`), the `to_csv` rendering of `write_df` and `unconvert`. These are floating point and pandas formatting. `write_df` is modelled line by line without the unit rendering.
- The `converters` property with its late-binding closure, and the time helpers of `matrizen.py`. Both are floating point.
- The attribute catalogue loading (HDF5/Excel) and `visum_attributes.py` beyond its key rule. The catalogue is two maps; see Schema.Catalogue.
- The `VisumTables` singleton and the metaclass. They are an explicit registry map passed in and returned.
- `numpy.rec.fromrecords` checks on the record array, apart from the IndexError for an empty batch on an empty table. The record array is a plain list of rows, so a row of the wrong length reaches the frame check, where it gives ValueError.
- `visum_demand.py`, an older copy with a different allocator, and the domain builders (`add_*_matrices`, the attribute builders). These are literal call sequences.
- `add_calibration_matrices_and_attributes`, which works on `wide_to_long` frames.
- `BenutzerdefiniertesAttribut` lives in `basis.py`, which is not part of this model. Its `add_formel_attribute` and `add_daten_attribute` are modelled as entries appended to a log, with Python's duplicate-keyword TypeError.
- UserTables.CreateUserdefinedTable: the default arguments `defaults={}` and `col_attrs={}` are shared between calls and mutated. The model returns the new dictionaries and does not model that aliasing.
- UserTables.CreateUserdefinedTable: `kommentar` is accepted and ignored, as in the source.
- PersonGroups.Personengruppe.CreateGroupsDestmode: the `groupby`/`merge` that builds the trip-chain frame is not modelled. The loop takes the merged rows as a list.
- PersonGroups.GetGroupsDestmode: groups are read as typed records of the frame (CODE, NAME, GROUPS_CONSTANTS, NAMEPART, CODEPART, CATEGORY). pandas' column selection errors are not modelled.
- Demand.Aktivitaet.SetActivitySet: the element order of the `,`-joined AKTIVITAETSET follows Python set iteration. It is modelled as a set.
- Demand.SortActs: the sort is proved sorted and a permutation, but pandas' tie-breaking is not modelled. With distinct codes the order is total, so this makes no difference.
- DemandStrata.CreateStrata: group codes are strings. Non-string index values of the group frame (which would make `':'.join` raise) are not modelled.
- DemandStrata.CreateStrata and Demand.CreatePairs require a table of their own class shape. They do not model `create_tables` on a table whose columns were changed by `add_cols`.
- UserTables.UserColumnsRead: holds only for column names without `;` or a backslash. For other names `cols` does not read the list back.
- UserTables.DefaultRowKey: stated under the same restriction to plain column names.
- Tables.VisumTable.UpdateOriginalDf: takes the new rows as keyed entries. The `reset_index()[columns]` projection is not modelled. On every frame that `add_rows` builds the key sits in the index, so the method raises KeyError (Tables.KeyFreeRefusesUpdate); it succeeds only on a frame that holds its key columns, such as the `read_csv` frame this model leaves out.
- `get_df`, `finish_updates`, `copy`, `table_from_string` and `update_table_from_df` are not modelled. They are thin pandas wrappers around operations the model has. `add_df` is modelled only where `create_df_from_group_list` uses it, as one `add_rows` batch (PersonGroups.Personengruppe.CreateDfFromGroupList).
- Transfer.VisumTransfer.ReadFromModification: `sections_to_read` has no effect on the scan in the source (it only skips data lines), so it is left out. `decimal` only matters to the pandas parse.
- Schema.ParseHeader: the code is upper-cased for A-Z and the German umlauts only. Python's `upper()` maps every cased Unicode letter, so a code with another letter such as `é` differs.
- Schema.AttributeKey: the same restriction of `upper()` to A-Z and the umlauts.
- Schema.FieldName: the same restriction of `lower()` to A-Z and the umlauts; other letters are kept as they are.
- Tables.VisumTable.constructor: the ValueError that `recordclass` raises in `define_row` for duplicate field names, names starting with `_` (which a column starting with `-`, `(` or `)` becomes), non-identifiers and Python keywords is not modelled; the row type takes any field list.
- Tables.VisumTable.AddCols: the same `recordclass` ValueError is not modelled. In the source, adding a column the table already has reassigns `_cols` and then raises in `define_row`; the model appends the column and succeeds.
- Transfer.VisumTransfer.SectionTable: the same `recordclass` ValueError for the header's columns is not modelled, and the columns are split on `;` instead of `self.sep`.
- Transfer.VisumTransfer.constructor: the `sep` argument is not modelled. It is fixed at its default `;`, which is also the separator every writer uses.
- Transfer.VisumTransfer.ReadFromModification: the scan splits header columns on `;`; a document built with another `sep` is not modelled.
- Transfer.PathJoin: models POSIX `os.path.join` with `/`. The Windows form with `\` and drive letters is not modelled.
- Transfer.VisumTransfer.GetTables: returns a map, which has no order. The order of the source's dict comprehension is stated separately by Transfer.VisumTransfer.GetTablesOrder.
- Tables.FreshEntries: states which entries are kept, not their order. The source's boolean-mask selection keeps the order of `add_df`.
