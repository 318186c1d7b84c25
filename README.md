# NTv2 grid-shift file writer

A Dafny model of `ntv2generator/ntv2writer.py`. That file writes NTv2 grid-shift files, the Canadian format for datum transformations. An NTv2 file contains:

- an overview header of 11 records (record counts, the coordinate unit, the format version, and the source and target ellipsoids);
- one or more subfiles, each an 11-record header (name, parent, dates, extent, increments, node count) followed by one row of four shifts per grid node;
- an `END` trailer.

Every record is written either as a 16-byte binary slot or as an ASCII line.

The model has four modules:

- `Failures` (`failures.dfy`): the exceptions the writer raises, as an `Error` datatype, plus the `Outcome`, `Result` and `Option` wrappers.
- `Codec` (`codec.dfy`): `_format_8bit_str`, `_format_ntv2_record` and the END trailer. It also holds `OutputFile`, the destination file. The destination records the sequence of `write` calls as abstract `Chunk`s, and `EncodeAll` turns those chunks into the bytes or text of the file.
- `SubFiles` (`subfile.dfy`):
  - the `NTv2SubFile` builder, as a class whose methods update its fields;
  - `BoundingBox` and the date and grid-count arithmetic;
  - `SubFileData`, the value of a subfile's state, and `SubImage`, the records a subfile write emits as a function of that state.
- `Ntv2Files` (`ntv2file.dfy`):
  - `CRSDef` and `ETRS89_CRS`;
  - the `NTv2File` container, as a class;
  - `FileData` and `WriteFile`, the specification of a whole-file write;
  - the properties of the written file: the binary length law, the framing, the counts it declares, and the rows a reader recovers.

Each method that changes state is proved against a specification. The write methods append exactly `SubImage(old(Model()), binary)`, or leave the destination as `WriteFile(old(Model()), …)` specifies. The setters of a subfile (limits, increments, dates and the shift list) state their new state as an update of `old(Model())`. The setters of a file (reference systems, adding and creating subfiles) state it as an update of the old fields. The properties of what is written are proved once, about the specification functions.

## Model

| member | source | states |
|---|---|---|
| Codec.Pad8 | ntv2generator/ntv2writer.py:23-24 | The name or value slot is exactly 8 characters: the first 8 characters of the input, then spaces. |
| Codec.FormatRecord | ntv2generator/ntv2writer.py:27-58 | A record encodes exactly when its value has the type its kind needs ("RECORD" needs four floats, "s" a string, "i" an int that fits 32 bits in binary mode, "f" a float). Any other kind raises "Unknown record format". A binary slot is always 16 bytes. An ASCII record ends in a newline. Every named record starts with its padded 8-character name. |
| Codec.BinaryValueSlot | ntv2generator/ntv2writer.py:29-53 | In binary mode the 8 bytes after the name hold the value. For "s" that is the padded string. For "i" it is four bytes that unpack to the int, then four NUL bytes. For "f" it is the packed double. A RECORD row holds its four packed singles in order. |
| Codec.TextValueSlot | ntv2generator/ntv2writer.py:31-56 | In ASCII mode a named record is its padded name, one space, then the value and a newline. For "s" the value is the padded string. For "i" it is text that parses back to the int. For "f" it is the float text. A RECORD row is its four float texts joined by spaces, then a newline. |
| Codec.PackInt32RoundTrip | ntv2generator/ntv2writer.py:43-46 | The four little-endian bytes of struct "i" unpack to the same 32-bit integer. |
| Codec.PackInt32 | ntv2generator/ntv2writer.py:44-46 | An int field packs to exactly four bytes, each below 256. |
| Codec.IntTextRoundTrip | ntv2generator/ntv2writer.py:48 | The ASCII text `str(int(v))` of an int field is non-empty and parses back to `v`, negative values included. |
| Codec.EndBytes | ntv2generator/ntv2writer.py:152-154 | The binary END trailer is 16 bytes and starts with "END". |
| Codec.EncodeChunk | ntv2generator/ntv2writer.py:27-58 | A single `write` call encodes exactly when its record is accepted. The END trailer and the bare newline always encode. In binary mode its width is the slot width. |
| Codec.EncodeAll | ntv2generator/ntv2writer.py:141-150 | A sequence of writes encodes exactly when every write encodes. In binary mode the result is as long as the sum of the slot widths. |
| Codec.EncodeAllAppend | ntv2generator/ntv2writer.py:141-150 | Encoding two sequences of writes one after the other gives the concatenation of their encodings, or the first error. |
| Codec.BinaryLengthOfRecords | ntv2generator/ntv2writer.py:36-53 | With no bare newlines, every write takes 16 bytes. The layouts "<8s8s", "<8si4x", "<8sd" and "<4f" are all 16 bytes wide. |
| Codec.OutputFile.Open | ntv2generator/ntv2writer.py:141-144 | Opening the destination with "w" or "wb" leaves it empty. |
| Codec.OutputFile.Write | ntv2generator/ntv2writer.py:162-163 | `output_file.write` appends its record at the end and changes nothing else. |
| SubFiles.DateText | ntv2generator/ntv2writer.py:322-327 | `strftime("%d%m%Y")` gives exactly eight decimal digits. |
| SubFiles.DateTextRoundTrip | ntv2generator/ntv2writer.py:322-327 | A reader recovers the day, the month and the year from the first two, the next two and the last four digits. |
| SubFiles.Trunc | ntv2generator/ntv2writer.py:224-231 | Python's `int()` of a float truncates toward zero, for either sign. |
| SubFiles.GridCount | ntv2generator/ntv2writer.py:224-231 | In exact real arithmetic, the count fails exactly when an increment is zero, and the failure is ZeroDivisionError. |
| SubFiles.AxisCountSpans | ntv2generator/ntv2writer.py:224-231 | In exact arithmetic, along one axis with a positive increment, `int(span / inc + 1)` is `floor(span / inc) + 1`. That many nodes fit in the span, and one more would not. |
| SubFiles.GridCountOfPositiveIncrements | ntv2generator/ntv2writer.py:224-231 | In exact arithmetic, for positive increments, `gs_count` is rows × columns. Each factor is at least 1 and is the unique node count that fits its axis. |
| SubFiles.BoundingBox | ntv2generator/ntv2writer.py:70-75 | A box is built from north, south, west and east, in that positional order, and stores each under its own name. |
| SubFiles.NewSubFile | ntv2generator/ntv2writer.py:195-202 | A new subfile has its name and parent, no gate set, a count of 0 and no records. |
| SubFiles.HeaderError | ntv2generator/ntv2writer.py:300-316 | `_write_header` raises, in this order, for missing limits, increments or dates and for a zero count. It passes exactly when all three are set and the count is non-zero. |
| SubFiles.SubWriteError | ntv2generator/ntv2writer.py:272-291 | `write_to_file` passes exactly when all three gates are set, the list holds at least `gs_count` records and the count is non-zero. When it passes, the header's checks pass too. |
| SubFiles.HeaderRecords | ntv2generator/ntv2writer.py:318-343 | The subfile header has 11 records. |
| SubFiles.SubImage | ntv2generator/ntv2writer.py:291-298 | A subfile write emits the header records plus one row per record. In ASCII mode it adds two newlines, so its length is `n + 11` in binary and `n + 13` in ASCII. |
| SubFiles.SubImageRows | ntv2generator/ntv2writer.py:292-296 | A reader of a written subfile recovers exactly its list of records, in list order. |
| SubFiles.SubImageLatitudes | ntv2generator/ntv2writer.py:328-331 | S_LAT holds the box's south value and N_LAT its north value. |
| SubFiles.SubImageLongitudes | ntv2generator/ntv2writer.py:332-337 | E_LONG holds the negated east value and W_LONG the negated west value. |
| SubFiles.SubImageCount | ntv2generator/ntv2writer.py:342-343 | GS_COUNT holds the count `set_coord_increment` computed. |
| SubFiles.RowsOfAppend | ntv2generator/ntv2writer.py:292-296 | The rows of two concatenated sequences of writes are the rows of each, in order. |
| SubFiles.NTv2SubFile.constructor | ntv2generator/ntv2writer.py:195-202 | The new object's state is `NewSubFile(name, parent)`. |
| SubFiles.NTv2SubFile.SetLimits | ntv2generator/ntv2writer.py:204-208 | It refuses exactly when the limits are already set and `overwrite` is false. On refusal nothing changes. Otherwise only the box and its gate change. |
| SubFiles.NTv2SubFile.SetCoordIncrement | ntv2generator/ntv2writer.py:210-231 | It needs the limits, and refuses a repeat without `overwrite`; either refusal changes nothing. Otherwise it stores the increments and the gate, and then the new count, or raises ZeroDivisionError with the count unchanged. The records are kept. |
| SubFiles.NTv2SubFile.SetDates | ntv2generator/ntv2writer.py:233-242 | It refuses exactly when the dates are already set and `overwrite` is false. Otherwise it stores both dates and the gate; the update date defaults to the creation date. |
| SubFiles.NTv2SubFile.SetGridshifts | ntv2generator/ntv2writer.py:244-257 | It passes exactly when the limits and increments are set, the list is empty or `overwrite` is true, and the array holds at least `gs_count` records. Each refusal has its own error and changes nothing. On success only the list changes, and it holds at least `gs_count` records. |
| SubFiles.NTv2SubFile.ClearGridshifts | ntv2generator/ntv2writer.py:259-260 | The list becomes empty and nothing else changes. |
| SubFiles.NTv2SubFile.AddGridshift | ntv2generator/ntv2writer.py:262-270 | It appends exactly when the list holds fewer than `gs_count` records. Otherwise it raises and nothing changes. It preserves `len(gs_list) <= gs_count`. |
| SubFiles.NTv2SubFile.WriteToFile | ntv2generator/ntv2writer.py:272-298 | It raises `SubWriteError` of the state, in the source's order, and then writes nothing. Otherwise it appends exactly `SubImage` of the state: header, rows in list order, and the ASCII newline. |
| SubFiles.NTv2SubFile.WriteHeader | ntv2generator/ntv2writer.py:300-345 | It raises `HeaderError` of the state. Otherwise it appends the 11 header records, plus a newline in ASCII mode. |
| SubFiles.NTv2SubFile.WriteRecord | ntv2generator/ntv2writer.py:347-356 | It appends one anonymous RECORD row holding the four values in order. |
| Ntv2Files.CRSDef | ntv2generator/ntv2writer.py:61-65 | A reference system stores its name, major semi-axis and minor semi-axis, in that order. |
| Ntv2Files.ETRS89 | ntv2generator/ntv2writer.py:67 | ETRS89 is named "ETRS89", with major axis 6378137.000 and minor axis 6356752.314. |
| Ntv2Files.RegistrationCheck | ntv2generator/ntv2writer.py:98-107 | A subfile registers exactly when its name is new (or `overwrite` is true) and its parent is "NONE" or already registered. A duplicate name is reported first; the parent error names the child. |
| Ntv2Files.CreateSubfileCheckAsWritten | ntv2generator/ntv2writer.py:110-118 | As the code stands, `create_subfile` gets past its checks exactly when the name is new and the parent is "NONE". |
| Ntv2Files.CreateSubfileAsWrittenRejectsChild | ntv2generator/ntv2writer.py:110-118 | A new child of a registered parent raises NameError as written, although the `add_subfile` checks accept it. |
| Ntv2Files.OverviewRecords | ntv2generator/ntv2writer.py:162-189 | The overview header has 11 records. |
| Ntv2Files.ParseFormat | ntv2generator/ntv2writer.py:129-134 | The format letters are exactly a, A, b and B, and only b and B select binary. |
| Ntv2Files.FirstFailing | ntv2generator/ntv2writer.py:147-148 | Every subfile before the index writes without raising, and the subfile at the index raises. |
| Ntv2Files.LoopOutcome | ntv2generator/ntv2writer.py:147-148 | The subfile loop ends without raising exactly when no subfile raises. |
| Ntv2Files.Written | ntv2generator/ntv2writer.py:141-150 | The destination always starts with the overview header. When no subfile raises, it holds the whole file: overview, subfiles in key order, then END. |
| Ntv2Files.WriteFile | ntv2generator/ntv2writer.py:123-150 | The write is refused before opening exactly when the destination exists without `overwrite`, the format letter is unknown, the reference systems are unset, or there are no subfiles. It checks in that order, and each refusal carries its own error (FileExists, UnknownFormat, NotSet(Overview), NotSet(Subfiles)). Once opened, the write passes exactly when every subfile passes, and then the destination holds the whole file. |
| Ntv2Files.BinaryFileLength | ntv2generator/ntv2writer.py:123-156 | For a binary file whose int fields fit 32 bits, the size is 176 + Σ(176 + 16·nᵢ) + 16 bytes. |
| Ntv2Files.FileEncodes | ntv2generator/ntv2writer.py:123-156 | Every complete file encodes in ASCII, and in binary when its int fields fit 32 bits. |
| Ntv2Files.FileFraming | ntv2generator/ntv2writer.py:152-165 | The encoded file starts with the NUM_OREC = 11 record (`"NUM_OREC"`, the int 11, 4 pad bytes in binary; `"NUM_OREC 11\n"` in ASCII). It ends with the END trailer (16 bytes in binary; `"END"` in ASCII). |
| Ntv2Files.FileRows | ntv2generator/ntv2writer.py:146-149 | A reader of the whole file recovers every subfile's records, subfile by subfile in key order. |
| Ntv2Files.DeclaredCounts | ntv2generator/ntv2writer.py:162-168 | The declared counts match the contents: NUM_OREC is the number of overview records, NUM_SREC the number of subfile header records, and NUM_FILE the number of subfiles. |
| Ntv2Files.NTv2File.constructor | ntv2generator/ntv2writer.py:79-88 | A new file has a valid unit, no overview and no subfiles. |
| Ntv2Files.NTv2File.Create | ntv2generator/ntv2writer.py:79-88 | It raises "Unknown unit" exactly for a unit other than SECONDS, MINUTES or DEGREES. Otherwise it returns a fresh, empty file with that unit. |
| Ntv2Files.NTv2File.SetRefSystems | ntv2generator/ntv2writer.py:90-96 | It refuses exactly when the systems are already set and `overwrite` is false. Otherwise it stores both systems and the gate. The subfiles never change. |
| Ntv2Files.NTv2File.SubfileCount | ntv2generator/ntv2writer.py:166-167 | `len(subfiles_dict.keys())` equals the number of keys in order. |
| Ntv2Files.NTv2File.AddSubfile | ntv2generator/ntv2writer.py:98-108 | The outcome is `RegistrationCheck` over the registered names. On success only the entry for that name changes: a new name goes last in key order and a replaced name keeps its place. |
| Ntv2Files.NTv2File.CreateSubfile | ntv2generator/ntv2writer.py:110-121 | It applies the `add_subfile` checks without `overwrite`. On success it registers a fresh, empty subfile last in key order and returns it. On failure nothing changes. |
| Ntv2Files.NTv2File.WriteToFile | ntv2generator/ntv2writer.py:123-150 | The outcome and the destination are exactly what `WriteFile` of the state specifies. A refused write leaves the destination alone. |
| Ntv2Files.NTv2File.WriteOpened | ntv2generator/ntv2writer.py:141-150 | After opening, the destination holds `Written` of the state, and the outcome is that of the subfile loop. |
| Ntv2Files.NTv2File.WriteSubfiles | ntv2generator/ntv2writer.py:147-148 | The subfiles are written in key order, up to the first that raises; that subfile's error is the outcome. |
| Ntv2Files.NTv2File.WriteEof | ntv2generator/ntv2writer.py:152-156 | It appends the END trailer. |
| Ntv2Files.NTv2File.WriteHeader | ntv2generator/ntv2writer.py:158-191 | Without an overview it raises and writes nothing. Otherwise it appends the 11 overview records, with NUM_FILE the number of subfiles, plus a newline in ASCII mode. |

## Left out

- Float encodings. The IEEE-754 packings of struct "d" and "f" and the texts of `"{0:4f}"` and `"{0:6f}"` come in as a `FloatFormat` parameter. Only their widths (8 and 4 bytes) are assumed, in `Sound`. Rounding of a double to a single in "<4f", and its overflow, are not modelled.
- Floats are exact reals, so IEEE special values are not represented. A zero east or west limit gives `-0.0` from `east*-1` / `west*-1` in Python: its "<8sd" slot has the sign bit set and its text is `-0.000000`. The model's `Num(-0.0)` equals `Num(0.0)`. NaN is not represented either (`int(nan)` in `set_coord_increment` raises ValueError), nor are infinite coordinates.
- File-system effects. `os.path.join` and `os.path.exists` are replaced by the `fileExists` parameter. `close`, newline translation on Windows, and an IOError from `open` are not modelled. `write_to_file` stores the joined path in `self.file_name` before any check, so even a refused write changes the object; the model has no such field.
- Python's dynamic typing. Values are typed in the model, so a string passed where a number is expected cannot happen. `_format_ntv2_record` makes no type check of its own: a mismatch raises only where `struct` or `format` refuses it.
- Codec.FormatRecord: Python also encodes an int in an "f" slot (packed as a double, text such as `5.000000`). In Python 2.7 it also encodes a float in an "i" slot, truncated by `struct` with a DeprecationWarning in binary and by `str(int(x))` in ASCII. The model represents every number bound for an "f" field as `Num` and every number bound for an "i" field as `Int`, and refuses the other combinations with `BadValue`. No path through the writer builds such a combination.
- SubFiles.GridCount: the count is computed in exact real arithmetic, not in IEEE doubles. When the span is a multiple of the increment, the rounded quotient can fall just below the whole number, and then Python counts one node fewer on that axis. For example, 0.3 / 0.1 is 2.9999999999999996 in doubles, so a 0.3 × 0.3 box with increments 0.1 gives 9 nodes in Python and 16 here. With int arguments, Python 2's `/` floors, so a negative quotient can differ by one from the model's. A quotient that overflows to infinity makes `int()` raise OverflowError; that is not modelled either.
- SubFiles.AxisCountSpans: "`int(span / inc + 1)` is `floor(span / inc) + 1`" and "that many nodes fit the span" hold in exact arithmetic only. For the double arithmetic of the source they can fail by one node, as under SubFiles.GridCount.
- SubFiles.GridCountOfPositiveIncrements: the product of the per-axis counts equals Python's `gs_count` in exact arithmetic only. The double rounding described under SubFiles.GridCount can make Python's count smaller.
- Default arguments. Every default (`coord_unit="SECONDS"`, `parent='NONE'`, `f_format='b'`, `overwrite=False`, `update_date=None`, `binary_format=True`, `type_='f'`) is an explicit parameter in the model.
- SubFiles.DateText: only years 1000 to 9999 are modelled, where `%Y` gives four digits. Python 2's `strftime` also refuses years before 1900.
- Codec.EncodeAll: a record whose int does not fit 32 bits (`struct.error`) is reported for the whole write. The model does not capture the partial file left behind when `struct.pack` raises halfway. In that case `Ntv2Files.NTv2File.WriteToFile` still returns `Pass`, where Python raises `struct.error` out of `write_to_file`. The error shows only as a failure of `EncodeAll` on the destination's records.
- Dict order. `subfiles_dict` is a Python 2 dict, whose keys iterate in hash order. The model writes subfiles in insertion order, with a replaced key keeping its place. The lemmas about the whole file hold for any fixed order of the keys.
- Missing `self`. `set_gridshifts`, `clear_gridshifts`, `add_gridshift` and `_write_record` are declared without `self`, so every call raises TypeError or NameError. They are modelled as their bodies evidently intend.
- `create_subfile` names the undefined `overwrite` and `subFile`. It is modelled with the `add_subfile` checks (see Findings).
- Aliasing. `set_gridshifts` stores the caller's list itself, so later appends through `add_gridshift` are visible to the caller. The model stores a value.
- `added_sub_files` is set in `__init__` and never read, so it is not modelled.
- Reference systems. Until `set_ref_systems`, `crs_from` and `crs_to` do not exist in Python. The model holds `ETRS89` there, and no write reads it, because the overview gate refuses first.
- Error messages are modelled by their kind only. The `gc_count` misspelling in the message of `set_gridshifts` would itself raise AttributeError; that is not modelled.
- `BoundingBox` and `CRSDef` are plain values; their constructors only store their arguments.
- `pointgenerator.py` and the `_test` functions are not part of this model.

## Findings

| source | as written | input that shows it | evidently intended | confidence | as-written member | corrected member |
|---|---|---|---|---|---|---|
| ntv2generator/ntv2writer.py:110-118 | `create_subfile` reads the undefined `overwrite` when the name is registered, and reads `subFile` before assigning it whenever the parent is not "NONE". Both raise NameError, so no child subfile can ever be created. | registered names {"P"}, name "C", parent "P" | the `add_subfile` checks: a duplicate name or an unregistered parent is refused, and otherwise the subfile is created | not executed | Ntv2Files.CreateSubfileAsWrittenRejectsChild | Ntv2Files.NTv2File.CreateSubfile |
