/**
 * The top-level NTv2 container (`NTv2File` of ntv2writer.py): the coordinate
 * unit, the two reference systems, the name-keyed subfiles in registration
 * order, and the write that emits the 11-record overview header, every
 * subfile, and the END trailer.
 *
 * The Python dict `subfiles_dict` is modelled as the sequence of its keys in
 * insertion order plus a map; re-assigning an existing key keeps its place.
 */
module Ntv2Files {
  import opened Failures
  import opened Codec
  import opened SubFiles

  /** `CRSDef(name, major_axis, minor_axis)`: an ellipsoidal reference system. */
  datatype CRSDef = CRSDef(name: string, majorAxis: real, minorAxis: real)

  const ETRS89: CRSDef := CRSDef("ETRS89", 6378137.000, 6356752.314)

  predicate ValidUnit(unit: string) {
    unit == "SECONDS" || unit == "MINUTES" || unit == "DEGREES"
  }

  predicate Distinct<T(==)>(s: seq<T>) {
    forall i, j :: 0 <= i < j < |s| ==> s[i] != s[j]
  }

  lemma {:induction false} DistinctSetSize<T>(s: seq<T>)
    requires Distinct(s)
    ensures |set x | x in s| == |s|
  {
    if s != [] {
      var init := s[..|s| - 1];
      DistinctSetSize(init);
      assert (set x | x in s) == (set x | x in init) + {s[|s| - 1]};
      assert s[|s| - 1] !in init;
    }
  }

  // ---------------------------------------------------------------------
  // Registration

  /** The two checks of `add_subfile`, in order: a registered name needs
      `overwrite`; a parent other than "NONE" must already be registered.
      The parent error's message names the subfile, not the parent. */
  function RegistrationCheck(registered: set<string>, name: string, parent: string, overwrite: bool): (r: Outcome)
    ensures r.Pass? <==> (name !in registered || overwrite) && (parent == "NONE" || parent in registered)
    ensures name in registered && !overwrite ==> r == Fail(DuplicateName(name))
    ensures (name !in registered || overwrite) && parent != "NONE" && parent !in registered ==>
      r == Fail(UnknownParent(name))
  {
    if name in registered && !overwrite then Fail(DuplicateName(name))
    else if parent != "NONE" && parent !in registered then Fail(UnknownParent(name))
    else Pass
  }

  /** The checks of `create_subfile` as the code stands. `overwrite` is not a
      name the method defines, so a registered name raises NameError when the
      guard reaches `not overwrite`; the parent check reads `subFile` before
      the method assigns it, which raises UnboundLocalError (a NameError)
      whenever the parent is not "NONE". */
  function CreateSubfileCheckAsWritten(registered: set<string>, name: string, parent: string): (r: Outcome)
    ensures r.Pass? <==> name !in registered && parent == "NONE"
  {
    if name in registered then Fail(UndefinedName)
    else if parent != "NONE" then Fail(UndefinedName)
    else Pass
  }

  /** As written, `create_subfile` cannot create a child subfile even when its
      parent is registered, which the intended check accepts. */
  lemma CreateSubfileAsWrittenRejectsChild(registered: set<string>, name: string, parent: string)
    requires parent != "NONE" && parent in registered && name !in registered
    ensures CreateSubfileCheckAsWritten(registered, name, parent) == Fail(UndefinedName)
    ensures RegistrationCheck(registered, name, parent, false) == Pass
  {
  }

  // ---------------------------------------------------------------------
  // The state of a file, as a value, and what writing it emits

  datatype FileData = FileData(
    unit: string, hasOverview: bool, crsFrom: CRSDef, crsTo: CRSDef,
    entries: seq<SubFileData>)  // the subfiles, in key order

  /** The 11 overview records of `_write_header`. */
  function OverviewRecords(unit: string, crsFrom: CRSDef, crsTo: CRSDef, numFile: int): (h: seq<Chunk>)
    ensures |h| == 11
  {
    [ Record("NUM_OREC", Int(11), "i"),
      Record("NUM_SREC", Int(11), "i"),
      Record("NUM_FILE", Int(numFile), "i"),
      Record("GS_TYPE", Text(unit), "s"),
      Record("VERSION", Text("NTv2.0"), "s"),
      Record("SYSTEM_F", Text(crsFrom.name), "s"),
      Record("SYSTEM_T", Text(crsTo.name), "s"),
      Record("MAJOR_F ", Num(crsFrom.majorAxis), "f"),
      Record("MINOR_F ", Num(crsFrom.minorAxis), "f"),
      Record("MAJOR_T ", Num(crsTo.majorAxis), "f"),
      Record("MINOR_T ", Num(crsTo.minorAxis), "f") ]
  }

  /** The overview records, then `_write_header`'s newline in ASCII mode. */
  function OverviewHeader(f: FileData, binary: bool): (h: seq<Chunk>)
    ensures |h| == if binary then 11 else 12
  {
    OverviewRecords(f.unit, f.crsFrom, f.crsTo, |f.entries|) + (if binary then [] else [BlankLine])
  }

  /** The images of the subfiles, one after the other. */
  function Bodies(ds: seq<SubFileData>, binary: bool): seq<Chunk>
  {
    if ds == [] then [] else Bodies(ds[..|ds| - 1], binary) + SubImage(ds[|ds| - 1], binary)
  }

  /** The shift records of the subfiles, one list after the other. */
  function AllShifts(ds: seq<SubFileData>): seq<Shift>
  {
    if ds == [] then [] else AllShifts(ds[..|ds| - 1]) + ds[|ds| - 1].gsList
  }

  /** The binary size of the subfiles: each a 176-byte header and 16 bytes per record. */
  function SubfileBytes(ds: seq<SubFileData>): int
  {
    if ds == [] then 0 else SubfileBytes(ds[..|ds| - 1]) + 176 + 16 * |ds[|ds| - 1].gsList|
  }

  lemma BodiesStep(prefix: seq<Chunk>, ds: seq<SubFileData>, i: nat, binary: bool)
    requires i < |ds|
    ensures prefix + Bodies(ds[..i + 1], binary) == prefix + Bodies(ds[..i], binary) + SubImage(ds[i], binary)
  {
    assert ds[..i + 1][..i] == ds[..i];
  }

  /** The index of the first subfile whose write raises, or |ds| if none does. */
  function FirstFailing(ds: seq<SubFileData>): (k: nat)
    ensures k <= |ds|
    ensures forall j :: 0 <= j < k ==> SubWriteError(ds[j]).None?
    ensures k < |ds| ==> SubWriteError(ds[k]).Some?
  {
    if ds == [] then 0
    else if SubWriteError(ds[0]).Some? then 0
    else 1 + FirstFailing(ds[1..])
  }

  lemma FirstFailingPast(ds: seq<SubFileData>, i: nat)
    requires i <= FirstFailing(ds) && i < |ds| && SubWriteError(ds[i]).None?
    ensures i + 1 <= FirstFailing(ds)
  {
  }

  lemma FirstFailingAt(ds: seq<SubFileData>, i: nat)
    requires i <= FirstFailing(ds) && i < |ds| && SubWriteError(ds[i]).Some?
    ensures FirstFailing(ds) == i
  {
  }

  /** The whole file: overview, every subfile in key order, END. */
  function FileContents(f: FileData, binary: bool): seq<Chunk>
  {
    OverviewHeader(f, binary) + Bodies(f.entries, binary) + [EndMarker]
  }

  /** `f_format`: Some(binary) for a/A (ASCII) and b/B (binary). */
  function ParseFormat(fFormat: string): (r: Option<bool>)
    ensures r.Some? <==> fFormat in {"a", "A", "b", "B"}
    ensures r.Some? ==> (r.value <==> fFormat in {"b", "B"})
  {
    if fFormat == "a" || fFormat == "A" then Some(false)
    else if fFormat == "b" || fFormat == "B" then Some(true)
    else None
  }

  /** How the subfile loop of a write ends: the first subfile that raises,
      or none. */
  function LoopOutcome(ds: seq<SubFileData>): (r: Outcome)
    ensures r.Pass? <==> forall j :: 0 <= j < |ds| ==> SubWriteError(ds[j]).None?
  {
    var k := FirstFailing(ds);
    if k < |ds| then Fail(SubWriteError(ds[k]).value) else Pass
  }

  /** What an opened write leaves in the destination: the overview, the
      subfiles before the first that raises, and END if none does. */
  function Written(f: FileData, binary: bool): (c: seq<Chunk>)
    ensures OverviewHeader(f, binary) <= c
    ensures LoopOutcome(f.entries).Pass? ==> c == FileContents(f, binary)
  {
    var k := FirstFailing(f.entries);
    if k < |f.entries| then OverviewHeader(f, binary) + Bodies(f.entries[..k], binary)
    else
      assert f.entries[..k] == f.entries;
      OverviewHeader(f, binary) + Bodies(f.entries[..k], binary) + [EndMarker]
  }

  /** Either the write raised before opening the destination, or it opened
      (emptied) it, wrote `contents` and ended with `outcome`. */
  datatype WriteResult = Refused(error: Error) | Opened(contents: seq<Chunk>, outcome: Outcome)

  /** `NTv2File.write_to_file`: the checks in order (destination exists,
      format letter, reference systems, at least one subfile), then the
      overview, the subfiles up to the first that raises, and END if none does. */
  function WriteFile(f: FileData, fileExists: bool, fFormat: string, overwrite: bool): (w: WriteResult)
    ensures w.Refused? <==> (fileExists && !overwrite) || ParseFormat(fFormat).None? || !f.hasOverview || f.entries == []
    ensures fileExists && !overwrite ==> w == Refused(FileExists)
    ensures !(fileExists && !overwrite) && ParseFormat(fFormat).None? ==> w == Refused(UnknownFormat)
    ensures !(fileExists && !overwrite) && ParseFormat(fFormat).Some? && !f.hasOverview ==>
      w == Refused(NotSet(Overview))
    ensures !(fileExists && !overwrite) && ParseFormat(fFormat).Some? && f.hasOverview && f.entries == [] ==>
      w == Refused(NotSet(Subfiles))
    ensures w.Opened? ==>
      && (w.outcome.Pass? <==> forall j :: 0 <= j < |f.entries| ==> SubWriteError(f.entries[j]).None?)
      && (w.outcome.Pass? ==> w.contents == FileContents(f, ParseFormat(fFormat).value))
      && OverviewHeader(f, ParseFormat(fFormat).value) <= w.contents
  {
    if fileExists && !overwrite then Refused(FileExists)
    else match ParseFormat(fFormat)
      case None => Refused(UnknownFormat)
      case Some(binary) =>
        if !f.hasOverview then Refused(NotSet(Overview))
        else if f.entries == [] then Refused(NotSet(Subfiles))
        else Opened(Written(f, binary), LoopOutcome(f.entries))
  }

  // ---------------------------------------------------------------------
  // Properties of the emitted file

  /** The int fields of the file fit struct "i". */
  predicate IntFieldsFit(f: FileData) {
    InInt32(|f.entries|) && forall j :: 0 <= j < |f.entries| ==> InInt32(f.entries[j].gsCount)
  }

  lemma SubImageEncodes(d: SubFileData, binary: bool, fmt: FloatFormat)
    requires binary ==> InInt32(d.gsCount)
    ensures EncodeAll(SubImage(d, binary), binary, fmt).Success?
    ensures Sound(fmt) && binary ==> |EncodeAll(SubImage(d, binary), binary, fmt).value| == 176 + 16 * |d.gsList|
  {
    var h, rows := HeaderRecords(d), Rows(d.gsList);
    var s := SubImage(d, binary);
    forall i | 0 <= i < |s|
      ensures EncodeChunk(s[i], binary, fmt).Success?
    {
      if i < 11 {
        assert s[i] == h[i];
      } else if i - |SubHeader(d, binary)| < |rows| && i >= |SubHeader(d, binary)| {
        assert s[i] == rows[i - |SubHeader(d, binary)|];
      }
    }
    if binary {
      assert s == h + rows;
      BinaryLengthOfRecords(s);
    }
  }

  lemma {:induction false} BodiesEncode(ds: seq<SubFileData>, binary: bool, fmt: FloatFormat)
    requires binary ==> forall j :: 0 <= j < |ds| ==> InInt32(ds[j].gsCount)
    ensures EncodeAll(Bodies(ds, binary), binary, fmt).Success?
    ensures Sound(fmt) && binary ==> |EncodeAll(Bodies(ds, binary), binary, fmt).value| == SubfileBytes(ds)
  {
    if ds != [] {
      var init, last := ds[..|ds| - 1], ds[|ds| - 1];
      BodiesEncode(init, binary, fmt);
      SubImageEncodes(last, binary, fmt);
      EncodeAllAppend(Bodies(init, binary), SubImage(last, binary), binary, fmt);
    }
  }

  lemma OverviewEncodes(f: FileData, binary: bool, fmt: FloatFormat)
    requires binary ==> InInt32(|f.entries|)
    ensures EncodeAll(OverviewHeader(f, binary), binary, fmt).Success?
    ensures Sound(fmt) && binary ==> |EncodeAll(OverviewHeader(f, binary), binary, fmt).value| == 176
  {
    var o := OverviewRecords(f.unit, f.crsFrom, f.crsTo, |f.entries|);
    assert forall i :: 0 <= i < |o| ==> Accepted(o[i], binary) && !o[i].BlankLine?;
    var h := OverviewHeader(f, binary);
    if binary {
      assert h == o;
      BinaryLengthOfRecords(o);
    } else {
      assert forall i :: 0 <= i < |h| ==> Accepted(h[i], binary) by {
        forall i | 0 <= i < |h|
          ensures Accepted(h[i], binary)
        {
          if i < |o| {
            assert h[i] == o[i];
          }
        }
      }
    }
  }

  /** The length law of the binary format: a 176-byte overview, per subfile a
      176-byte header and 16 bytes per record, and a 16-byte END trailer. */
  lemma BinaryFileLength(f: FileData, fmt: FloatFormat)
    requires Sound(fmt) && IntFieldsFit(f)
    ensures EncodeAll(FileContents(f, true), true, fmt).Success?
    ensures |EncodeAll(FileContents(f, true), true, fmt).value| == 176 + SubfileBytes(f.entries) + 16
  {
    var h, b := OverviewHeader(f, true), Bodies(f.entries, true);
    OverviewEncodes(f, true, fmt);
    BodiesEncode(f.entries, true, fmt);
    EncodeAllAppend(h, b, true, fmt);
    EncodeAllAppend(h + b, [EndMarker], true, fmt);
  }

  /** The text of a successful encoding starts with its first chunk's text. */
  lemma EncodeAllFirst(cs: seq<Chunk>, binary: bool, fmt: FloatFormat)
    requires cs != [] && EncodeAll(cs, binary, fmt).Success?
    ensures EncodeChunk(cs[0], binary, fmt).Success?
    ensures EncodeChunk(cs[0], binary, fmt).value <= EncodeAll(cs, binary, fmt).value
  {
  }

  /** The text of a successful encoding ends with its last chunk's text. */
  lemma EncodeAllLast(cs: seq<Chunk>, c: Chunk, binary: bool, fmt: FloatFormat)
    requires EncodeAll(cs + [c], binary, fmt).Success?
    ensures EncodeChunk(c, binary, fmt).Success?
    ensures var t, e := EncodeAll(cs + [c], binary, fmt).value, EncodeChunk(c, binary, fmt).value;
      |e| <= |t| && t[|t| - |e|..] == e
  {
    EncodeAllAppend(cs, [c], binary, fmt);
    assert EncodeAll([c], binary, fmt) == Concat(EncodeChunk(c, binary, fmt), Success(""));
  }

  /** The NUM_OREC record in either mode. */
  lemma NumOrecText(binary: bool, fmt: FloatFormat)
    ensures EncodeChunk(Record("NUM_OREC", Int(11), "i"), binary, fmt) ==
      Success(if binary then "NUM_OREC" + PackInt32(11) + Fill(4, '\0') else "NUM_OREC 11\n")
  {
    assert Pad8("NUM_OREC") == "NUM_OREC";
    assert IntText(11) == "11" by {
      assert NumDigits(11) == 2;
      assert DigitChar(1) == '1';
      assert FixedDigits(1, 1) == FixedDigits(0, 0) + ['1'];
      assert FixedDigits(11, 2) == FixedDigits(1, 1) + ['1'];
    }
    assert "NUM_OREC" != "RECORD";
    if binary {
      assert FormatRecord("NUM_OREC", Int(11), "i", binary, fmt) == Success("NUM_OREC" + PackInt32(11) + Fill(4, '\0'));
    } else {
      assert FormatRecord("NUM_OREC", Int(11), "i", binary, fmt) == Success("NUM_OREC" + " " + "11" + "\n");
      assert "NUM_OREC" + " " + "11" + "\n" == "NUM_OREC 11\n";
    }
  }

  lemma FileEncodes(f: FileData, binary: bool, fmt: FloatFormat)
    requires binary ==> IntFieldsFit(f)
    ensures EncodeAll(FileContents(f, binary), binary, fmt).Success?
  {
    var h, b := OverviewHeader(f, binary), Bodies(f.entries, binary);
    OverviewEncodes(f, binary, fmt);
    BodiesEncode(f.entries, binary, fmt);
    EncodeAllAppend(h, b, binary, fmt);
    EncodeAllAppend(h + b, [EndMarker], binary, fmt);
  }

  /** Every file that can be written encodes in ASCII, and in binary when its
      int fields fit; it opens with the NUM_OREC = 11 record and closes with
      the END trailer. */
  lemma FileFraming(f: FileData, binary: bool, fmt: FloatFormat)
    requires binary ==> IntFieldsFit(f)
    ensures EncodeAll(FileContents(f, binary), binary, fmt).Success?
    ensures var t := EncodeAll(FileContents(f, binary), binary, fmt).value;
      if binary then
        |t| >= 16 && t[..16] == "NUM_OREC" + PackInt32(11) + Fill(4, '\0') && t[|t| - 16..] == EndBytes()
      else
        |t| >= 12 && t[..12] == "NUM_OREC 11\n" && t[|t| - 3..] == "END"
  {
    var front := OverviewHeader(f, binary) + Bodies(f.entries, binary);
    var c := FileContents(f, binary);
    assert c == front + [EndMarker];
    assert c[0] == Record("NUM_OREC", Int(11), "i");
    FileEncodes(f, binary, fmt);
    var t := EncodeAll(c, binary, fmt).value;
    EncodeAllFirst(c, binary, fmt);
    NumOrecText(binary, fmt);
    EncodeAllLast(front, EndMarker, binary, fmt);
  }

  /** A reader recovers every subfile's records, subfile by subfile in key
      order, each in insertion order. */
  lemma {:induction false} BodiesRows(ds: seq<SubFileData>, binary: bool)
    ensures RowsOf(Bodies(ds, binary)) == AllShifts(ds)
  {
    if ds != [] {
      var init, last := ds[..|ds| - 1], ds[|ds| - 1];
      BodiesRows(init, binary);
      SubImageRows(last, binary);
      RowsOfAppend(Bodies(init, binary), SubImage(last, binary));
    }
  }

  lemma FileRows(f: FileData, binary: bool)
    ensures RowsOf(FileContents(f, binary)) == AllShifts(f.entries)
  {
    var h, b := OverviewHeader(f, binary), Bodies(f.entries, binary);
    RowsOfNoRows(h);
    RowsOfNoRows([EndMarker]);
    BodiesRows(f.entries, binary);
    RowsOfAppend(h, b);
    RowsOfAppend(h + b, [EndMarker]);
  }

  /** The counts the overview declares: NUM_OREC is the number of overview
      records, NUM_SREC the number of subfile header records, NUM_FILE the
      number of subfiles. */
  lemma DeclaredCounts(f: FileData, binary: bool, d: SubFileData)
    ensures FieldValue(FileContents(f, binary), "NUM_OREC") == Some(Int(|OverviewRecords(f.unit, f.crsFrom, f.crsTo, |f.entries|)|))
    ensures FieldValue(FileContents(f, binary), "NUM_SREC") == Some(Int(|HeaderRecords(d)|))
    ensures FieldValue(FileContents(f, binary), "NUM_FILE") == Some(Int(|f.entries|))
  {
    var o := OverviewRecords(f.unit, f.crsFrom, f.crsTo, |f.entries|);
    var rest := (if binary then [] else [BlankLine]) + Bodies(f.entries, binary) + [EndMarker];
    assert FileContents(f, binary) == o + rest;
    FieldValueSkip(o, "NUM_SREC", 1);
    FieldValueSkip(o, "NUM_FILE", 2);
    FieldValueAppend(o, rest, "NUM_OREC");
    FieldValueAppend(o, rest, "NUM_SREC");
    FieldValueAppend(o, rest, "NUM_FILE");
  }

  // ---------------------------------------------------------------------
  // The container object

  class NTv2File {
    var hasOverview: bool
    const gridshiftDataType: string
    var crsFrom: CRSDef
    var crsTo: CRSDef
    var keys: seq<string>                     // subfiles_dict's keys, in insertion order
    var subfiles: map<string, NTv2SubFile>    // subfiles_dict

    ghost predicate Valid()
      reads this
    {
      && ValidUnit(gridshiftDataType)
      && Distinct(keys)
      && (forall k :: k in subfiles <==> k in keys)
      && (forall k :: k in subfiles ==> subfiles[k].name == k)
    }

    /** The states of the subfiles under `ks`, in that order. */
    ghost function EntriesOf(ks: seq<string>): (ds: seq<SubFileData>)
      reads this, subfiles.Values
      requires forall k :: k in ks ==> k in subfiles
      ensures |ds| == |ks|
    {
      if ks == [] then [] else EntriesOf(ks[..|ks| - 1]) + [subfiles[ks[|ks| - 1]].Model()]
    }

    lemma {:induction false} EntryAt(ks: seq<string>, i: nat)
      requires forall k :: k in ks ==> k in subfiles
      requires i < |ks|
      ensures EntriesOf(ks)[i] == subfiles[ks[i]].Model()
      decreases |ks|
    {
      if i < |ks| - 1 {
        EntryAt(ks[..|ks| - 1], i);
      }
    }

    ghost function Model(): FileData
      reads this, subfiles.Values
      requires Valid()
    {
      FileData(gridshiftDataType, hasOverview, crsFrom, crsTo, EntriesOf(keys))
    }

    /** `len(subfiles_dict.keys())` is the number of keys in order. */
    lemma SubfileCount()
      requires Valid()
      ensures |subfiles| == |keys|
    {
      assert subfiles.Keys == set k | k in keys;
      DistinctSetSize(keys);
    }

    /** The state a write leaves alone: only the destination changes. */
    twostate lemma ModelUnchanged()
      requires old(Valid()) && unchanged(this)
      requires forall o :: o in old(subfiles.Values) ==> unchanged(o)
      ensures Valid() && Model() == old(Model())
    {
    }

    constructor (coordUnit: string)
      requires ValidUnit(coordUnit)
      ensures Valid() && gridshiftDataType == coordUnit
      ensures !hasOverview && keys == [] && subfiles == map[]
    {
      hasOverview := false;
      keys, subfiles := [], map[];
      gridshiftDataType := coordUnit;
      crsFrom, crsTo := ETRS89, ETRS89;
    }

    /** `NTv2File(coord_unit)`: raises for a unit other than SECONDS,
        MINUTES or DEGREES. */
    static method Create(coordUnit: string) returns (r: Result<NTv2File>)
      ensures r.Failure? <==> !ValidUnit(coordUnit)
      ensures r.Failure? ==> r.error == UnknownUnit
      ensures r.Success? ==>
        && fresh(r.value) && r.value.Valid() && r.value.gridshiftDataType == coordUnit
        && !r.value.hasOverview && r.value.keys == [] && r.value.subfiles == map[]
    {
      if !ValidUnit(coordUnit) {
        return Failure(UnknownUnit);
      }
      var f := new NTv2File(coordUnit);
      r := Success(f);
    }

    /** `set_ref_systems`: refused once set, unless `overwrite`. */
    method SetRefSystems(from: CRSDef, to: CRSDef, overwrite: bool) returns (r: Outcome)
      requires Valid()
      modifies this
      ensures Valid()
      ensures r.Fail? <==> old(hasOverview) && !overwrite
      ensures r.Fail? ==> r.error == AlreadySet(Overview) && unchanged(this)
      ensures r.Pass? ==> hasOverview && crsFrom == from && crsTo == to
      ensures keys == old(keys) && subfiles == old(subfiles)
    {
      if hasOverview && !overwrite {
        return Fail(AlreadySet(Overview));
      }
      crsFrom := from;
      crsTo := to;
      hasOverview := true;
      r := Pass;
    }

    /** `add_subfile`: registers `sf` under its name. A new name goes last in
        key order; a replaced name keeps its place; no other entry changes. */
    method AddSubfile(sf: NTv2SubFile, overwrite: bool) returns (r: Outcome)
      requires Valid()
      modifies this
      ensures Valid()
      ensures r == RegistrationCheck(old(subfiles).Keys, sf.name, sf.parent, overwrite)
      ensures r.Fail? ==> unchanged(this)
      ensures r.Pass? ==>
        && subfiles == old(subfiles)[sf.name := sf]
        && keys == if sf.name in old(keys) then old(keys) else old(keys) + [sf.name]
      ensures hasOverview == old(hasOverview) && crsFrom == old(crsFrom) && crsTo == old(crsTo)
    {
      if sf.name in subfiles && !overwrite {
        return Fail(DuplicateName(sf.name));
      }
      if sf.parent != "NONE" && sf.parent !in subfiles {
        return Fail(UnknownParent(sf.name));
      }
      if sf.name !in subfiles {
        keys := keys + [sf.name];
      }
      subfiles := subfiles[sf.name := sf];
      r := Pass;
    }

    /** `create_subfile`, with the checks it is meant to make (those of
        `add_subfile` without `overwrite`): registers and returns a new
        subfile. */
    method CreateSubfile(name: string, parent: string) returns (r: Result<NTv2SubFile>)
      requires Valid()
      modifies this
      ensures Valid()
      ensures r.Failure? <==> RegistrationCheck(old(subfiles).Keys, name, parent, false).Fail?
      ensures r.Failure? ==> r.error == RegistrationCheck(old(subfiles).Keys, name, parent, false).error && unchanged(this)
      ensures r.Success? ==>
        && fresh(r.value) && r.value.Model() == NewSubFile(name, parent)
        && subfiles == old(subfiles)[name := r.value] && keys == old(keys) + [name]
      ensures hasOverview == old(hasOverview) && crsFrom == old(crsFrom) && crsTo == old(crsTo)
    {
      if name in subfiles {
        return Failure(DuplicateName(name));
      }
      if parent != "NONE" && parent !in subfiles {
        return Failure(UnknownParent(name));
      }
      var sf := new NTv2SubFile(name, parent);
      keys := keys + [name];
      subfiles := subfiles[name := sf];
      r := Success(sf);
    }

    /** `write_to_file`: `fileExists` is whether the destination is already
        there; `dest` is the file it names. */
    method WriteToFile(dest: OutputFile, fileExists: bool, fFormat: string, overwrite: bool) returns (r: Outcome)
      requires Valid()
      modifies dest
      ensures match WriteFile(old(Model()), fileExists, fFormat, overwrite)
        case Refused(e) => r == Fail(e) && dest.chunks == old(dest.chunks)
        case Opened(contents, outcome) => r == outcome && dest.chunks == contents
    {
      if fileExists && !overwrite {
        return Fail(FileExists);
      }
      var binary: bool;
      if fFormat == "a" || fFormat == "A" {
        binary := false;
      } else if fFormat == "b" || fFormat == "B" {
        binary := true;
      } else {
        return Fail(UnknownFormat);
      }
      if !hasOverview {
        return Fail(NotSet(Overview));
      }
      SubfileCount();
      if |subfiles| == 0 {
        return Fail(NotSet(Subfiles));
      }
      r := WriteOpened(dest, binary);
    }

    /** The rest of `write_to_file` once its checks pass: open (empty) the
        destination, write the overview, the subfiles, and END when no
        subfile raised. */
    method WriteOpened(dest: OutputFile, binary: bool) returns (r: Outcome)
      requires Valid() && hasOverview
      modifies dest
      ensures r == LoopOutcome(old(Model()).entries)
      ensures dest.chunks == Written(old(Model()), binary)
    {
      ghost var f := Model();
      SubfileCount();
      dest.Open();
      var h := WriteHeader(dest, binary);
      assert h.Pass? && dest.chunks == OverviewHeader(f, binary);
      ModelUnchanged();
      r := WriteSubfiles(dest, binary, f.entries);
      if r.Pass? {
        WriteEof(dest, binary);
      }
      assert dest.chunks == Written(f, binary);
    }

    /** The loop of `write_to_file` over the keys: each subfile's
        `write_to_file` in key order, stopping at the first that raises;
        `ds` are the states of the subfiles. */
    method WriteSubfiles(dest: OutputFile, binary: bool, ghost ds: seq<SubFileData>) returns (r: Outcome)
      requires Valid() && ds == Model().entries
      modifies dest
      ensures r == LoopOutcome(ds)
      ensures dest.chunks == old(dest.chunks) + Bodies(ds[..FirstFailing(ds)], binary)
    {
      ghost var start := dest.chunks;
      assert dest.chunks == start + Bodies(ds[..0], binary);
      for i := 0 to |keys|
        invariant i <= FirstFailing(ds)
        invariant dest.chunks == start + Bodies(ds[..i], binary)
      {
        var sf := subfiles[keys[i]];
        ModelUnchanged();
        EntryAt(keys, i);
        var s := sf.WriteToFile(dest, binary);
        if s.Fail? {
          FirstFailingAt(ds, i);
          return s;
        }
        FirstFailingPast(ds, i);
        BodiesStep(start, ds, i, binary);
      }
      r := Pass;
    }

    /** `_write_eof`. */
    method WriteEof(dest: OutputFile, binary: bool)
      modifies dest
      ensures dest.chunks == old(dest.chunks) + [EndMarker]
    {
      dest.Write(EndMarker);
    }

    /** `_write_header`: the overview records, then a newline in ASCII mode. */
    method WriteHeader(dest: OutputFile, binary: bool) returns (r: Outcome)
      modifies dest
      ensures r == if hasOverview then Pass else Fail(NotSet(Overview))
      ensures dest.chunks == old(dest.chunks) +
        if r.Pass? then OverviewRecords(gridshiftDataType, crsFrom, crsTo, |subfiles|) + (if binary then [] else [BlankLine])
        else []
    {
      if !hasOverview {
        return Fail(NotSet(Overview));
      }
      // the eleven `output_file.write` calls, in the order of OverviewRecords
      var h := OverviewRecords(gridshiftDataType, crsFrom, crsTo, |subfiles|);
      for i := 0 to 11
        invariant dest.chunks == old(dest.chunks) + h[..i]
      {
        dest.Write(h[i]);
        assert h[..i + 1] == h[..i] + [h[i]];
      }
      assert h[..11] == h;
      if !binary {
        dest.Write(BlankLine);
      }
      r := Pass;
    }
  }
}
