/**
 * One NTv2 subfile (`NTv2SubFile` of ntv2writer.py): a builder with three
 * independent gates (limits, increments, dates), a grid-point count derived
 * from the extent and the increments, the list of grid-shift records, and
 * the write that emits the 11-record subfile header and one row per shift.
 *
 * `SubFileData` is the value of a subfile's state; the class methods are
 * specified by it, and the records a write emits are functions of it.
 */
module SubFiles {
  import opened Failures
  import opened Codec

  /** `BoundingBox(north, south, west, east)`, in the file's coordinate unit. */
  datatype BoundingBox = BoundingBox(north: real, south: real, west: real, east: real)

  datatype CalendarDate = CalendarDate(day: int, month: int, year: int)

  /** The Gregorian length of a month, as Python's `date` checks it. */
  function DaysInMonth(month: int, year: int): int
  {
    if month == 2 then
      (if year % 4 == 0 && (year % 100 != 0 || year % 400 == 0) then 29 else 28)
    else if month == 4 || month == 6 || month == 9 || month == 11 then 30
    else 31
  }

  /** A calendar date whose `%d%m%Y` rendering is eight characters. */
  type Date = d: CalendarDate | 1 <= d.month <= 12 && 1 <= d.day <= DaysInMonth(d.month, d.year) && 1000 <= d.year <= 9999
    witness CalendarDate(1, 1, 2000)

  /** `date.strftime("%d%m%Y")`. */
  function DateText(d: Date): (r: string)
    ensures |r| == 8 && forall i :: 0 <= i < 8 ==> IsDigit(r[i])
  {
    FixedDigits(d.day, 2) + FixedDigits(d.month, 2) + FixedDigits(d.year, 4)
  }

  /** The day, month and year can be read back from the rendered date. */
  lemma DateTextRoundTrip(d: Date)
    ensures ParseDigits(DateText(d)[..2]) == d.day
    ensures ParseDigits(DateText(d)[2..4]) == d.month
    ensures ParseDigits(DateText(d)[4..]) == d.year
  {
    var t := DateText(d);
    assert t[..2] == FixedDigits(d.day, 2);
    assert t[2..4] == FixedDigits(d.month, 2);
    assert t[4..] == FixedDigits(d.year, 4);
    FixedDigitsRoundTrip(d.day, 2);
    FixedDigitsRoundTrip(d.month, 2);
    FixedDigitsRoundTrip(d.year, 4);
  }

  /** One grid node: latitude and longitude shift and their accuracies. */
  datatype Shift = Shift(latShift: real, lonShift: real, latAccuracy: real, lonAccuracy: real)

  // ---------------------------------------------------------------------
  // Grid-point count

  function Abs(x: real): real
  {
    if x < 0.0 then -x else x
  }

  /** Python's `int(x)` of a float: truncation toward zero. */
  function Trunc(x: real): (n: int)
    ensures 0.0 <= x ==> 0 <= n && n as real <= x < n as real + 1.0
    ensures x < 0.0 ==> n <= 0 && n as real - 1.0 < x <= n as real
  {
    if x >= 0.0 then x.Floor else -((-x).Floor)
  }

  /** `gs_count` as `set_coord_increment` computes it:
      `int(|north - south| / lat_inc + 1) * int(|east - west| / long_inc + 1)`,
      where a zero increment raises ZeroDivisionError. */
  function GridCount(box: BoundingBox, latInc: real, longInc: real): (r: Result<int>)
    ensures r.Failure? <==> latInc == 0.0 || longInc == 0.0
    ensures r.Failure? ==> r.error == DivisionByZero
  {
    if latInc == 0.0 || longInc == 0.0 then Failure(DivisionByZero)
    else Success(Trunc(Abs(box.north - box.south) / latInc + 1.0) * Trunc(Abs(box.east - box.west) / longInc + 1.0))
  }

  /** `n` grid nodes spaced `inc` apart fit in `span`, and `n + 1` would not. */
  ghost predicate SpansAxis(n: int, span: real, inc: real)
  {
    (n - 1) as real * inc <= span < n as real * inc
  }

  lemma MulMonotone(a: real, b: real, c: real)
    requires a <= b && c > 0.0
    ensures a * c <= b * c
  {
  }

  lemma MulCancel(a: real, b: real, c: real)
    requires c > 0.0 && a * c < b * c
    ensures a < b
  {
  }

  /** Along one axis, the truncated count is the number of nodes that fit. */
  lemma AxisCountSpans(span: real, inc: real)
    requires span >= 0.0 && inc > 0.0
    ensures Trunc(span / inc + 1.0) == (span / inc).Floor + 1
    ensures SpansAxis(Trunc(span / inc + 1.0), span, inc)
  {
    var q := span / inc;
    var n := Trunc(q + 1.0);
    assert n == (q + 1.0).Floor;
    assert (n - 1) as real <= q < n as real;
    assert q * inc == span;
    MulMonotone((n - 1) as real, q, inc);
    assert q * inc < n as real * inc;
  }

  /** At most one node count fits an axis exactly. */
  lemma SpansAxisUnique(m: int, n: int, span: real, inc: real)
    requires inc > 0.0 && SpansAxis(m, span, inc) && SpansAxis(n, span, inc)
    ensures m == n
  {
    MulCancel((m - 1) as real, n as real, inc);
    MulCancel((n - 1) as real, m as real, inc);
  }

  /** For positive increments, `gs_count` is the product of the per-axis node
      counts `floor(span / inc) + 1`, each the unique count that fits its axis. */
  lemma GridCountOfPositiveIncrements(box: BoundingBox, latInc: real, longInc: real, rows: int, columns: int)
    requires latInc > 0.0 && longInc > 0.0
    requires SpansAxis(rows, Abs(box.north - box.south), latInc)
    requires SpansAxis(columns, Abs(box.east - box.west), longInc)
    ensures rows == (Abs(box.north - box.south) / latInc).Floor + 1 >= 1
    ensures columns == (Abs(box.east - box.west) / longInc).Floor + 1 >= 1
    ensures GridCount(box, latInc, longInc) == Success(rows * columns)
  {
    var latSpan, longSpan := Abs(box.north - box.south), Abs(box.east - box.west);
    AxisCountSpans(latSpan, latInc);
    AxisCountSpans(longSpan, longInc);
    SpansAxisUnique(rows, Trunc(latSpan / latInc + 1.0), latSpan, latInc);
    SpansAxisUnique(columns, Trunc(longSpan / longInc + 1.0), longSpan, longInc);
  }

  // ---------------------------------------------------------------------
  // The state of a subfile, as a value

  datatype SubFileData = SubFileData(
    name: string, parent: string,
    bboxSet: bool, bbox: BoundingBox,
    incSet: bool, latInc: real, longInc: real,
    gsCount: int,
    datesSet: bool, created: Date, updated: Date,
    gsList: seq<Shift>)

  /** `NTv2SubFile(name, parent)`: no gate set, `gs_count = 0`, no records.
      The extent, increments and dates hold placeholders that are read only
      once their gate is set. */
  function NewSubFile(name: string, parent: string): (d: SubFileData)
    ensures d.name == name && d.parent == parent
    ensures !d.bboxSet && !d.incSet && !d.datesSet && d.gsCount == 0 && d.gsList == []
  {
    SubFileData(name, parent, false, BoundingBox(0.0, 0.0, 0.0, 0.0), false, 0.0, 0.0, 0,
                false, CalendarDate(1, 1, 2000), CalendarDate(1, 1, 2000), [])
  }

  /** The error `_write_header` raises, checking in its order. */
  function HeaderError(d: SubFileData): (e: Option<Error>)
    ensures e.None? <==> d.bboxSet && d.incSet && d.datesSet && d.gsCount != 0
  {
    if !d.bboxSet then Some(NotSet(Limits))
    else if !d.incSet then Some(NotSet(Increments))
    else if !d.datesSet then Some(NotSet(Dates))
    else if d.gsCount == 0 then Some(EmptyGrid)
    else None
  }

  /** The error `write_to_file` raises, checking in its order: limits,
      increments, dates, too few records, then `_write_header`'s zero count. */
  function SubWriteError(d: SubFileData): (e: Option<Error>)
    ensures e.None? <==> d.bboxSet && d.incSet && d.datesSet && |d.gsList| >= d.gsCount && d.gsCount != 0
    ensures e.None? ==> HeaderError(d).None?
  {
    if !d.bboxSet then Some(NotSet(Limits))
    else if !d.incSet then Some(NotSet(Increments))
    else if !d.datesSet then Some(NotSet(Dates))
    else if |d.gsList| < d.gsCount then Some(MissingShifts(|d.gsList|, d.gsCount))
    else HeaderError(d)
  }

  /** The 11 header records of `_write_header`, in their on-disk order. */
  function HeaderRecords(d: SubFileData): (h: seq<Chunk>)
    ensures |h| == 11
  {
    [ Record("SUB_NAME", Text(d.name), "s"),
      Record("PARENT", Text(d.parent), "s"),
      Record("CREATED ", Text(DateText(d.created)), "s"),
      Record("UPDATED ", Text(DateText(d.updated)), "s"),
      Record("S_LAT", Num(d.bbox.south), "f"),
      Record("N_LAT", Num(d.bbox.north), "f"),
      Record("E_LONG", Num(-d.bbox.east), "f"),
      Record("W_LONG", Num(-d.bbox.west), "f"),
      Record("LAT_INC", Num(d.latInc), "f"),
      Record("LONG_INC", Num(d.longInc), "f"),
      Record("GS_COUNT", Int(d.gsCount), "i") ]
  }

  /** The header records, then `_write_header`'s newline in ASCII mode. */
  function SubHeader(d: SubFileData, binary: bool): (h: seq<Chunk>)
    ensures |h| == if binary then 11 else 12
  {
    HeaderRecords(d) + (if binary then [] else [BlankLine])
  }

  /** `_write_record`: an anonymous row of four floats. */
  function RowChunk(s: Shift): Chunk
  {
    Record("RECORD", Quad(s.latShift, s.lonShift, s.latAccuracy, s.lonAccuracy), "f")
  }

  function Rows(gs: seq<Shift>): (r: seq<Chunk>)
    ensures |r| == |gs| && forall i :: 0 <= i < |gs| ==> r[i] == RowChunk(gs[i])
  {
    seq(|gs|, i requires 0 <= i < |gs| => RowChunk(gs[i]))
  }

  lemma RowsStep(prefix: seq<Chunk>, gs: seq<Shift>, i: nat)
    requires i < |gs|
    ensures prefix + Rows(gs[..i + 1]) == prefix + Rows(gs[..i]) + [RowChunk(gs[i])]
  {
    assert Rows(gs[..i + 1]) == Rows(gs[..i]) + [RowChunk(gs[i])];
  }

  /** Everything a successful `write_to_file` emits: header, one row per
      record in list order, and a separating newline in ASCII mode. */
  function SubImage(d: SubFileData, binary: bool): (r: seq<Chunk>)
    ensures |r| == |d.gsList| + if binary then 11 else 13
  {
    SubHeader(d, binary) + Rows(d.gsList) + (if binary then [] else [BlankLine])
  }

  /** The image as the writer appends it: header, rows, then the newline. */
  lemma SubImageAfter(prefix: seq<Chunk>, d: SubFileData, binary: bool)
    ensures prefix + SubImage(d, binary) ==
      prefix + SubHeader(d, binary) + Rows(d.gsList) + (if binary then [] else [BlankLine])
  {
  }

  // ---------------------------------------------------------------------
  // Reading the emitted records back

  predicate IsRow(c: Chunk) {
    c.Record? && c.name == "RECORD" && c.value.Quad?
  }

  /** The grid-shift row a chunk carries, if it is one. */
  function RowOf(c: Chunk): seq<Shift>
  {
    if IsRow(c) then [Shift(c.value.a, c.value.b, c.value.c, c.value.d)] else []
  }

  /** The grid-shift rows in a record sequence, in order. */
  function RowsOf(cs: seq<Chunk>): seq<Shift>
  {
    if cs == [] then [] else RowOf(cs[0]) + RowsOf(cs[1..])
  }

  lemma {:induction false} RowsOfAppend(a: seq<Chunk>, b: seq<Chunk>)
    ensures RowsOf(a + b) == RowsOf(a) + RowsOf(b)
  {
    if a == [] {
      assert a + b == b;
    } else {
      var ab := a + b;
      assert ab[0] == a[0];
      assert ab[1..] == a[1..] + b;
      RowsOfAppend(a[1..], b);
      assert RowsOf(ab) == RowOf(a[0]) + (RowsOf(a[1..]) + RowsOf(b));
    }
  }

  lemma {:induction false} RowsOfNoRows(cs: seq<Chunk>)
    requires forall i :: 0 <= i < |cs| ==> !IsRow(cs[i])
    ensures RowsOf(cs) == []
  {
    if cs != [] {
      assert forall i :: 0 <= i < |cs| - 1 ==> cs[1..][i] == cs[i + 1];
      RowsOfNoRows(cs[1..]);
    }
  }

  lemma {:induction false} RowsOfRows(gs: seq<Shift>)
    ensures RowsOf(Rows(gs)) == gs
  {
    if gs != [] {
      assert Rows(gs)[1..] == Rows(gs[1..]);
      RowsOfRows(gs[1..]);
    }
  }

  /** A reader recovers exactly the subfile's records, in insertion order. */
  lemma SubImageRows(d: SubFileData, binary: bool)
    ensures RowsOf(SubImage(d, binary)) == d.gsList
  {
    var h := SubHeader(d, binary);
    var tail: seq<Chunk> := if binary then [] else [BlankLine];
    RowsOfNoRows(h);
    RowsOfNoRows(tail);
    RowsOfRows(d.gsList);
    RowsOfAppend(h, Rows(d.gsList));
    RowsOfAppend(h + Rows(d.gsList), tail);
  }

  /** The value of the first named record called `name`, as a reader finds it. */
  function FieldValue(cs: seq<Chunk>, name: string): Option<Value>
  {
    if cs == [] then None
    else if cs[0].Record? && cs[0].name == name then Some(cs[0].value)
    else FieldValue(cs[1..], name)
  }

  lemma {:induction false} FieldValueSkip(cs: seq<Chunk>, name: string, k: nat)
    requires k <= |cs|
    requires forall i :: 0 <= i < k ==> !(cs[i].Record? && cs[i].name == name)
    ensures FieldValue(cs, name) == FieldValue(cs[k..], name)
  {
    if k > 0 {
      assert forall i :: 0 <= i < k - 1 ==> cs[1..][i] == cs[i + 1];
      FieldValueSkip(cs[1..], name, k - 1);
      assert cs[1..][k - 1..] == cs[k..];
    }
  }

  lemma {:induction false} FieldValueAppend(a: seq<Chunk>, b: seq<Chunk>, name: string)
    requires FieldValue(a, name).Some?
    ensures FieldValue(a + b, name) == FieldValue(a, name)
  {
    if !(a[0].Record? && a[0].name == name) {
      assert (a + b)[1..] == a[1..] + b;
      FieldValueAppend(a[1..], b, name);
    }
  }

  /** The field `name` of a record sequence is its first record of that name,
      whatever follows. */
  lemma FieldAt(h: seq<Chunk>, rest: seq<Chunk>, name: string, k: nat)
    requires k < |h| && h[k].Record? && h[k].name == name
    requires forall i :: 0 <= i < k ==> !(h[i].Record? && h[i].name == name)
    ensures FieldValue(h + rest, name) == Some(h[k].value)
  {
    FieldValueSkip(h, name, k);
    assert FieldValue(h[k..], name) == Some(h[k].value);
    FieldValueAppend(h, rest, name);
  }

  /** A reader of a written subfile finds the latitude limits as stored ... */
  lemma SubImageLatitudes(d: SubFileData, binary: bool)
    ensures FieldValue(SubImage(d, binary), "S_LAT") == Some(Num(d.bbox.south))
    ensures FieldValue(SubImage(d, binary), "N_LAT") == Some(Num(d.bbox.north))
  {
    var h := HeaderRecords(d);
    var rest := SubImage(d, binary)[11..];
    assert SubImage(d, binary) == h + rest;
    FieldAt(h, rest, "S_LAT", 4);
    FieldAt(h, rest, "N_LAT", 5);
  }

  /** ... the longitude limits sign-negated, since NTv2 counts longitude
      positive westward ... */
  lemma SubImageLongitudes(d: SubFileData, binary: bool)
    ensures FieldValue(SubImage(d, binary), "E_LONG") == Some(Num(-d.bbox.east))
    ensures FieldValue(SubImage(d, binary), "W_LONG") == Some(Num(-d.bbox.west))
  {
    var h := HeaderRecords(d);
    var rest := SubImage(d, binary)[11..];
    assert SubImage(d, binary) == h + rest;
    FieldAt(h, rest, "E_LONG", 6);
    FieldAt(h, rest, "W_LONG", 7);
  }

  /** ... and the record count as computed by set_coord_increment. */
  lemma SubImageCount(d: SubFileData, binary: bool)
    ensures FieldValue(SubImage(d, binary), "GS_COUNT") == Some(Int(d.gsCount))
  {
    var h := HeaderRecords(d);
    var rest := SubImage(d, binary)[11..];
    assert SubImage(d, binary) == h + rest;
    FieldAt(h, rest, "GS_COUNT", 10);
  }

  // ---------------------------------------------------------------------
  // The builder object

  class NTv2SubFile {
    const name: string
    const parent: string
    var bboxSet: bool
    var incSet: bool
    var datesSet: bool
    var gsCount: int
    var gsList: seq<Shift>
    var boundingBox: BoundingBox
    var latIncrease: real
    var longIncrease: real
    var dateCreated: Date
    var dateUpdated: Date

    function Model(): SubFileData
      reads this
    {
      SubFileData(name, parent, bboxSet, boundingBox, incSet, latIncrease, longIncrease,
                  gsCount, datesSet, dateCreated, dateUpdated, gsList)
    }

    constructor (name: string, parent: string)
      ensures Model() == NewSubFile(name, parent)
    {
      this.name := name;
      this.parent := parent;
      bboxSet, incSet, datesSet := false, false, false;
      gsCount, gsList := 0, [];
      boundingBox := BoundingBox(0.0, 0.0, 0.0, 0.0);
      latIncrease, longIncrease := 0.0, 0.0;
      dateCreated, dateUpdated := CalendarDate(1, 1, 2000), CalendarDate(1, 1, 2000);
    }

    /** `set_limits`: refused once set, unless `overwrite`. */
    method SetLimits(box: BoundingBox, overwrite: bool) returns (r: Outcome)
      modifies this
      ensures r.Fail? <==> old(bboxSet) && !overwrite
      ensures r.Fail? ==> r.error == AlreadySet(Limits) && Model() == old(Model())
      ensures r.Pass? ==> Model() == old(Model()).(bboxSet := true, bbox := box)
    {
      if bboxSet && !overwrite {
        return Fail(AlreadySet(Limits));
      }
      boundingBox := box;
      bboxSet := true;
      r := Pass;
    }

    /** `set_coord_increment`: needs the limits; refused once set, unless
        `overwrite`. The increments and the gate are stored before the count
        is computed, so a zero increment raises with them already stored and
        `gs_count` unchanged. The records are kept as they are. */
    method SetCoordIncrement(latIncrement: real, longIncrement: real, overwrite: bool) returns (r: Outcome)
      modifies this
      ensures !old(bboxSet) ==> r == Fail(NotSet(Limits)) && Model() == old(Model())
      ensures old(bboxSet) && old(incSet) && !overwrite ==>
        r == Fail(AlreadySet(Increments)) && Model() == old(Model())
      ensures old(bboxSet) && (!old(incSet) || overwrite) ==>
        var g := GridCount(old(boundingBox), latIncrement, longIncrement);
        && r == (if g.Success? then Pass else Fail(g.error))
        && Model() == old(Model()).(incSet := true, latInc := latIncrement, longInc := longIncrement,
                                    gsCount := if g.Success? then g.value else old(gsCount))
    {
      if !bboxSet {
        return Fail(NotSet(Limits));
      }
      if incSet && !overwrite {
        return Fail(AlreadySet(Increments));
      }
      latIncrease := latIncrement;
      longIncrease := longIncrement;
      incSet := true;
      var g := GridCount(boundingBox, latIncrease, longIncrease);
      match g
      case Failure(e) =>
        r := Fail(e);
      case Success(n) =>
        gsCount := n;
        r := Pass;
    }

    /** `set_dates`: refused once set, unless `overwrite`; the update date
        defaults to the creation date. */
    method SetDates(createDate: Date, updateDate: Option<Date>, overwrite: bool) returns (r: Outcome)
      modifies this
      ensures r.Fail? <==> old(datesSet) && !overwrite
      ensures r.Fail? ==> r.error == AlreadySet(Dates) && Model() == old(Model())
      ensures r.Pass? ==> Model() == old(Model()).(datesSet := true, created := createDate,
                                                   updated := if updateDate.None? then createDate else updateDate.value)
    {
      if datesSet && !overwrite {
        return Fail(AlreadySet(Dates));
      }
      dateCreated := createDate;
      if updateDate.None? {
        dateUpdated := dateCreated;
      } else {
        dateUpdated := updateDate.value;
      }
      datesSet := true;
      r := Pass;
    }

    /** `set_gridshifts`: needs limits and increments; refuses to replace a
        non-empty list unless `overwrite`; refuses an array shorter than
        `gs_count`. A longer array is accepted whole. */
    method SetGridshifts(gridShiftArray: seq<Shift>, overwrite: bool) returns (r: Outcome)
      modifies this
      ensures r.Pass? <==> old(bboxSet) && old(incSet) && (old(gsList) == [] || overwrite)
                           && |gridShiftArray| >= old(gsCount)
      ensures (!old(bboxSet) || !old(incSet)) ==> r == Fail(NotSet(LimitsAndIncrements))
      ensures old(bboxSet) && old(incSet) && old(gsList) != [] && !overwrite ==> r == Fail(AlreadySet(Shifts))
      ensures old(bboxSet) && old(incSet) && (old(gsList) == [] || overwrite) && |gridShiftArray| < old(gsCount) ==>
        r == Fail(InsufficientData(old(gsCount)))
      ensures r.Fail? ==> Model() == old(Model())
      ensures r.Pass? ==> Model() == old(Model()).(gsList := gridShiftArray) && |gsList| >= gsCount
    {
      if !bboxSet || !incSet {
        return Fail(NotSet(LimitsAndIncrements));
      }
      if gsList != [] && !overwrite {
        return Fail(AlreadySet(Shifts));
      }
      if |gridShiftArray| < gsCount {
        return Fail(InsufficientData(gsCount));
      }
      gsList := gridShiftArray;
      r := Pass;
    }

    /** `clear_gridshifts`: empties the list and nothing else. */
    method ClearGridshifts()
      modifies this
      ensures Model() == old(Model()).(gsList := [])
    {
      gsList := [];
    }

    /** `add_gridshift`: appends one record unless the list already holds
        `gs_count` or more; appending never takes the list past `gs_count`. */
    method AddGridshift(latitudeShift: real, longitudeShift: real,
                        latitudeAccuracy: real, longitudeAccuracy: real) returns (r: Outcome)
      modifies this
      ensures r.Pass? <==> old(|gsList|) + 1 <= old(gsCount)
      ensures r.Fail? ==> r.error == CapacityExceeded && Model() == old(Model())
      ensures r.Pass? ==>
        && Model() == old(Model()).(gsList := old(gsList) + [Shift(latitudeShift, longitudeShift, latitudeAccuracy, longitudeAccuracy)])
        && |gsList| <= gsCount
      ensures old(|gsList|) <= old(gsCount) ==> |gsList| <= gsCount
    {
      if |gsList| + 1 > gsCount {
        return Fail(CapacityExceeded);
      }
      gsList := gsList + [Shift(latitudeShift, longitudeShift, latitudeAccuracy, longitudeAccuracy)];
      r := Pass;
    }

    /** `write_to_file`: checks the gates, then writes the header and one row
        per record; either raises having written nothing, or writes the
        whole subfile image. */
    method WriteToFile(out: OutputFile, binary: bool) returns (r: Outcome)
      modifies out
      ensures r == match SubWriteError(old(Model())) case Some(e) => Fail(e) case None => Pass
      ensures out.chunks == old(out.chunks) + if r.Pass? then SubImage(old(Model()), binary) else []
    {
      if !bboxSet {
        return Fail(NotSet(Limits));
      }
      if !incSet {
        return Fail(NotSet(Increments));
      }
      if !datesSet {
        return Fail(NotSet(Dates));
      }
      if |gsList| < gsCount {
        return Fail(MissingShifts(|gsList|, gsCount));
      }
      ghost var d := Model();
      r := WriteHeader(out, binary);
      if r.Fail? {
        return;
      }
      ghost var header := out.chunks;
      for i := 0 to |gsList|
        invariant out.chunks == header + Rows(d.gsList[..i])
      {
        WriteRecord(out, gsList[i]);
        RowsStep(header, d.gsList, i);
      }
      assert d.gsList[..|gsList|] == d.gsList;
      if !binary {
        out.Write(BlankLine);
      }
      SubImageAfter(old(out.chunks), d, binary);
    }

    /** `_write_header`: its own gate checks, then the 11 header records. */
    method WriteHeader(out: OutputFile, binary: bool) returns (r: Outcome)
      modifies out
      ensures r == match HeaderError(old(Model())) case Some(e) => Fail(e) case None => Pass
      ensures out.chunks == old(out.chunks) + if r.Pass? then SubHeader(old(Model()), binary) else []
    {
      if !bboxSet {
        return Fail(NotSet(Limits));
      }
      if !incSet {
        return Fail(NotSet(Increments));
      }
      if !datesSet {
        return Fail(NotSet(Dates));
      }
      if gsCount == 0 {
        return Fail(EmptyGrid);
      }
      // the eleven `output_file.write` calls, in the order of HeaderRecords
      var h := HeaderRecords(Model());
      for i := 0 to 11
        invariant out.chunks == old(out.chunks) + h[..i]
      {
        out.Write(h[i]);
        assert h[..i + 1] == h[..i] + [h[i]];
      }
      assert h[..11] == h;
      if !binary {
        out.Write(BlankLine);
      }
      r := Pass;
    }

    /** `_write_record`: one anonymous row. */
    method WriteRecord(out: OutputFile, s: Shift)
      modifies out
      ensures out.chunks == old(out.chunks) + [RowChunk(s)]
    {
      out.Write(Record("RECORD", Quad(s.latShift, s.lonShift, s.latAccuracy, s.lonAccuracy), "f"));
    }
  }
}
