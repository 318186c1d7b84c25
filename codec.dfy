/**
 * The NTv2 record encoder: `_format_8bit_str` and `_format_ntv2_record`
 * of ntv2writer.py, the end-of-file trailer, and the output file that the
 * writers append records to.
 *
 * The writer is Python 2 code, where `str` is a byte string; here a
 * `string` stands for such a byte string, one `char` per byte.
 */
module Codec {
  import opened Failures

  // ---------------------------------------------------------------------
  // Padding

  /** `n` copies of `c`: the space fill of a left-justified field, or the
      NUL bytes of struct padding. */
  function Fill(n: nat, c: char): (r: string)
    ensures |r| == n && forall i :: 0 <= i < n ==> r[i] == c
  {
    seq(n, _ => c)
  }

  /** `"{0:<8}".format(s[:8])`: the first eight characters of `s`,
      left-justified and filled with spaces to exactly eight. */
  function Pad8(s: string): (r: string)
    ensures |r| == 8
    ensures forall i :: 0 <= i < 8 ==> r[i] == if i < |s| then s[i] else ' '
  {
    if |s| >= 8 then s[..8] else s + Fill(8 - |s|, ' ')
  }

  // ---------------------------------------------------------------------
  // Decimal digits (`str(int(v))` and the `%d%m%Y` date fields)

  function Pow10(w: nat): (p: nat)
    ensures p >= 1
  {
    if w == 0 then 1 else 10 * Pow10(w - 1)
  }

  predicate IsDigit(c: char) {
    '0' <= c <= '9'
  }

  function DigitChar(d: int): (c: char)
    requires 0 <= d < 10
    ensures IsDigit(c) && c as int - '0' as int == d
  {
    ('0' as int + d) as char
  }

  /** The numeric value of a string of decimal digits (the reader's side). */
  function ParseDigits(s: string): int
  {
    if s == [] then 0 else 10 * ParseDigits(s[..|s| - 1]) + (s[|s| - 1] as int - '0' as int)
  }

  /** The `w` low-order decimal digits of `n`, most significant first,
      zero-filled on the left. */
  function FixedDigits(n: nat, w: nat): (r: string)
    ensures |r| == w
    ensures forall i :: 0 <= i < w ==> IsDigit(r[i])
  {
    if w == 0 then [] else FixedDigits(n / 10, w - 1) + [DigitChar(n % 10)]
  }

  lemma {:induction false} FixedDigitsRoundTrip(n: nat, w: nat)
    requires n < Pow10(w)
    ensures ParseDigits(FixedDigits(n, w)) == n
  {
    if w > 0 {
      FixedDigitsRoundTrip(n / 10, w - 1);
      var s := FixedDigits(n, w);
      assert s[..|s| - 1] == FixedDigits(n / 10, w - 1);
    }
  }

  /** The number of decimal digits Python prints for `n`. */
  function NumDigits(n: nat): (w: nat)
    ensures 1 <= w && n < Pow10(w)
    ensures w > 1 ==> Pow10(w - 1) <= n
  {
    if n < 10 then 1 else 1 + NumDigits(n / 10)
  }

  function Decimal(n: nat): (r: string)
    ensures |r| >= 1 && forall i :: 0 <= i < |r| ==> IsDigit(r[i])
    ensures ParseDigits(r) == n
  {
    FixedDigitsRoundTrip(n, NumDigits(n));
    FixedDigits(n, NumDigits(n))
  }

  /** `str(int(v))` for an integer `v`. */
  function IntText(v: int): (r: string)
  {
    if v < 0 then "-" + Decimal(-v) else Decimal(v)
  }

  function ParseInt(s: string): int
  {
    if |s| > 0 && s[0] == '-' then -ParseDigits(s[1..]) else ParseDigits(s)
  }

  lemma ParseSigned(d: string)
    ensures ParseInt(['-'] + d) == -ParseDigits(d)
  {
    assert (['-'] + d)[1..] == d;
  }

  /** Reading back the decimal text of an integer field gives the integer. */
  lemma IntTextRoundTrip(v: int)
    ensures ParseInt(IntText(v)) == v
    ensures |IntText(v)| >= 1
  {
    if v < 0 {
      ParseSigned(Decimal(-v));
    } else {
      assert IsDigit(Decimal(v)[0]);
    }
  }

  // ---------------------------------------------------------------------
  // struct "i": a little-endian two's-complement 32-bit integer

  predicate InInt32(v: int) {
    -0x8000_0000 <= v < 0x8000_0000
  }

  predicate IsByte(c: char) {
    c as int < 0x100
  }

  function PackInt32(v: int): (r: string)
    requires InInt32(v)
    ensures |r| == 4 && forall i :: 0 <= i < 4 ==> IsByte(r[i])
  {
    var u := if v < 0 then v + 0x1_0000_0000 else v;
    [(u % 0x100) as char, (u / 0x100 % 0x100) as char,
     (u / 0x1_0000 % 0x100) as char, (u / 0x100_0000) as char]
  }

  /** struct.unpack("<i", b): the reader's side of PackInt32. */
  function UnpackInt32(b: string): int
    requires |b| == 4
  {
    var u := b[0] as int + 0x100 * (b[1] as int + 0x100 * (b[2] as int + 0x100 * b[3] as int));
    if u >= 0x8000_0000 then u - 0x1_0000_0000 else u
  }

  lemma PackInt32RoundTrip(v: int)
    requires InInt32(v)
    ensures UnpackInt32(PackInt32(v)) == v
  {
    var u := if v < 0 then v + 0x1_0000_0000 else v;
    var u1 := u / 0x100;
    var u2 := u1 / 0x100;
    assert u / 0x1_0000 == u2;
    assert u / 0x100_0000 == u2 / 0x100;
    assert u == u % 0x100 + 0x100 * (u1 % 0x100 + 0x100 * (u2 % 0x100 + 0x100 * (u2 / 0x100)));
  }

  // ---------------------------------------------------------------------
  // Records

  /** The Python value handed to `_format_ntv2_record`. */
  datatype Value =
    | Text(s: string)                         // a str
    | Int(n: int)                             // an int
    | Num(x: real)                            // a float
    | Quad(a: real, b: real, c: real, d: real) // the 4-element list of a RECORD row

  /** One `output_file.write` call of the writer, before encoding. */
  datatype Chunk =
    | Record(name: string, value: Value, kind: string) // `_format_ntv2_record(name, value, kind, ...)`
    | EndMarker                                        // `_write_eof`
    | BlankLine                                        // the bare "\n" written in ASCII mode

  /** The float conversions the encoder delegates to Python: the IEEE-754
      packings of struct "d" and "f" and the texts of "{0:4f}" and "{0:6f}". */
  datatype FloatFormat = FloatFormat(
    packDouble: real -> string,
    packSingle: real -> string,
    fixed4: real -> string,
    fixed6: real -> string)

  /** The widths the struct module guarantees: 8 bytes per double, 4 per single. */
  ghost predicate Sound(fmt: FloatFormat) {
    && (forall x :: |fmt.packDouble(x)| == 8)
    && (forall x :: |fmt.packSingle(x)| == 4)
  }

  /** The inputs `_format_ntv2_record` encodes without raising. */
  predicate Encodable(name: string, value: Value, kind: string, binary: bool) {
    if name == "RECORD" then value.Quad?
    else if kind == "s" then value.Text?
    else if kind == "i" then value.Int? && (binary ==> InInt32(value.n))
    else if kind == "f" then value.Num?
    else false
  }

  /** `_format_ntv2_record(name, value, type_, binary_format)`. */
  function FormatRecord(name: string, value: Value, kind: string, binary: bool, fmt: FloatFormat): (r: Result<string>)
    ensures r.Success? <==> Encodable(name, value, kind, binary)
    ensures name != "RECORD" && kind != "s" && kind != "i" && kind != "f" ==> r == Failure(UnknownRecordFormat)
    ensures Sound(fmt) && binary && r.Success? ==> |r.value| == 16
    ensures !binary && r.Success? ==> |r.value| > 0 && r.value[|r.value| - 1] == '\n'
    ensures name != "RECORD" && r.Success? ==> |r.value| >= 8 && r.value[..8] == Pad8(name)
  {
    if name == "RECORD" then
      match value
      case Quad(a, b, c, d) =>
        if binary then Success(fmt.packSingle(a) + fmt.packSingle(b) + fmt.packSingle(c) + fmt.packSingle(d))
        else Success(fmt.fixed6(a) + " " + fmt.fixed6(b) + " " + fmt.fixed6(c) + " " + fmt.fixed6(d) + "\n")
      case _ => Failure(BadValue)
    else if kind == "s" then
      match value
      case Text(s) => if binary then Success(Pad8(name) + Pad8(s)) else Success(Pad8(name) + " " + Pad8(s) + "\n")
      case _ => Failure(BadValue)
    else if kind == "i" then
      match value
      case Int(n) =>
        if !binary then Success(Pad8(name) + " " + IntText(n) + "\n")
        else if InInt32(n) then Success(Pad8(name) + PackInt32(n) + Fill(4, '\0'))
        else Failure(IntOutOfRange)
      case _ => Failure(BadValue)
    else if kind == "f" then
      match value
      case Num(x) => if binary then Success(Pad8(name) + fmt.packDouble(x)) else Success(Pad8(name) + " " + fmt.fixed4(x) + "\n")
      case _ => Failure(BadValue)
    else
      Failure(UnknownRecordFormat)
  }

  /** Where a binary record puts its value: the eight bytes after the name
      hold the padded string, the int32 and four NUL bytes, or the double;
      a RECORD row holds its four singles in order. */
  lemma BinaryValueSlot(name: string, value: Value, kind: string, fmt: FloatFormat)
    requires Sound(fmt) && FormatRecord(name, value, kind, true, fmt).Success?
    ensures var t := FormatRecord(name, value, kind, true, fmt).value;
      && |t| == 16
      && (name == "RECORD" ==>
            && t[..4] == fmt.packSingle(value.a) && t[4..8] == fmt.packSingle(value.b)
            && t[8..12] == fmt.packSingle(value.c) && t[12..] == fmt.packSingle(value.d))
      && (name != "RECORD" && kind == "s" ==> t[8..] == Pad8(value.s))
      && (name != "RECORD" && kind == "i" ==>
            UnpackInt32(t[8..12]) == value.n && t[12..] == Fill(4, '\0'))
      && (name != "RECORD" && kind == "f" ==> t[8..] == fmt.packDouble(value.x))
  {
    var t := FormatRecord(name, value, kind, true, fmt).value;
    if name == "RECORD" {
      var a, b, c := fmt.packSingle(value.a), fmt.packSingle(value.b), fmt.packSingle(value.c);
      assert t == a + b + c + fmt.packSingle(value.d);
      assert |a| == 4 && |b| == 4 && |c| == 4;
    } else if kind == "i" {
      assert t == Pad8(name) + PackInt32(value.n) + Fill(4, '\0');
      assert t[8..12] == PackInt32(value.n);
      PackInt32RoundTrip(value.n);
    }
  }

  /** Where an ASCII record puts its value: after the name and one space
      comes the padded string, the decimal int, or the float text, then the
      newline; a RECORD row is its four texts joined by spaces. */
  lemma TextValueSlot(name: string, value: Value, kind: string, fmt: FloatFormat)
    requires FormatRecord(name, value, kind, false, fmt).Success?
    ensures var t := FormatRecord(name, value, kind, false, fmt).value;
      && (name == "RECORD" ==>
            t == fmt.fixed6(value.a) + " " + fmt.fixed6(value.b) + " " + fmt.fixed6(value.c) + " " + fmt.fixed6(value.d) + "\n")
      && (name != "RECORD" ==> |t| >= 10 && t[8] == ' ')
      && (name != "RECORD" && kind == "s" ==> t[9..] == Pad8(value.s) + "\n")
      && (name != "RECORD" && kind == "i" ==> ParseInt(t[9..|t| - 1]) == value.n)
      && (name != "RECORD" && kind == "f" ==> t[9..|t| - 1] == fmt.fixed4(value.x))
  {
    var t := FormatRecord(name, value, kind, false, fmt).value;
    if name != "RECORD" {
      if kind == "s" {
        assert t == Pad8(name) + " " + Pad8(value.s) + "\n";
        assert t[9..] == Pad8(value.s) + "\n";
      } else if kind == "i" {
        var d := IntText(value.n);
        IntTextRoundTrip(value.n);
        assert t == Pad8(name) + " " + d + "\n";
        assert t[9..|t| - 1] == d;
      } else {
        assert t == Pad8(name) + " " + fmt.fixed4(value.x) + "\n";
        assert t[9..|t| - 1] == fmt.fixed4(value.x);
      }
    }
  }

  /** The width of a chunk's binary slot: the struct layouts "<8s8s",
      "<8si4x", "<8sd", "<4f" and "<8s8x" all take 16 bytes. */
  function ByteLength(c: Chunk): nat
  {
    if c.BlankLine? then 1 else 16
  }

  /** `struct.pack("<8s8x", "END    ")`: the seven characters are NUL-padded
      to the 8-byte name slot, then eight NUL pad bytes follow. */
  function EndBytes(): (r: string)
    ensures |r| == 16 && r[..3] == "END"
  {
    "END    " + Fill(9, '\0')
  }

  /** The chunks the encoder accepts: every record of the right type, and
      the END marker and newlines. */
  predicate Accepted(c: Chunk, binary: bool) {
    c.Record? ==> Encodable(c.name, c.value, c.kind, binary)
  }

  function EncodeChunk(c: Chunk, binary: bool, fmt: FloatFormat): (r: Result<string>)
    ensures r.Success? <==> Accepted(c, binary)
    ensures Sound(fmt) && binary && r.Success? ==> |r.value| == ByteLength(c)
  {
    match c
    case Record(name, value, kind) => FormatRecord(name, value, kind, binary, fmt)
    case EndMarker => Success(if binary then EndBytes() else "END")
    case BlankLine => Success("\n")
  }

  /** The first failure of the two, or the concatenation. */
  function Concat(a: Result<string>, b: Result<string>): Result<string>
  {
    match a
    case Failure(e) => Failure(e)
    case Success(x) =>
      match b
      case Failure(e) => Failure(e)
      case Success(y) => Success(x + y)
  }

  function TotalLength(cs: seq<Chunk>): nat
  {
    if cs == [] then 0 else ByteLength(cs[0]) + TotalLength(cs[1..])
  }

  /** The bytes of a whole sequence of writes, or the first error raised. */
  function EncodeAll(cs: seq<Chunk>, binary: bool, fmt: FloatFormat): (r: Result<string>)
    ensures r.Success? <==> forall i :: 0 <= i < |cs| ==> EncodeChunk(cs[i], binary, fmt).Success?
    ensures Sound(fmt) && binary && r.Success? ==> |r.value| == TotalLength(cs)
  {
    if cs == [] then Success("")
    else
      var r := Concat(EncodeChunk(cs[0], binary, fmt), EncodeAll(cs[1..], binary, fmt));
      assert forall i :: 1 <= i < |cs| ==> cs[i] == cs[1..][i - 1];
      r
  }

  lemma {:induction false} TotalLengthAppend(a: seq<Chunk>, b: seq<Chunk>)
    ensures TotalLength(a + b) == TotalLength(a) + TotalLength(b)
  {
    if a == [] {
      assert a + b == b;
    } else {
      assert (a + b)[1..] == a[1..] + b;
      TotalLengthAppend(a[1..], b);
    }
  }

  lemma {:induction false} EncodeAllAppend(a: seq<Chunk>, b: seq<Chunk>, binary: bool, fmt: FloatFormat)
    ensures EncodeAll(a + b, binary, fmt) == Concat(EncodeAll(a, binary, fmt), EncodeAll(b, binary, fmt))
  {
    if a == [] {
      assert a + b == b;
      match EncodeAll(b, binary, fmt)
      case Failure(_) =>
      case Success(y) => assert "" + y == y;
    } else {
      assert (a + b)[1..] == a[1..] + b;
      EncodeAllAppend(a[1..], b, binary, fmt);
      match EncodeChunk(a[0], binary, fmt)
      case Failure(_) =>
      case Success(x) =>
        match EncodeAll(a[1..], binary, fmt)
        case Failure(_) =>
        case Success(y) =>
          match EncodeAll(b, binary, fmt)
          case Failure(_) =>
          case Success(z) => assert x + (y + z) == (x + y) + z;
    }
  }

  /** In binary mode every record slot is 16 bytes wide. */
  lemma {:induction false} BinaryLengthOfRecords(cs: seq<Chunk>)
    requires forall i :: 0 <= i < |cs| ==> !cs[i].BlankLine?
    ensures TotalLength(cs) == 16 * |cs|
  {
    if cs != [] {
      assert forall i :: 0 <= i < |cs| - 1 ==> cs[1..][i] == cs[i + 1];
      BinaryLengthOfRecords(cs[1..]);
    }
  }

  // ---------------------------------------------------------------------
  // The destination file

  /** An open output file: the records written to it so far, in order. */
  class OutputFile {
    var chunks: seq<Chunk>

    constructor ()
      ensures chunks == []
    {
      chunks := [];
    }

    /** `open(name, "wb")` / `open(name, "w")`: creates or truncates. */
    method Open()
      modifies this
      ensures chunks == []
    {
      chunks := [];
    }

    /** `output_file.write(...)`: appends at the end. */
    method Write(c: Chunk)
      modifies this
      ensures chunks == old(chunks) + [c]
    {
      chunks := chunks + [c];
    }
  }
}
