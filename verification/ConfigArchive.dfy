/** `configArchive`: one file `config.json` in the ustar interchange format, and a reader of that
    format ("ustar Interchange Format", pax, POSIX.1-2017 / IEEE Std 1003.1) written independently. */
module ConfigArchive {
  import opened Options

  type Byte = n: nat | n < 256
  type Bytes = seq<Byte>

  const BLOCK := 512
  const MAX_PAYLOAD := 65536
  const ZERO: Byte := 48
  const SPACE: Byte := 32

  function Fill(n: nat, b: Byte): (s: Bytes)
    ensures |s| == n && forall i :: 0 <= i < n ==> s[i] == b
  {
    seq(n, _ => b)
  }

  function Ascii(s: string): (b: Bytes)
    requires forall i :: 0 <= i < |s| ==> (s[i] as int) < 256
    ensures |b| == |s|
  {
    seq(|s|, i requires 0 <= i < |s| => s[i] as int)
  }

  const FILE_NAME: Bytes := Ascii("config.json")
  const MAGIC: Bytes := Ascii("ustar") + [0]
  const VERSION: Bytes := Ascii("00")

  // ---------- octal numbers ----------

  function Pow8(k: nat): nat {
    if k == 0 then 1 else 8 * Pow8(k - 1)
  }

  /** `n.toString(8)`, as ASCII digits. */
  function Octal(n: nat): (digits: Bytes)
    ensures |digits| > 0
  {
    (if n < 8 then [] else Octal(n / 8)) + [ZERO + n % 8]
  }

  /** `padStart(width, '0')`: never truncates. */
  function PadStart(digits: Bytes, width: nat): Bytes {
    if |digits| < width then Fill(width - |digits|, ZERO) + digits else digits
  }

  predicate IsOctal(b: Byte) {
    ZERO <= b < ZERO + 8
  }

  /** A reader's view of a numeric field: octal digits up to the first byte that is none. */
  function ReadOctal(field: Bytes, value: nat): Option<nat>
    decreases |field|
  {
    if field == [] then None
    else if IsOctal(field[0]) then ReadOctal(field[1..], 8 * value + (field[0] - ZERO))
    else if field[0] == 0 || field[0] == SPACE then Some(value)
    else None
  }

  function DigitsValue(digits: Bytes, value: nat): nat
    requires forall i :: 0 <= i < |digits| ==> IsOctal(digits[i])
    decreases |digits|
  {
    if digits == [] then value
    else
      assert IsOctal(digits[0]);
      DigitsValue(digits[1..], 8 * value + (digits[0] - ZERO))
  }

  lemma {:induction false} DigitsValueAppend(digits: Bytes, last: Byte, value: nat)
    requires forall i :: 0 <= i < |digits| ==> IsOctal(digits[i])
    requires IsOctal(last)
    ensures DigitsValue(digits + [last], value) == 8 * DigitsValue(digits, value) + (last - ZERO)
    decreases |digits|
  {
    if digits != [] {
      assert (digits + [last])[1..] == digits[1..] + [last];
      DigitsValueAppend(digits[1..], last, 8 * value + (digits[0] - ZERO));
    }
  }

  lemma {:induction false} OctalReads(n: nat)
    ensures forall i :: 0 <= i < |Octal(n)| ==> IsOctal(Octal(n)[i])
    ensures DigitsValue(Octal(n), 0) == n
  {
    if n >= 8 {
      OctalReads(n / 8);
      DigitsValueAppend(Octal(n / 8), ZERO + n % 8, 0);
    }
  }

  lemma {:induction false} OctalFits(n: nat, k: nat)
    requires k > 0 && n < Pow8(k)
    ensures |Octal(n)| <= k
  {
    if n >= 8 {
      OctalFits(n / 8, k - 1);
    }
  }

  lemma {:induction false} LeadingZeros(digits: Bytes, zeros: nat)
    requires forall i :: 0 <= i < |digits| ==> IsOctal(digits[i])
    ensures DigitsValue(Fill(zeros, ZERO) + digits, 0) == DigitsValue(digits, 0)
  {
    if zeros > 0 {
      assert (Fill(zeros, ZERO) + digits)[1..] == Fill(zeros - 1, ZERO) + digits;
      LeadingZeros(digits, zeros - 1);
    } else {
      assert Fill(0, ZERO) + digits == digits;
    }
  }

  lemma {:induction false} ReadsUpToTerminator(digits: Bytes, rest: Bytes, value: nat)
    requires forall i :: 0 <= i < |digits| ==> IsOctal(digits[i])
    requires rest != [] && (rest[0] == 0 || rest[0] == SPACE)
    ensures ReadOctal(digits + rest, value) == Some(DigitsValue(digits, value))
    decreases |digits|
  {
    if digits == [] {
      assert digits + rest == rest;
    } else {
      assert (digits + rest)[1..] == digits[1..] + rest;
      ReadsUpToTerminator(digits[1..], rest, 8 * value + (digits[0] - ZERO));
    }
  }

  /** A number that fits its width is read back from the padded field. */
  lemma PaddedNumberReads(n: nat, width: nat, rest: Bytes)
    requires width > 0 && n < Pow8(width)
    requires rest != [] && (rest[0] == 0 || rest[0] == SPACE)
    ensures |PadStart(Octal(n), width)| == width
    ensures ReadOctal(PadStart(Octal(n), width) + rest, 0) == Some(n)
  {
    OctalReads(n);
    OctalFits(n, width);
    LeadingZeros(Octal(n), width - |Octal(n)|);
    assert Fill(0, ZERO) + Octal(n) == Octal(n);
    ReadsUpToTerminator(PadStart(Octal(n), width), rest, 0);
  }

  // ---------- writing a buffer ----------

  /** `buffer.write(bytes, offset)`. */
  function Put(buffer: Bytes, offset: nat, bytes: Bytes): (b: Bytes)
    requires offset + |bytes| <= |buffer|
    ensures |b| == |buffer|
    ensures b[offset..offset + |bytes|] == bytes
    ensures forall i :: 0 <= i < |b| && !(offset <= i < offset + |bytes|) ==> b[i] == buffer[i]
  {
    buffer[..offset] + bytes + buffer[offset + |bytes|..]
  }

  /** `octal(n, offset, length)`: zero-padded digits and a NUL. */
  function NumberField(n: nat, length: nat): (b: Bytes)
    requires length > 0
  {
    PadStart(Octal(n), length - 1) + [0]
  }

  function Sum(s: Bytes): nat {
    if s == [] then 0 else s[0] + Sum(s[1..])
  }

  /** The header before its checksum: the checksum field is blank. */
  function BlankHeader(size: nat): (h: Bytes)
    requires size <= MAX_PAYLOAD
    ensures |h| == BLOCK
  {
    FieldWidths(size);
    var h := Put(Fill(BLOCK, 0), 0, FILE_NAME);
    var h := Put(h, 100, NumberField(0x100, 8));
    var h := Put(h, 108, NumberField(10001, 8));
    var h := Put(h, 116, NumberField(10001, 8));
    var h := Put(h, 124, NumberField(size, 12));
    var h := Put(h, 136, NumberField(0, 12));
    var h := Put(h, 148, Fill(8, SPACE));
    var h := Put(h, 156, [ZERO]);
    var h := Put(h, 257, MAGIC);
    Put(h, 263, VERSION)
  }

  lemma Pow8Values()
    ensures Pow8(6) == 262144 && Pow8(7) == 2097152 && Pow8(11) == 8589934592
  {
    assert Pow8(3) == 512;
    assert Pow8(6) == 512 * Pow8(3);
    assert Pow8(9) == 512 * Pow8(6);
  }

  lemma FieldWidths(size: nat)
    requires size <= MAX_PAYLOAD
    ensures |NumberField(0x100, 8)| == 8 && |NumberField(10001, 8)| == 8
    ensures |NumberField(size, 12)| == 12 && |NumberField(0, 12)| == 12
  {
    Pow8Values();
    OctalFits(0x100, 7);
    OctalFits(10001, 7);
    OctalFits(size, 11);
    OctalFits(0, 11);
  }

  lemma {:induction false} SumBound(s: Bytes)
    ensures Sum(s) <= 255 * |s|
  {
    if s != [] {
      SumBound(s[1..]);
    }
  }

  /** The checksum of any header fits the six octal digits that the format gives it. */
  lemma ChecksumFits(header: Bytes)
    requires |header| == BLOCK
    ensures Sum(header) < Pow8(6)
    ensures |PadStart(Octal(Sum(header)), 6)| == 6
  {
    SumBound(header);
    Pow8Values();
    OctalFits(Sum(header), 6);
  }

  function FinalHeader(size: nat): (h: Bytes)
    requires size <= MAX_PAYLOAD
    ensures |h| == BLOCK
  {
    var blank := BlankHeader(size);
    ChecksumFits(blank);
    Put(blank, 148, PadStart(Octal(Sum(blank)), 6) + [0, SPACE])
  }

  function Padding(size: nat): nat {
    (BLOCK - size % BLOCK) % BLOCK + 1024
  }

  function Archive(payload: Bytes): Bytes
    requires |payload| <= MAX_PAYLOAD
  {
    FinalHeader(|payload|) + payload + Fill(Padding(|payload|), 0)
  }

  // ---------- the program ----------

  method Write(buffer: array<Byte>, offset: nat, bytes: Bytes)
    requires offset + |bytes| <= buffer.Length
    modifies buffer
    ensures buffer[..] == Put(old(buffer[..]), offset, bytes)
  {
    forall i | 0 <= i < |bytes| {
      buffer[offset + i] := bytes[i];
    }
  }

  method Checksum(header: array<Byte>) returns (sum: nat)
    ensures sum == Sum(header[..])
  {
    sum := 0;
    var i := header.Length;
    while i > 0
      invariant 0 <= i <= header.Length
      invariant sum == Sum(header[i..])
    {
      i := i - 1;
      assert header[i..][1..] == header[i + 1..];
      sum := header[i] + sum;
    }
    assert header[0..] == header[..];
  }

  /** The payload is the JSON text of the configuration; the header is filled in place. */
  method BuildArchive(payload: Bytes) returns (result: Result<Bytes, string>)
    ensures |payload| > MAX_PAYLOAD <==> result.Err?
    ensures result.Ok? ==> result.value == Archive(payload)
  {
    if |payload| > MAX_PAYLOAD {
      return Err("Service configuration exceeds 64 KiB.");
    }
    FieldWidths(|payload|);
    var header := new Byte[BLOCK](_ => 0);
    assert header[..] == Fill(BLOCK, 0);
    Write(header, 0, FILE_NAME);
    Write(header, 100, NumberField(0x100, 8));
    Write(header, 108, NumberField(10001, 8));
    Write(header, 116, NumberField(10001, 8));
    Write(header, 124, NumberField(|payload|, 12));
    Write(header, 136, NumberField(0, 12));
    Write(header, 148, Fill(8, SPACE));
    Write(header, 156, [ZERO]);
    Write(header, 257, MAGIC);
    Write(header, 263, VERSION);
    assert header[..] == BlankHeader(|payload|);
    ChecksumFits(header[..]);
    var checksum := Checksum(header);
    Write(header, 148, PadStart(Octal(checksum), 6) + [0, SPACE]);
    result := Ok(header[..] + payload + Fill(Padding(|payload|), 0));
  }

  // ---------- an independent reader ----------

  datatype Header = Header(name: Bytes, mode: nat, uid: nat, gid: nat, size: nat, mtime: nat)
  datatype Entry = Entry(header: Header, contents: Bytes)

  /** A name field ends at its first NUL, or at its full width. */
  function UpToNul(field: Bytes): Bytes {
    if field == [] || field[0] == 0 then [] else [field[0]] + UpToNul(field[1..])
  }

  predicate AllZero(s: Bytes) {
    forall i :: 0 <= i < |s| ==> s[i] == 0
  }

  /** The header of a regular file, if it is well formed: magic and version, no name prefix, numeric
      fields, and a checksum that verifies over the header with a blank checksum field. */
  function DecodeHeader(h: Bytes): Option<Header>
    requires |h| == BLOCK
  {
    var mode, uid, gid := ReadOctal(h[100..108], 0), ReadOctal(h[108..116], 0), ReadOctal(h[116..124], 0);
    var size, mtime := ReadOctal(h[124..136], 0), ReadOctal(h[136..148], 0);
    var checksum := ReadOctal(h[148..156], 0);
    if h[257..263] != [117, 115, 116, 97, 114, 0] || h[263..265] != [48, 48] || h[156] != 48 then None
    else if !AllZero(h[345..500]) then None
    else if mode.None? || uid.None? || gid.None? || size.None? || mtime.None? then None
    else if checksum != Some(Sum(h[..148] + Fill(8, 32) + h[156..])) then None
    else Some(Header(UpToNul(h[..100]), mode.value, uid.value, gid.value, size.value, mtime.value))
  }

  /** The entry of an archive with exactly one regular file: whole blocks, contents of the stated size,
      and nothing but the zero fill of the last block and at least two zero blocks behind them. */
  function Decode(archive: Bytes): Option<Entry> {
    if |archive| < BLOCK || |archive| % BLOCK != 0 then None
    else
      match DecodeHeader(archive[..BLOCK])
      case None => None
      case Some(header) =>
        if BLOCK + header.size + 1024 > |archive| || !AllZero(archive[BLOCK + header.size..]) then None
        else Some(Entry(header, archive[BLOCK..BLOCK + header.size]))
  }

  lemma FieldKept(h: Bytes, offset: nat, bytes: Bytes, lo: nat, hi: nat)
    requires offset + |bytes| <= |h| && lo <= hi <= |h|
    requires hi <= offset || offset + |bytes| <= lo
    ensures Put(h, offset, bytes)[lo..hi] == h[lo..hi]
  {
  }

  lemma NumberFieldReads(n: nat, length: nat)
    requires length > 1 && n < Pow8(length - 1)
    ensures ReadOctal(NumberField(n, length), 0) == Some(n)
  {
    PaddedNumberReads(n, length - 1, [0]);
  }

  lemma BlankOwnership(size: nat)
    requires size <= MAX_PAYLOAD
    ensures var h := BlankHeader(size);
      && h[100..108] == NumberField(0x100, 8) && h[108..116] == NumberField(10001, 8)
      && h[116..124] == NumberField(10001, 8)
  {
    FieldWidths(size);
  }

  lemma BlankNumbers(size: nat)
    requires size <= MAX_PAYLOAD
    ensures var h := BlankHeader(size);
      h[124..136] == NumberField(size, 12) && h[136..148] == NumberField(0, 12) && h[148..156] == Fill(8, SPACE)
  {
    FieldWidths(size);
  }

  lemma BlankName(size: nat)
    requires size <= MAX_PAYLOAD
    ensures var h := BlankHeader(size); h[0..11] == FILE_NAME && h[11] == 0
  {
    FieldWidths(size);
    var named := Put(Fill(BLOCK, 0), 0, FILE_NAME);
    assert named[0..11] == FILE_NAME && named[11] == 0;
  }

  lemma BlankBehindVersion(size: nat, i: nat)
    requires size <= MAX_PAYLOAD && 265 <= i < BLOCK
    ensures BlankHeader(size)[i] == 0
  {
    FieldWidths(size);
    assert |MAGIC| == 6 && |VERSION| == 2 && |FILE_NAME| == 11;
  }

  lemma ZeroSlice(h: Bytes, lo: nat, hi: nat)
    requires lo <= hi <= |h| && forall i :: lo <= i < hi ==> h[i] == 0
    ensures AllZero(h[lo..hi])
  {
  }

  lemma BlankTail(size: nat)
    requires size <= MAX_PAYLOAD
    ensures AllZero(BlankHeader(size)[345..500])
  {
    forall i | 345 <= i < 500 ensures BlankHeader(size)[i] == 0 {
      BlankBehindVersion(size, i);
    }
    ZeroSlice(BlankHeader(size), 345, 500);
  }

  lemma BlankMagic(size: nat)
    requires size <= MAX_PAYLOAD
    ensures var h := BlankHeader(size); h[156] == ZERO && h[257..263] == MAGIC && h[263..265] == VERSION
  {
    FieldWidths(size);
    assert |MAGIC| == 6 && |VERSION| == 2;
  }

  lemma {:induction false} NameEnds(name: Bytes, rest: Bytes)
    requires forall i :: 0 <= i < |name| ==> name[i] != 0
    requires rest != [] && rest[0] == 0
    ensures UpToNul(name + rest) == name
  {
    if name == [] {
      assert name + rest == rest;
    } else {
      assert (name + rest)[1..] == name[1..] + rest;
      NameEnds(name[1..], rest);
    }
  }

  /** The numeric fields of the finished header read back as what was put in. */
  lemma HeaderNumbers(size: nat)
    requires size <= MAX_PAYLOAD
    ensures var h := FinalHeader(size);
      && ReadOctal(h[100..108], 0) == Some(0x100)
      && ReadOctal(h[108..116], 0) == Some(10001) && ReadOctal(h[116..124], 0) == Some(10001)
      && ReadOctal(h[124..136], 0) == Some(size) && ReadOctal(h[136..148], 0) == Some(0)
  {
    var blank, field := BlankHeader(size), PadStart(Octal(Sum(BlankHeader(size))), 6) + [0, SPACE];
    ChecksumFits(blank);
    BlankOwnership(size);
    BlankNumbers(size);
    Pow8Values();
    FieldKept(blank, 148, field, 100, 108);
    FieldKept(blank, 148, field, 108, 116);
    FieldKept(blank, 148, field, 116, 124);
    FieldKept(blank, 148, field, 124, 136);
    FieldKept(blank, 148, field, 136, 148);
    NumberFieldReads(0x100, 8);
    NumberFieldReads(10001, 8);
    NumberFieldReads(size, 12);
    NumberFieldReads(0, 12);
  }

  /** The stored checksum is the sum over the header with a blank checksum field. */
  lemma HeaderChecksum(size: nat)
    requires size <= MAX_PAYLOAD
    ensures var h := FinalHeader(size);
      ReadOctal(h[148..156], 0) == Some(Sum(h[..148] + Fill(8, 32) + h[156..]))
  {
    var blank, h := BlankHeader(size), FinalHeader(size);
    ChecksumFits(blank);
    BlankNumbers(size);
    assert h[148..156] == PadStart(Octal(Sum(blank)), 6) + [0, SPACE];
    PaddedNumberReads(Sum(blank), 6, [0, SPACE]);
    assert blank == blank[..148] + blank[148..156] + blank[156..];
    assert h[..148] == blank[..148] && h[156..] == blank[156..];
  }

  lemma NameReads(h: Bytes, name: Bytes)
    requires |name| < 100 <= |h| && h[..|name|] == name && h[|name|] == 0
    requires forall i :: 0 <= i < |name| ==> name[i] != 0
    ensures UpToNul(h[..100]) == name
  {
    assert h[..100] == name + h[|name|..100];
    NameEnds(name, h[|name|..100]);
  }

  lemma FileNameText()
    ensures |FILE_NAME| == 11 && forall i :: 0 <= i < 11 ==> FILE_NAME[i] != 0
  {
  }

  lemma HeaderName(size: nat)
    requires size <= MAX_PAYLOAD
    ensures UpToNul(FinalHeader(size)[..100]) == FILE_NAME
  {
    var blank, h := BlankHeader(size), FinalHeader(size);
    ChecksumFits(blank);
    BlankName(size);
    FileNameText();
    assert forall i :: 0 <= i < 12 ==> h[i] == blank[i];
    assert h[..11] == blank[0..11];
    NameReads(h, FILE_NAME);
  }

  /** Writing the checksum leaves every other field of the header as it was. */
  lemma FinalKeeps(size: nat, lo: nat, hi: nat)
    requires size <= MAX_PAYLOAD && 156 <= lo <= hi <= BLOCK
    ensures FinalHeader(size)[lo..hi] == BlankHeader(size)[lo..hi]
  {
    var blank := BlankHeader(size);
    ChecksumFits(blank);
    FieldKept(blank, 148, PadStart(Octal(Sum(blank)), 6) + [0, SPACE], lo, hi);
  }

  lemma HeaderType(size: nat)
    requires size <= MAX_PAYLOAD
    ensures FinalHeader(size)[156] == 48
  {
    BlankMagic(size);
    FinalKeeps(size, 156, 157);
    assert FinalHeader(size)[156..157][0] == BlankHeader(size)[156..157][0];
  }

  lemma MagicText()
    ensures MAGIC == [117, 115, 116, 97, 114, 0] && VERSION == [48, 48]
  {
  }

  lemma HeaderMagic(size: nat)
    requires size <= MAX_PAYLOAD
    ensures FinalHeader(size)[257..263] == [117, 115, 116, 97, 114, 0] && FinalHeader(size)[263..265] == [48, 48]
  {
    BlankMagic(size);
    FinalKeeps(size, 257, 263);
    FinalKeeps(size, 263, 265);
    MagicText();
  }

  lemma HeaderTail(size: nat)
    requires size <= MAX_PAYLOAD
    ensures AllZero(FinalHeader(size)[345..500])
  {
    BlankTail(size);
    FinalKeeps(size, 345, 500);
  }

  lemma HeaderDecodes(size: nat)
    requires size <= MAX_PAYLOAD
    ensures DecodeHeader(FinalHeader(size)) == Some(Header(FILE_NAME, 0x100, 10001, 10001, size, 0))
  {
    HeaderNumbers(size);
    HeaderChecksum(size);
    HeaderName(size);
    HeaderType(size);
    HeaderMagic(size);
    HeaderTail(size);
  }

  /** Behind any well-formed header, the contents and the fill are found where they were put. */
  lemma FramedDecodes(h: Bytes, header: Header, payload: Bytes)
    requires |h| == BLOCK && DecodeHeader(h) == Some(header) && header.size == |payload|
    ensures var a := h + payload + Fill(Padding(|payload|), 0);
      |a| % BLOCK == 0 && Decode(a) == Some(Entry(header, payload))
  {
    var size := |payload|;
    var a := h + payload + Fill(Padding(size), 0);
    assert |a| == BLOCK + size + Padding(size);
    assert a[..BLOCK] == h;
    assert a[BLOCK..BLOCK + size] == payload;
    assert a[BLOCK + size..] == Fill(Padding(size), 0);
  }

  /** For every accepted payload: whole blocks, and any reader of the format gets back the name, the
      owner-only mode, the service account and exactly the payload. */
  lemma RoundTrip(payload: Bytes)
    requires |payload| <= MAX_PAYLOAD
    ensures |Archive(payload)| % BLOCK == 0
    ensures Decode(Archive(payload))
         == Some(Entry(Header(FILE_NAME, 0x100, 10001, 10001, |payload|, 0), payload))
  {
    HeaderDecodes(|payload|);
    FramedDecodes(FinalHeader(|payload|), Header(FILE_NAME, 0x100, 10001, 10001, |payload|, 0), payload);
  }
}
