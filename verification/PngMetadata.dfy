// The walk over the chunks of a PNG file that keeps its ancillary and its
// decompressed bytes within one budget. The layout is that of section 3.2 of
// RFC 2083: a length, a type, the data and a checksum, over and over.
module PngMetadata {
  import opened Wrappers

  type u8 = n: int | 0 <= n < 0x100

  const MAXIMUM_METADATA_BYTES: nat := 1_048_576
  const SIGNATURE_BYTES: nat := 8

  const IEND: seq<u8> := [0x49, 0x45, 0x4e, 0x44]
  const ICCP: seq<u8> := [0x69, 0x43, 0x43, 0x50]
  const ZTXT: seq<u8> := [0x7a, 0x54, 0x58, 0x74]
  const ITXT: seq<u8> := [0x69, 0x54, 0x58, 0x74]
  const FDAT: seq<u8> := [0x66, 0x64, 0x41, 0x54]

  datatype Chunk = Chunk(kind: seq<u8>, data: seq<u8>, checksum: seq<u8>)

  datatype Error = InvalidDocument

  // --------------------------------------------------------------------- layout

  function BigEndian(b: seq<u8>): (n: nat)
    requires |b| == 4
    ensures n < 0x1_0000_0000
  {
    var high: int, low: int := b[0] as int * 256 + b[1] as int, b[2] as int * 256 + b[3] as int;
    high * 0x1_0000 + low
  }

  function ToBigEndian(n: nat): (b: seq<u8>)
    requires n < 0x1_0000_0000
    ensures |b| == 4
  {
    [n / 0x100_0000, n / 0x1_0000 % 256, n / 256 % 256, n % 256]
  }

  lemma BigEndianBack(n: nat)
    requires n < 0x1_0000_0000
    ensures BigEndian(ToBigEndian(n)) == n
  {
    assert n == n / 256 * 256 + n % 256;
    assert n / 256 == n / 0x1_0000 * 256 + n / 256 % 256;
    assert n / 0x1_0000 == n / 0x100_0000 * 256 + n / 0x1_0000 % 256;
  }

  predicate ValidChunk(c: Chunk) {
    |c.kind| == 4 && |c.checksum| == 4 && |c.data| < 0x1_0000_0000
  }

  /** The first chunk of the bytes, and how long it is. */
  function FirstChunk(bytes: seq<u8>): (r: Option<Chunk>)
    ensures r.Some? ==> ValidChunk(r.value) && |bytes| >= |r.value.data| + 12
  {
    if |bytes| < 8 then None
    else
      var length := BigEndian(bytes[..4]);
      if |bytes| < length + 12 then None
      else Some(Chunk(bytes[4..8], bytes[8..length + 8], bytes[length + 8..length + 12]))
  }

  /** A recursive reading of the layout up to the first end chunk. */
  function Chunks(bytes: seq<u8>): (r: Option<seq<Chunk>>)
    ensures r.Some? ==> r.value != [] && r.value[|r.value| - 1].kind == IEND
  {
    match FirstChunk(bytes)
    case None => None
    case Some(c) =>
      if c.kind == IEND then Some([c])
      else
        match Chunks(bytes[|c.data| + 12..])
        case None => None
        case Some(others) => Some([c] + others)
  }

  function ChunkBytes(c: Chunk): seq<u8>
    requires ValidChunk(c)
  {
    ToBigEndian(|c.data|) + c.kind + c.data + c.checksum
  }

  predicate ValidChunks(chunks: seq<Chunk>) {
    forall i :: 0 <= i < |chunks| ==> ValidChunk(chunks[i])
  }

  function Layout(chunks: seq<Chunk>): seq<u8>
    requires ValidChunks(chunks)
  {
    if chunks == [] then [] else ChunkBytes(chunks[0]) + Layout(chunks[1..])
  }

  lemma FirstChunkOfLayout(c: Chunk, rest: seq<u8>)
    requires ValidChunk(c)
    ensures FirstChunk(ChunkBytes(c) + rest) == Some(c)
    ensures (ChunkBytes(c) + rest)[|c.data| + 12..] == rest
  {
    var bytes := ChunkBytes(c) + rest;
    BigEndianBack(|c.data|);
    assert bytes[..4] == ToBigEndian(|c.data|);
    assert bytes[4..8] == c.kind;
    assert bytes[8..|c.data| + 8] == c.data;
    assert bytes[|c.data| + 8..|c.data| + 12] == c.checksum;
  }

  /** Chunks laid out one after another are read back, whatever follows the end chunk. */
  lemma {:induction false} LayoutIsRead(chunks: seq<Chunk>, rest: seq<u8>)
    requires ValidChunks(chunks) && chunks != [] && chunks[|chunks| - 1].kind == IEND
    requires forall i :: 0 <= i < |chunks| - 1 ==> chunks[i].kind != IEND
    ensures Chunks(Layout(chunks) + rest) == Some(chunks)
  {
    var tail := Layout(chunks[1..]) + rest;
    assert Layout(chunks) + rest == ChunkBytes(chunks[0]) + tail;
    FirstChunkOfLayout(chunks[0], tail);
    if |chunks| == 1 {
      assert chunks == [chunks[0]];
    } else {
      LayoutIsRead(chunks[1..], rest);
      assert chunks == [chunks[0]] + chunks[1..];
    }
  }

  lemma ToBigEndianBack(b: seq<u8>)
    requires |b| == 4
    ensures ToBigEndian(BigEndian(b)) == b
  {
    var n := BigEndian(b);
    assert n / 0x1_0000 == b[0] as int * 256 + b[1] as int && n % 0x1_0000 == b[2] as int * 256 + b[3] as int;
    assert n / 0x100_0000 == b[0] && n / 0x1_0000 % 256 == b[1];
    assert n / 256 % 256 == b[2] && n % 256 == b[3];
  }

  lemma FirstChunkIsLaidOut(bytes: seq<u8>)
    requires FirstChunk(bytes).Some?
    ensures var c := FirstChunk(bytes).value; bytes == ChunkBytes(c) + bytes[|c.data| + 12..]
  {
    ToBigEndianBack(bytes[..4]);
  }

  /** And what is read is the layout of the bytes up to the first end chunk. */
  lemma {:induction false} ReadIsLaidOut(bytes: seq<u8>) returns (rest: seq<u8>)
    requires Chunks(bytes).Some?
    ensures var chunks := Chunks(bytes).value;
            && ValidChunks(chunks) && bytes == Layout(chunks) + rest
            && forall i :: 0 <= i < |chunks| - 1 ==> chunks[i].kind != IEND
  {
    hide ChunkBytes, FirstChunk;
    var c := FirstChunk(bytes).value;
    var tail := bytes[|c.data| + 12..];
    FirstChunkIsLaidOut(bytes);
    if c.kind == IEND {
      rest := tail;
      assert [c][1..] == [];
      assert Layout([c]) == ChunkBytes(c);
    } else {
      rest := ReadIsLaidOut(tail);
      var others := Chunks(tail).value;
      assert ([c] + others)[1..] == others;
      assert Layout([c] + others) == ChunkBytes(c) + Layout(others);
      assert bytes == ChunkBytes(c) + (Layout(others) + rest);
    }
  }

  // ----------------------------------------------------------------- the budget

  function ZeroFrom(data: seq<u8>, i: nat): (r: Option<nat>)
    requires i <= |data|
    ensures r.Some? ==> i <= r.value < |data|
    decreases |data| - i
  {
    if i == |data| then None else if data[i] == 0 then Some(i) else ZeroFrom(data, i + 1)
  }

  /** What follows the first zero byte. */
  function TextField(data: seq<u8>): Option<seq<u8>> {
    match ZeroFrom(data, 0)
    case None => None
    case Some(end) => Some(data[end + 1..])
  }

  datatype Content = Malformed | Uncompressed | Compressed(bytes: seq<u8>)

  function ContentOf(c: Chunk): Content {
    if c.kind == ICCP || c.kind == ZTXT then
      match TextField(c.data)
      case None => Malformed
      case Some(value) => if value == [] || value[0] != 0 then Malformed else Compressed(value[1..])
    else if c.kind == ITXT then
      match TextField(c.data)
      case None => Malformed
      case Some(value) =>
        if |value| < 2 || value[0] > 1 || value[1] != 0 then Malformed
        else
          match TextField(value[2..])
          case None => Malformed
          case Some(language) =>
            match TextField(language)
            case None => Malformed
            case Some(text) => if value[0] == 1 then Compressed(text) else Uncompressed
    else Uncompressed
  }

  predicate Ancillary(kind: seq<u8>) {
    kind != [] && 0x61 <= kind[0] <= 0x7a && kind != FDAT
  }

  /** A decompressor is given the bytes and a bound and tells the length of what
      it produced, if it did. */
  type Decompressor = (seq<u8>, nat) -> Option<nat>

  function AfterData(c: Chunk, remaining: nat): Option<nat> {
    if !Ancillary(c.kind) then Some(remaining)
    else if |c.data| <= remaining then Some(remaining - |c.data|) else None
  }

  /** What is left of the budget after one chunk. */
  function Charge(c: Chunk, remaining: nat, inflate: Decompressor): Option<nat> {
    match AfterData(c, remaining)
    case None => None
    case Some(left) =>
      match ContentOf(c)
      case Malformed => None
      case Uncompressed => Some(left)
      case Compressed(bytes) =>
        match inflate(bytes, left)
        case None => None
        case Some(decoded) => if decoded <= left then Some(left - decoded) else None
  }

  function ChargeAll(chunks: seq<Chunk>, remaining: nat, inflate: Decompressor): Option<nat> {
    if chunks == [] then Some(remaining)
    else
      match Charge(chunks[0], remaining, inflate)
      case None => None
      case Some(left) => ChargeAll(chunks[1..], left, inflate)
  }

  /** A file passes when its chunks read up to an end chunk and their charges
      stay within the budget. */
  function Verdict(bytes: seq<u8>, remaining: nat, inflate: Decompressor): Option<nat> {
    match Chunks(bytes)
    case None => None
    case Some(chunks) => ChargeAll(chunks, remaining, inflate)
  }

  lemma VerdictStep(bytes: seq<u8>, remaining: nat, inflate: Decompressor)
    ensures FirstChunk(bytes).None? ==> Verdict(bytes, remaining, inflate).None?
    ensures FirstChunk(bytes).Some? ==>
              var c := FirstChunk(bytes).value;
              match Charge(c, remaining, inflate)
              case None => Verdict(bytes, remaining, inflate).None?
              case Some(left) =>
                Verdict(bytes, remaining, inflate) == if c.kind == IEND then Some(left) else Verdict(bytes[|c.data| + 12..], left, inflate)
  {
    if FirstChunk(bytes).Some? {
      var c := FirstChunk(bytes).value;
      if c.kind == IEND {
        assert ChargeAll([c], remaining, inflate)
            == match Charge(c, remaining, inflate) case None => None case Some(left) => ChargeAll([c][1..], left, inflate);
      } else if Chunks(bytes[|c.data| + 12..]).Some? {
        var others := Chunks(bytes[|c.data| + 12..]).value;
        assert ([c] + others)[1..] == others;
      }
    }
  }

  lemma NothingLeft(inflate: Decompressor)
    ensures forall remaining :: Verdict([], remaining, inflate).None?
  {
  }

  method ReadChunk(chunks: seq<u8>) returns (r: Option<Chunk>)
    ensures r == FirstChunk(chunks)
  {
    if |chunks| < 8 {
      return None;
    }
    var header := chunks[..8];
    assert header[..4] == chunks[..4] && header[4..] == chunks[4..8];
    var length := BigEndian(header[..4]);
    var end := length + 12;
    if |chunks| < end {
      return None;
    }
    return Some(Chunk(header[4..], chunks[8..end - 4], chunks[end - 4..end]));
  }

  method ChargeChunk(c: Chunk, budget: nat, inflate: Decompressor) returns (r: Option<nat>)
    requires ValidChunk(c)
    ensures r == Charge(c, budget, inflate)
  {
    var remaining := budget;
    if 0x61 <= c.kind[0] <= 0x7a && c.kind != FDAT {
      if |c.data| > remaining {
        return None;
      }
      remaining := remaining - |c.data|;
    }
    match ContentOf(c) {
      case Malformed => return None;
      case Uncompressed => return Some(remaining);
      case Compressed(bytes) =>
        var decoded := inflate(bytes, remaining);
        if decoded.None? || decoded.value > remaining {
          return None;
        }
        return Some(remaining - decoded.value);
    }
  }

  method ValidatePngMetadata(encoded: seq<u8>, inflate: Decompressor) returns (r: Result<(), Error>)
    ensures r.Ok? <==> |encoded| >= SIGNATURE_BYTES
                       && Verdict(encoded[SIGNATURE_BYTES..], MAXIMUM_METADATA_BYTES, inflate).Some?
  {
    hide Chunks, Charge, Verdict, FirstChunk;
    if |encoded| < SIGNATURE_BYTES {
      return Err(InvalidDocument);
    }
    NothingLeft(inflate);
    var chunks := encoded[SIGNATURE_BYTES..];
    var remaining: nat := MAXIMUM_METADATA_BYTES;
    while chunks != []
      invariant Verdict(encoded[SIGNATURE_BYTES..], MAXIMUM_METADATA_BYTES, inflate).Some? <==> Verdict(chunks, remaining, inflate).Some?
      decreases |chunks|
    {
      VerdictStep(chunks, remaining, inflate);
      var chunk := ReadChunk(chunks);
      if chunk.None? {
        return Err(InvalidDocument);
      }
      var left := ChargeChunk(chunk.value, remaining, inflate);
      if left.None? {
        return Err(InvalidDocument);
      }
      remaining := left.value;
      chunks := chunks[|chunk.value.data| + 12..];
      if chunk.value.kind == IEND {
        return Ok(());
      }
    }
    return Err(InvalidDocument);
  }

  // ------------------------------------------------------------------ conservation

  function AncillaryBytes(chunks: seq<Chunk>): nat {
    if chunks == [] then 0
    else (if Ancillary(chunks[0].kind) then |chunks[0].data| else 0) + AncillaryBytes(chunks[1..])
  }

  /** The bytes decompressed on the way, each time under what is left of the budget. */
  function DecodedBytes(chunks: seq<Chunk>, remaining: nat, inflate: Decompressor): nat
    requires ChargeAll(chunks, remaining, inflate).Some?
  {
    if chunks == [] then 0
    else
      var left := AfterData(chunks[0], remaining).value;
      (match ContentOf(chunks[0])
       case Compressed(bytes) => inflate(bytes, left).value
       case _ => 0)
      + DecodedBytes(chunks[1..], Charge(chunks[0], remaining, inflate).value, inflate)
  }

  /** Nothing is counted twice and nothing is forgotten. */
  lemma {:induction false} BudgetIsConserved(chunks: seq<Chunk>, remaining: nat, inflate: Decompressor)
    requires ChargeAll(chunks, remaining, inflate).Some?
    ensures AncillaryBytes(chunks) + DecodedBytes(chunks, remaining, inflate) + ChargeAll(chunks, remaining, inflate).value == remaining
  {
    if chunks != [] {
      BudgetIsConserved(chunks[1..], Charge(chunks[0], remaining, inflate).value, inflate);
    }
  }

  /** For every input and every decompressor, bounded or not: what passes has at
      most a mebibyte of ancillary and decompressed bytes together. */
  lemma MetadataIsBounded(encoded: seq<u8>, inflate: Decompressor)
    requires |encoded| >= SIGNATURE_BYTES && Verdict(encoded[SIGNATURE_BYTES..], MAXIMUM_METADATA_BYTES, inflate).Some?
    ensures Chunks(encoded[SIGNATURE_BYTES..]).Some?
    ensures var chunks := Chunks(encoded[SIGNATURE_BYTES..]).value;
            && ChargeAll(chunks, MAXIMUM_METADATA_BYTES, inflate).Some?
            && AncillaryBytes(chunks) + DecodedBytes(chunks, MAXIMUM_METADATA_BYTES, inflate) <= MAXIMUM_METADATA_BYTES
  {
    BudgetIsConserved(Chunks(encoded[SIGNATURE_BYTES..]).value, MAXIMUM_METADATA_BYTES, inflate);
  }

  // ------------------------------------------- what is charged, chunk by chunk

  predicate NoZero(s: seq<u8>) {
    forall i :: 0 <= i < |s| ==> s[i] != 0
  }

  /** `iCCP` and `zTXt`: the kinds that always carry a compressed stream. */
  predicate ProfileOrText(kind: seq<u8>) {
    kind == [0x69, 0x43, 0x43, 0x50] || kind == [0x7a, 0x54, 0x58, 0x74]
  }

  predicate InternationalText(kind: seq<u8>) {
    kind == [0x69, 0x54, 0x58, 0x74]
  }

  /** Keyword, zero, method 0, then the stream: sections 4.2.2.4 and 4.2.3.2 of the
      PNG specification, version 1.2, as far as the walk looks at them. */
  ghost predicate StreamAfterKeyword(data: seq<u8>, stream: seq<u8>) {
    exists keyword :: NoZero(keyword) && data == keyword + [0, 0] + stream
  }

  /** Keyword, zero, flag, method 0, language, zero, translated keyword, zero,
      text: its section 4.2.3.3. */
  ghost predicate TextAfterKeywords(data: seq<u8>, flag: u8, text: seq<u8>) {
    exists keyword, language, translated ::
      NoZero(keyword) && NoZero(language) && NoZero(translated)
      && data == keyword + [0] + ([flag, 0] + (language + [0] + (translated + [0] + text)))
  }

  lemma {:induction false} ZeroAt(data: seq<u8>, i: nat, end: nat)
    requires i <= end < |data| && data[end] == 0 && forall j :: i <= j < end ==> data[j] != 0
    ensures ZeroFrom(data, i) == Some(end)
    decreases end - i
  {
    if i < end {
      ZeroAt(data, i + 1, end);
    }
  }

  lemma {:induction false} ZeroFromFinds(data: seq<u8>, i: nat)
    requires i <= |data| && ZeroFrom(data, i).Some?
    ensures var end := ZeroFrom(data, i).value; data[end] == 0 && forall j :: i <= j < end ==> data[j] != 0
    decreases |data| - i
  {
    if data[i] != 0 {
      ZeroFromFinds(data, i + 1);
    }
  }

  /** The text field is what follows the first zero, found by its own layout. */
  lemma TextFieldMeans(data: seq<u8>, keyword: seq<u8>, rest: seq<u8>)
    requires NoZero(keyword) && data == keyword + [0] + rest
    ensures TextField(data) == Some(rest)
  {
    ZeroAt(data, 0, |keyword|);
    assert data[|keyword| + 1..] == rest;
  }

  lemma TextFieldSplits(data: seq<u8>) returns (keyword: seq<u8>)
    requires TextField(data).Some?
    ensures NoZero(keyword) && data == keyword + [0] + TextField(data).value
  {
    ZeroFromFinds(data, 0);
    keyword := data[..ZeroFrom(data, 0).value];
  }

  /** Profiles and compressed text: the stream after keyword and method, and
      nothing else, is decompressed; any other data is malformed. */
  lemma ProfileContent(c: Chunk)
    requires ProfileOrText(c.kind)
    ensures ContentOf(c) == Malformed || ContentOf(c).Compressed?
    ensures forall stream :: ContentOf(c) == Compressed(stream) <==> StreamAfterKeyword(c.data, stream)
  {
    hide TextField;
    forall stream ensures ContentOf(c) == Compressed(stream) <==> StreamAfterKeyword(c.data, stream) {
      if ContentOf(c) == Compressed(stream) {
        var keyword := TextFieldSplits(c.data);
        var value := TextField(c.data).value;
        assert value == [0] + stream;
        assert c.data == keyword + [0, 0] + stream;
      }
      if StreamAfterKeyword(c.data, stream) {
        var keyword :| NoZero(keyword) && c.data == keyword + [0, 0] + stream;
        assert c.data == keyword + [0] + ([0] + stream);
        TextFieldMeans(c.data, keyword, [0] + stream);
        assert ([0] + stream)[1..] == stream;
      }
    }
  }

  /** What the three fields of an international text say. */
  lemma InternationalFields(data: seq<u8>, checksum: seq<u8>)
    ensures ContentOf(Chunk([0x69, 0x54, 0x58, 0x74], data, checksum))
         == match TextField(data)
            case None => Malformed
            case Some(value) =>
              if |value| < 2 || value[0] > 1 || value[1] != 0 || TextField(value[2..]).None? then Malformed
              else if TextField(TextField(value[2..]).value).None? then Malformed
              else if value[0] == 1 then Compressed(TextField(TextField(value[2..]).value).value) else Uncompressed
  {
    hide TextField;
  }

  lemma InternationalParts(c: Chunk, flag: u8, text: seq<u8>)
    requires InternationalText(c.kind) && TextAfterKeywords(c.data, flag, text)
    ensures ContentOf(c) == if flag == 1 then Compressed(text) else if flag == 0 then Uncompressed else Malformed
  {
    hide TextField, ContentOf;
    var keyword, language, translated :|
      NoZero(keyword) && NoZero(language) && NoZero(translated)
      && c.data == keyword + [0] + ([flag, 0] + (language + [0] + (translated + [0] + text)));
    var second := translated + [0] + text;
    var first := language + [0] + second;
    var value := [flag, 0] + first;
    InternationalFields(c.data, c.checksum);
    TextFieldMeans(c.data, keyword, value);
    assert value[2..] == first;
    TextFieldMeans(first, language, second);
    TextFieldMeans(second, translated, text);
  }

  lemma InternationalSplits(c: Chunk) returns (flag: u8, text: seq<u8>)
    requires InternationalText(c.kind) && ContentOf(c) != Malformed
    ensures TextAfterKeywords(c.data, flag, text) && flag <= 1
    ensures ContentOf(c) == if flag == 1 then Compressed(text) else Uncompressed
  {
    hide TextField, ContentOf;
    InternationalFields(c.data, c.checksum);
    var keyword := TextFieldSplits(c.data);
    var value := TextField(c.data).value;
    flag := value[0];
    var language := TextFieldSplits(value[2..]);
    var second := TextField(value[2..]).value;
    var translated := TextFieldSplits(second);
    text := TextField(second).value;
    assert value == [flag, 0] + value[2..];
  }

  /** International text: flag 1 has its text decompressed, flag 0 nothing; other
      flags, methods and layouts are malformed. */
  lemma InternationalContent(c: Chunk)
    requires InternationalText(c.kind)
    ensures forall text :: ContentOf(c) == Compressed(text) <==> TextAfterKeywords(c.data, 1, text)
    ensures ContentOf(c) == Uncompressed <==> exists text :: TextAfterKeywords(c.data, 0, text)
  {
    hide ContentOf, TextAfterKeywords;
    if ContentOf(c) != Malformed {
      var flag, text := InternationalSplits(c);
    }
    forall flag: u8, text | TextAfterKeywords(c.data, flag, text)
      ensures ContentOf(c) == if flag == 1 then Compressed(text) else if flag == 0 then Uncompressed else Malformed
    {
      InternationalParts(c, flag, text);
    }
  }

  /** Kinds of which the first letter is lower case are ancillary, but for `fdAT`. */
  function DataCharge(c: Chunk): nat {
    if c.kind != [] && 'a' as int <= c.kind[0] <= 'z' as int && c.kind != [0x66, 0x64, 0x41, 0x54] then |c.data| else 0
  }

  /** The compressed stream a chunk carries, said by its layout alone. */
  ghost predicate Carries(c: Chunk, stream: seq<u8>) {
    || (ProfileOrText(c.kind) && StreamAfterKeyword(c.data, stream))
    || (InternationalText(c.kind) && TextAfterKeywords(c.data, 1, stream))
  }

  ghost predicate CarriesNone(c: Chunk) {
    || (!ProfileOrText(c.kind) && !InternationalText(c.kind))
    || (InternationalText(c.kind) && exists text :: TextAfterKeywords(c.data, 0, text))
  }

  lemma OtherContent(c: Chunk)
    ensures !ProfileOrText(c.kind) && !InternationalText(c.kind) ==> ContentOf(c) == Uncompressed
  {
  }

  /** What a chunk costs: its data when it is ancillary, and what its stream, if
      it carries one, decompresses to under the rest. Nothing else passes. */
  lemma ChargeMeans(c: Chunk, remaining: nat, inflate: Decompressor, left: nat)
    ensures Charge(c, remaining, inflate) == Some(left)
            <==> && DataCharge(c) <= remaining
                 && var rest := remaining - DataCharge(c);
                    || (CarriesNone(c) && left == rest)
                    || exists stream :: Carries(c, stream) && inflate(stream, rest).Some? && left == rest - inflate(stream, rest).value
  {
    hide ContentOf, StreamAfterKeyword, TextAfterKeywords;
    OtherContent(c);
    if ProfileOrText(c.kind) {
      ProfileContent(c);
    } else if InternationalText(c.kind) {
      InternationalContent(c);
    }
    var content := ContentOf(c);
    if content.Compressed? {
      assert Carries(c, content.bytes);
      assert forall stream :: Carries(c, stream) ==> stream == content.bytes;
    }
  }

  /** A file of one chunk and the end chunk. */
  function TwoChunks(signature: seq<u8>, c: Chunk, checksum: seq<u8>, rest: seq<u8>): seq<u8>
    requires ValidChunk(c) && |checksum| == 4
  {
    signature + Layout([c, Chunk([0x49, 0x45, 0x4e, 0x44], [], checksum)]) + rest
  }

  predicate Accepts(encoded: seq<u8>, inflate: Decompressor) {
    |encoded| >= 8 && Verdict(encoded[8..], 1_048_576, inflate).Some?
  }

  lemma OneChunkFile(signature: seq<u8>, c: Chunk, checksum: seq<u8>, rest: seq<u8>, inflate: Decompressor)
    requires |signature| == 8 && ValidChunk(c) && c.kind != [0x49, 0x45, 0x4e, 0x44] && |checksum| == 4
    ensures Accepts(TwoChunks(signature, c, checksum, rest), inflate) <==> Charge(c, 1_048_576, inflate).Some?
  {
    hide ContentOf, ChunkBytes, Chunks, Charge, ChargeAll, Layout;
    var end := Chunk([0x49, 0x45, 0x4e, 0x44], [], checksum);
    var encoded := TwoChunks(signature, c, checksum, rest);
    assert encoded[8..] == Layout([c, end]) + rest;
    LayoutIsRead([c, end], rest);
    if Charge(c, 1_048_576, inflate).Some? {
      EndCostsNothing(end, Charge(c, 1_048_576, inflate).value, inflate);
    }
    ChargeTwo(c, end, 1_048_576, inflate);
  }

  lemma ChargeTwo(c: Chunk, end: Chunk, remaining: nat, inflate: Decompressor)
    ensures ChargeAll([c, end], remaining, inflate)
         == match Charge(c, remaining, inflate) case None => None case Some(left) => ChargeAll([end], left, inflate)
  {
    hide Charge;
    assert [c, end][1..] == [end];
  }

  lemma EndCostsNothing(end: Chunk, left: nat, inflate: Decompressor)
    requires end.kind == [0x49, 0x45, 0x4e, 0x44] && end.data == []
    ensures ChargeAll([end], left, inflate) == Some(left)
  {
    assert [end][1..] == [];
  }

  /** A file with one compressed text or profile passes exactly when data and
      decompressed stream together are within a mebibyte. */
  lemma OneStreamFile(signature: seq<u8>, c: Chunk, keyword: seq<u8>, stream: seq<u8>, checksum: seq<u8>, rest: seq<u8>, inflate: Decompressor)
    requires |signature| == 8 && ValidChunk(c) && ProfileOrText(c.kind) && |checksum| == 4
    requires NoZero(keyword) && c.data == keyword + [0, 0] + stream
    ensures Accepts(TwoChunks(signature, c, checksum, rest), inflate)
            <==> |c.data| <= 1_048_576 && inflate(stream, 1_048_576 - |c.data|).Some?
                 && inflate(stream, 1_048_576 - |c.data|).value <= 1_048_576 - |c.data|
  {
    hide ContentOf, TwoChunks, Accepts, Verdict;
    OneChunkFile(signature, c, checksum, rest, inflate);
    ProfileContent(c);
    assert StreamAfterKeyword(c.data, stream);
  }

  lemma OtherMethodCarriesNothing(c: Chunk, keyword: seq<u8>, m: u8, stream: seq<u8>)
    requires ProfileOrText(c.kind) && NoZero(keyword) && c.data == keyword + [0] + ([m] + stream) && m != 0
    ensures ContentOf(c) == Malformed
  {
    hide TextField;
    TextFieldMeans(c.data, keyword, [m] + stream);
  }

  /** With a method other than 0 behind its keyword it is refused. */
  lemma OtherMethodIsRefused(signature: seq<u8>, c: Chunk, keyword: seq<u8>, m: u8, stream: seq<u8>, checksum: seq<u8>,
                             rest: seq<u8>, inflate: Decompressor)
    requires |signature| == 8 && ValidChunk(c) && ProfileOrText(c.kind) && |checksum| == 4
    requires NoZero(keyword) && c.data == keyword + [0] + ([m] + stream) && m != 0
    ensures !Accepts(TwoChunks(signature, c, checksum, rest), inflate)
  {
    hide ContentOf, TwoChunks, Accepts, Verdict;
    OneChunkFile(signature, c, checksum, rest, inflate);
    OtherMethodCarriesNothing(c, keyword, m, stream);
  }

  /** A file with one international text passes exactly when its data, and with
      flag 1 also what its text decompresses to, is within a mebibyte; flags
      other than 0 and 1 are refused. */
  lemma OneInternationalFile(signature: seq<u8>, c: Chunk, flag: u8, text: seq<u8>, checksum: seq<u8>, rest: seq<u8>, inflate: Decompressor)
    requires |signature| == 8 && ValidChunk(c) && InternationalText(c.kind) && |checksum| == 4
    requires TextAfterKeywords(c.data, flag, text)
    ensures Accepts(TwoChunks(signature, c, checksum, rest), inflate)
            <==> && |c.data| <= 1_048_576 && flag <= 1
                 && (flag == 1 ==> && inflate(text, 1_048_576 - |c.data|).Some?
                                   && inflate(text, 1_048_576 - |c.data|).value <= 1_048_576 - |c.data|)
  {
    hide ContentOf, TwoChunks, Accepts, Verdict, TextAfterKeywords;
    OneChunkFile(signature, c, checksum, rest, inflate);
    InternationalParts(c, flag, text);
  }

  /** A file with one chunk of any other kind passes exactly when the chunk is
      critical, or frame data, or its data is within a mebibyte. */
  lemma OneOtherFile(signature: seq<u8>, c: Chunk, checksum: seq<u8>, rest: seq<u8>, inflate: Decompressor)
    requires |signature| == 8 && ValidChunk(c) && |checksum| == 4
    requires c.kind != [0x49, 0x45, 0x4e, 0x44] && !ProfileOrText(c.kind) && !InternationalText(c.kind)
    ensures Accepts(TwoChunks(signature, c, checksum, rest), inflate)
            <==> !(0x61 <= c.kind[0] <= 0x7a) || c.kind == [0x66, 0x64, 0x41, 0x54] || |c.data| <= 1_048_576
  {
    hide ContentOf, TwoChunks, Accepts, Verdict;
    OneChunkFile(signature, c, checksum, rest, inflate);
    OtherContent(c);
  }

  /** Numbers are written with their greatest byte first. */
  lemma BigEndianBytes()
    ensures BigEndian([1, 2, 3, 4]) == 0x01020304 && ToBigEndian(0x01020304) == [1, 2, 3, 4]
  {
  }
}
