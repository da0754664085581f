/**
 The write-ahead log: its entries, its framing, the buffered writer and the reader.

 A log is the magic bytes, a framed header and framed entries; a frame is a 32-bit little-endian
 length followed by that many bytes.
 */
module Wal {
  import opened Keys
  import opened Postcard

  datatype Operation = Set(key: Bytes, value: Bytes) | Delete(key: Bytes)

  datatype Entry = Entry(revision: Revision, kindId: nat, operation: Operation)

  datatype Header = Header(formatVersion: nat, baseRevision: Revision)

  const FORMAT_VERSION: nat := 1
  /** The bytes of "PICANTE" and a zero. */
  const MAGIC: Bytes := [80, 73, 67, 65, 78, 84, 69, 0]
  const MAX_HEADER_LEN: nat := 1_000_000
  const MAX_ENTRY_LEN: nat := 100_000_000

  // ---------------------------------------------------------------------------
  // Encodings
  // ---------------------------------------------------------------------------

  function EncodeOperation(op: Operation): Bytes {
    match op
    case Set(key, value) => Varint(0) + BytesField(key) + BytesField(value)
    case Delete(key) => Varint(1) + BytesField(key)
  }

  function EncodeEntry(e: Entry): Bytes {
    Varint(e.revision) + Varint(e.kindId) + EncodeOperation(e.operation)
  }

  function DecodeOperation(bytes: Bytes): Option<Operation> {
    match ParseVarint(bytes)
    case None => None
    case Some(Parsed(tag, rest)) =>
      match ParseBytes(rest)
      case None => None
      case Some(Parsed(key, rest')) =>
        if tag == 0 then
          match ParseBytes(rest')
          case None => None
          case Some(Parsed(value, _)) => Some(Set(key, value))
        else if tag == 1 then Some(Delete(key))
        else None
  }

  function DecodeEntry(bytes: Bytes): Option<Entry> {
    match ParseVarint(bytes)
    case None => None
    case Some(Parsed(revision, rest)) =>
      match ParseVarint(rest)
      case None => None
      case Some(Parsed(kindId, rest')) =>
        match DecodeOperation(rest')
        case None => None
        case Some(op) => Some(Entry(revision, kindId, op))
  }

  function EncodeHeader(h: Header): Bytes {
    Varint(h.formatVersion) + Varint(h.baseRevision)
  }

  function DecodeHeader(bytes: Bytes): Option<Header> {
    match ParseVarint(bytes)
    case None => None
    case Some(Parsed(version, rest)) =>
      match ParseVarint(rest)
      case None => None
      case Some(Parsed(base, _)) => Some(Header(version, base))
  }

  lemma {:induction false} OperationRoundTrip(op: Operation)
    ensures DecodeOperation(EncodeOperation(op)) == Some(op)
  {
    match op
    case Set(key, value) =>
      assert EncodeOperation(op) == Varint(0) + (BytesField(key) + BytesField(value));
      VarintRoundTrip(0, BytesField(key) + BytesField(value));
      BytesRoundTrip(key, BytesField(value));
      BytesRoundTrip(value, []);
      assert BytesField(value) + [] == BytesField(value);
    case Delete(key) =>
      VarintRoundTrip(1, BytesField(key));
      BytesRoundTrip(key, []);
      assert BytesField(key) + [] == BytesField(key);
  }

  lemma {:induction false} EntryRoundTrip(e: Entry)
    ensures DecodeEntry(EncodeEntry(e)) == Some(e)
  {
    var op := EncodeOperation(e.operation);
    assert EncodeEntry(e) == Varint(e.revision) + (Varint(e.kindId) + op);
    VarintRoundTrip(e.revision, Varint(e.kindId) + op);
    VarintRoundTrip(e.kindId, op);
    OperationRoundTrip(e.operation);
  }

  lemma {:induction false} HeaderRoundTrip(h: Header)
    ensures DecodeHeader(EncodeHeader(h)) == Some(h)
  {
    VarintRoundTrip(h.formatVersion, Varint(h.baseRevision));
    VarintRoundTrip(h.baseRevision, []);
    assert Varint(h.baseRevision) + [] == Varint(h.baseRevision);
  }

  // ---------------------------------------------------------------------------
  // Frames
  // ---------------------------------------------------------------------------

  /** A length as four bytes, lowest first; one that needs more than 32 bits wraps around. */
  function LittleEndian(n: nat): (bytes: Bytes)
    ensures |bytes| == 4
  {
    [(n % 256) as byte, (n / 256 % 256) as byte, (n / 65536 % 256) as byte, (n / 16777216 % 256) as byte]
  }

  function FromLittleEndian(bytes: Bytes): nat
    requires |bytes| == 4
  {
    bytes[0] as nat + 256 * bytes[1] as nat + 65536 * bytes[2] as nat + 16777216 * bytes[3] as nat
  }

  lemma {:induction false} LengthRoundTrip(n: nat)
    requires n < 0x1_0000_0000
    ensures FromLittleEndian(LittleEndian(n)) == n
  {
    var a := n / 256;
    var b := a / 256;
    assert n / 65536 == b && n / 16777216 == b / 256 < 256;
  }

  function Frame(payload: Bytes): (frame: Bytes)
    ensures |frame| == 4 + |payload|
  {
    LittleEndian(|payload|) + payload
  }

  /** The four bytes in front of a payload, and then the payload. */
  lemma {:induction false} FrameBytes(payload: Bytes)
    requires |payload| < 0x1_0000_0000
    ensures var b := Frame(payload)[..4];
            |payload| == b[0] as nat + 256 * b[1] as nat + 65536 * b[2] as nat + 16777216 * b[3] as nat
    ensures Frame(payload)[4..] == payload
  {
    LengthRoundTrip(|payload|);
  }

  function Frames(payloads: seq<Bytes>): Bytes {
    if payloads == [] then [] else Frame(payloads[0]) + Frames(payloads[1..])
  }

  function Payloads(entries: seq<Entry>): (payloads: seq<Bytes>)
    ensures |payloads| == |entries|
    ensures forall i | 0 <= i < |entries| :: payloads[i] == EncodeEntry(entries[i])
  {
    seq(|entries|, i requires 0 <= i < |entries| => EncodeEntry(entries[i]))
  }

  function Preamble(baseRevision: Revision): Bytes {
    MAGIC + Frame(EncodeHeader(Header(FORMAT_VERSION, baseRevision)))
  }

  /** A whole log, byte for byte. */
  function Log(baseRevision: Revision, entries: seq<Entry>): Bytes {
    Preamble(baseRevision) + Frames(Payloads(entries))
  }

  lemma {:induction false} FramesConcat(a: seq<Bytes>, b: seq<Bytes>)
    ensures Frames(a + b) == Frames(a) + Frames(b)
    decreases |a|
  {
    if a == [] {
      assert a + b == b;
    } else {
      assert (a + b)[1..] == a[1..] + b;
      FramesConcat(a[1..], b);
    }
  }

  lemma {:induction false} FramesSplit(payloads: seq<Bytes>, n: nat)
    requires n <= |payloads|
    ensures Frames(payloads[..n]) + Frames(payloads[n..]) == Frames(payloads)
  {
    FramesConcat(payloads[..n], payloads[n..]);
    assert payloads == payloads[..n] + payloads[n..];
  }

  lemma {:induction false} FramesPrefix(payloads: seq<Bytes>, m: nat, n: nat)
    requires m <= n <= |payloads|
    ensures |Frames(payloads[..m])| <= |Frames(payloads[..n])|
  {
    FramesSplit(payloads[..n], m);
    assert payloads[..n][..m] == payloads[..m];
  }

  /** What the reader requires of an entry: it must not be longer than the sanity limit. */
  predicate Fits(payload: Bytes) {
    |payload| <= MAX_ENTRY_LEN
  }

  // ---------------------------------------------------------------------------
  // The writer
  // ---------------------------------------------------------------------------

  class WalWriter {
    const baseRevision: Revision
    const autoFlushThreshold: nat
    var file: Bytes
    var buffer: Bytes
    var entriesSinceFlush: nat
    ghost var entries: seq<Entry>
    ghost var flushed: seq<Entry>
    ghost var waiting: seq<Entry>

    /** The file is the log of the flushed entries; the frames of those since the last flush are buffered. */
    ghost predicate Valid()
      reads this
    {
      && Consistent()
      && (entriesSinceFlush == 0 || entriesSinceFlush < autoFlushThreshold)
    }

    ghost predicate Consistent()
      reads this
    {
      && entries == flushed + waiting && |waiting| == entriesSinceFlush
      && file == Log(baseRevision, flushed) && buffer == Frames(Payloads(waiting))
    }

    constructor (baseRevision: Revision, autoFlushThreshold: nat)
      ensures Valid() && entries == [] && entriesSinceFlush == 0
      ensures this.baseRevision == baseRevision && this.autoFlushThreshold == autoFlushThreshold
    {
      this.baseRevision, this.autoFlushThreshold := baseRevision, autoFlushThreshold;
      file := Preamble(baseRevision);
      buffer, entriesSinceFlush, entries, flushed, waiting := [], 0, [], [], [];
      new;
      assert Preamble(baseRevision) + [] == Preamble(baseRevision);
    }

    /** Appends one entry; at most `autoFlushThreshold - 1` entries are ever waiting in the buffer. */
    method Append(e: Entry)
      requires Valid()
      modifies this
      ensures Valid() && entries == old(entries) + [e]
      ensures file + buffer == old(file + buffer) + Frame(EncodeEntry(e))
    {
      assert file + (buffer + Frame(EncodeEntry(e))) == file + buffer + Frame(EncodeEntry(e));
      PayloadsConcat(waiting, [e]);
      OneFrame(e);
      AppendLast(flushed, waiting, e);
      buffer := buffer + Frame(EncodeEntry(e));
      entriesSinceFlush := entriesSinceFlush + 1;
      waiting, entries := waiting + [e], entries + [e];
      if entriesSinceFlush >= autoFlushThreshold {
        Flush();
      }
    }

    method Flush()
      requires Consistent()
      modifies this`file, this`buffer, this`entriesSinceFlush, this`flushed, this`waiting
      ensures Valid() && entriesSinceFlush == 0 && buffer == [] && file == Log(baseRevision, entries)
      ensures file == old(file + buffer)
    {
      PayloadsConcat(flushed, waiting);
      LogJoins(Preamble(baseRevision), flushed, waiting);
      file, buffer, entriesSinceFlush := file + buffer, [], 0;
      flushed, waiting := entries, [];
    }
  }

  lemma {:induction false} PayloadsConcat(a: seq<Entry>, b: seq<Entry>)
    ensures Payloads(a + b) == Payloads(a) + Payloads(b)
    ensures Frames(Payloads(a + b)) == Frames(Payloads(a)) + Frames(Payloads(b))
  {
    PayloadsOfBoth(a, b, Payloads(a + b), Payloads(a) + Payloads(b));
    FramesConcat(Payloads(a), Payloads(b));
  }

  lemma {:induction false} PayloadsOfBoth(a: seq<Entry>, b: seq<Entry>, left: seq<Bytes>, right: seq<Bytes>)
    requires left == Payloads(a + b) && right == Payloads(a) + Payloads(b)
    ensures left == right
  {
    forall i | 0 <= i < |left| ensures left[i] == right[i] {
      assert (a + b)[i] == if i < |a| then a[i] else b[i - |a|];
    }
  }

  lemma {:induction false} OneFrame(e: Entry)
    ensures Frames(Payloads([e])) == Frame(EncodeEntry(e))
  {
    assert Payloads([e])[1..] == [];
  }

  lemma AppendLast(flushed: seq<Entry>, waiting: seq<Entry>, e: Entry)
    ensures flushed + waiting + [e] == flushed + (waiting + [e])
  {}

  lemma LogJoins(preamble: Bytes, flushed: seq<Entry>, waiting: seq<Entry>)
    ensures preamble + Frames(Payloads(flushed)) + Frames(Payloads(waiting)) ==
            preamble + (Frames(Payloads(flushed)) + Frames(Payloads(waiting)))
    ensures flushed + waiting + [] == flushed + waiting
  {
    Regroup(preamble, Frames(Payloads(flushed)), Frames(Payloads(waiting)));
  }

  lemma Regroup(a: Bytes, b: Bytes, c: Bytes)
    ensures a + b + c == a + (b + c)
  {}

  /** What was written, flushed or not, is the log; what was flushed is the log of all but the waiting entries. */
  lemma {:induction false} FileAndBuffer(wal: WalWriter)
    requires wal.Valid()
    ensures wal.file + wal.buffer == Log(wal.baseRevision, wal.entries)
    ensures |wal.flushed| <= |wal.entries| && wal.file == Log(wal.baseRevision, wal.entries[..|wal.flushed|])
    ensures |wal.flushed| == |wal.entries| - wal.entriesSinceFlush
    ensures |wal.flushed| == |wal.entries| || |wal.entries| - |wal.flushed| < wal.autoFlushThreshold
  {
    PayloadsConcat(wal.flushed, wal.waiting);
    LogJoins(Preamble(wal.baseRevision), wal.flushed, wal.waiting);
    assert wal.entries[..|wal.flushed|] == wal.flushed;
  }

  // ---------------------------------------------------------------------------
  // The reader
  // ---------------------------------------------------------------------------

  datatype ReadError = Truncated | BadMagic | TooLong | Undecodable | BadVersion

  class WalReader {
    const data: Bytes
    const header: Header
    var position: nat

    ghost predicate Valid()
      reads this
    {
      position <= |data|
    }

    constructor (data: Bytes, header: Header, position: nat)
      requires position <= |data|
      ensures Valid() && this.data == data && this.header == header && this.position == position
    {
      this.data, this.header, this.position := data, header, position;
    }

    /** One entry; the end of the file, even within a length field, is reported as the end of the log. */
    method NextEntry() returns (r: Result<Option<Entry>, ReadError>)
      requires Valid()
      modifies this`position
      ensures Valid() && r == Decoded(NextOf(data[old(position)..]))
      ensures r.Ok? && r.value.Some? ==> data[position..] == AfterFirst(data[old(position)..])
    {
      ghost var bytes := data[position..];
      if |data| - position < 4 {
        position := |data|;
        return Ok(None);
      }
      var lengthBytes := data[position..position + 4];
      assert bytes[..4] == lengthBytes;
      var length := FromLittleEndian(lengthBytes);
      position := position + 4;
      if length > MAX_ENTRY_LEN {
        return Err(TooLong);
      }
      if |data| - position < length {
        position := |data|;
        return Err(Truncated);
      }
      var payload := data[position..position + length];
      assert bytes[4..4 + length] == payload;
      position := position + length;
      match DecodeEntry(payload)
      case None => r := Err(Undecodable);
      case Some(e) => r := Ok(Some(e));
    }
  }

  /** The payload of the first frame, by the rules of the reader. */
  function NextOf(bytes: Bytes): (r: Result<Option<Bytes>, ReadError>)
    ensures r.Ok? && r.value.Some? ==> 4 + |r.value.value| <= |bytes|
  {
    if |bytes| < 4 then Ok(None)
    else
      var length := FromLittleEndian(bytes[..4]);
      if length > MAX_ENTRY_LEN then Err(TooLong)
      else if |bytes| < 4 + length then Err(Truncated)
      else Ok(Some(bytes[4..4 + length]))
  }

  function Decoded(next: Result<Option<Bytes>, ReadError>): Result<Option<Entry>, ReadError> {
    match next
    case Err(e) => Err(e)
    case Ok(None) => Ok(None)
    case Ok(Some(payload)) =>
      match DecodeEntry(payload)
      case None => Err(Undecodable)
      case Some(e) => Ok(Some(e))
  }

  datatype Opened = Opened(header: Header, start: nat)

  /** The header of a file and where its entries begin, by the rules of the reader. */
  function HeaderOf(data: Bytes): (r: Result<Opened, ReadError>)
    ensures r.Ok? ==> r.value.start <= |data|
  {
    if |data| < 8 then Err(Truncated)
    else if data[..8] != MAGIC then Err(BadMagic)
    else if |data| < 12 then Err(Truncated)
    else
      var length := FromLittleEndian(data[8..12]);
      if length > MAX_HEADER_LEN then Err(TooLong)
      else if |data| < 12 + length then Err(Truncated)
      else
        match DecodeHeader(data[12..12 + length])
        case None => Err(Undecodable)
        case Some(header) =>
          if header.formatVersion != FORMAT_VERSION then Err(BadVersion) else Ok(Opened(header, 12 + length))
  }

  method OpenWal(data: Bytes) returns (r: Result<WalReader, ReadError>)
    ensures match HeaderOf(data)
            case Err(e) => r == Err(e)
            case Ok(Opened(header, start)) =>
              && r.Ok? && fresh(r.value)
              && r.value.data == data && r.value.header == header && r.value.position == start
  {
    var position := 8;
    if |data| < position {
      return Err(Truncated);
    }
    if data[..position] != MAGIC {
      return Err(BadMagic);
    }
    if |data| - position < 4 {
      return Err(Truncated);
    }
    var length := FromLittleEndian(data[position..position + 4]);
    position := position + 4;
    if length > MAX_HEADER_LEN {
      return Err(TooLong);
    }
    if |data| - position < length {
      return Err(Truncated);
    }
    var decoded := DecodeHeader(data[position..position + length]);
    if decoded.None? {
      return Err(Undecodable);
    }
    if decoded.value.formatVersion != FORMAT_VERSION {
      return Err(BadVersion);
    }
    var reader := new WalReader(data, decoded.value, position + length);
    r := Ok(reader);
  }

  /** What the writer puts in front is what the reader finds there. */
  lemma {:induction false} HeaderReadsBack(base: Revision, tail: Bytes)
    requires base < 0x1_0000_0000_0000_0000
    ensures HeaderOf(Preamble(base) + tail) == Ok(Opened(Header(FORMAT_VERSION, base), |Preamble(base)|))
    ensures (Preamble(base) + tail)[|Preamble(base)|..] == tail
  {
    var header := Header(FORMAT_VERSION, base);
    var h, data := EncodeHeader(header), Preamble(base) + tail;
    VarintLength(base, 10);
    assert data[..8] == MAGIC;
    assert data[8..12] == LittleEndian(|h|);
    assert data[12..12 + |h|] == h;
    LengthRoundTrip(|h|);
    HeaderRoundTrip(header);
  }

  /** A file that ends within its header is refused as too short, wherever it ends. */
  lemma {:induction false} CutHeaderIsRefused(base: Revision, data: Bytes)
    requires base < 0x1_0000_0000_0000_0000
    requires data <= Preamble(base) && |data| < |Preamble(base)|
    ensures HeaderOf(data) == Err(Truncated)
  {
    var h := EncodeHeader(Header(FORMAT_VERSION, base));
    VarintLength(base, 10);
    LengthRoundTrip(|h|);
    var all := Preamble(base);
    assert all[..8] == MAGIC && all[8..12] == LittleEndian(|h|);
    if 8 <= |data| {
      assert data[..8] == all[..8];
    }
    if 12 <= |data| {
      assert data[8..12] == all[8..12];
    }
  }

  // ---------------------------------------------------------------------------
  // Reading a whole log back, cut anywhere
  // ---------------------------------------------------------------------------

  /** How many frames are wholly inside the first `cut` bytes. */
  function WholeFrames(payloads: seq<Bytes>, cut: nat): (n: nat)
    ensures n <= |payloads|
    ensures |Frames(payloads[..n])| <= cut
    ensures n < |payloads| ==> |Frames(payloads[..n + 1])| > cut
    decreases |payloads|
  {
    if payloads == [] then 0
    else
      var first := Frame(payloads[0]);
      assert Frames(payloads[..1]) == first + Frames([]) by { assert payloads[..1][1..] == []; }
      if cut < |first| then 0
      else
        var n := WholeFrames(payloads[1..], cut - |first|);
        assert payloads[..n + 1][1..] == payloads[1..][..n];
        assert n + 1 < |payloads| ==> payloads[..n + 2][1..] == payloads[1..][..n + 1];
        n + 1
  }

  /** `WholeFrames` is the only number with its property. */
  lemma {:induction false} WholeFramesIs(payloads: seq<Bytes>, cut: nat, n: nat)
    requires n <= |payloads| && |Frames(payloads[..n])| <= cut
    requires n < |payloads| ==> |Frames(payloads[..n + 1])| > cut
    ensures WholeFrames(payloads, cut) == n
  {
    var m := WholeFrames(payloads, cut);
    if m < n {
      FramesPrefix(payloads, m + 1, n);
    } else if n < m {
      FramesPrefix(payloads, n + 1, m);
    }
  }

  lemma SliceOfPrefix(a: Bytes, b: Bytes, i: nat, j: nat)
    requires a <= b && i <= j <= |a|
    ensures a[i..j] == b[i..j]
  {}

  /** Reading from bytes that begin like a frame, whole or cut short. */
  lemma {:induction false} NextOfFrame(bytes: Bytes, payload: Bytes, after: Bytes)
    requires Fits(payload) && 4 <= |bytes| && bytes <= Frame(payload) + after
    ensures NextOf(bytes) == if |bytes| < 4 + |payload| then Err(Truncated) else Ok(Some(payload))
    ensures |bytes| >= 4 + |payload| ==> bytes[4 + |payload|..] <= after
  {
    var length := LittleEndian(|payload|);
    var all := length + (payload + after);
    assert Frame(payload) + after == all;
    assert bytes[..4] == all[..4] == length;
    LengthRoundTrip(|payload|);
    if 4 + |payload| <= |bytes| {
      SliceOfPrefix(bytes, all, 4, 4 + |payload|);
      assert all[4..4 + |payload|] == payload;
      assert bytes[4 + |payload|..] == after[..|bytes| - 4 - |payload|];
    }
  }

  /** Any four bytes that give a length within the limit, lowest first, and that many bytes behind them. */
  lemma {:induction false} FrameIsRead(b0: byte, b1: byte, b2: byte, b3: byte, payload: Bytes, after: Bytes)
    requires |payload| == b0 as nat + 256 * b1 as nat + 65536 * b2 as nat + 16777216 * b3 as nat
    requires |payload| <= 100_000_000
    ensures NextOf([b0, b1, b2, b3] + payload + after) == Ok(Some(payload))
    ensures AfterFirst([b0, b1, b2, b3] + payload + after) == after
  {
    var bytes := [b0, b1, b2, b3] + payload + after;
    assert bytes[..4] == [b0, b1, b2, b3];
    assert bytes[4..4 + |payload|] == payload;
    assert bytes[4 + |payload|..] == after;
  }

  /** The same for the header, behind the magic bytes. */
  lemma {:induction false} HeaderIsRead(
    b0: byte, b1: byte, b2: byte, b3: byte, payload: Bytes, after: Bytes, base: Revision)
    requires |payload| == b0 as nat + 256 * b1 as nat + 65536 * b2 as nat + 16777216 * b3 as nat
    requires |payload| <= 1_000_000 && DecodeHeader(payload) == Some(Header(1, base))
    ensures HeaderOf([80, 73, 67, 65, 78, 84, 69, 0] + [b0, b1, b2, b3] + payload + after)
            == Ok(Opened(Header(1, base), 12 + |payload|))
  {
    var data := [80, 73, 67, 65, 78, 84, 69, 0] + [b0, b1, b2, b3] + payload + after;
    assert data[..8] == MAGIC;
    assert data[8..12] == [b0, b1, b2, b3];
    assert data[12..12 + |payload|] == payload;
  }

  /** An empty log of a database that was never written to, byte for byte. */
  lemma {:induction false} EmptyLogBytes()
    ensures Log(0, []) == [80, 73, 67, 65, 78, 84, 69, 0, 2, 0, 0, 0, 1, 0]
    ensures HeaderOf([80, 73, 67, 65, 78, 84, 69, 0, 2, 0, 0, 0, 1, 0]) == Ok(Opened(Header(1, 0), 14))
  {
    LengthRoundTrip(2);
    assert EncodeHeader(Header(1, 0)) == [1, 0];
    assert Log(0, []) == MAGIC + LittleEndian(2) + [1, 0];
    var tail: Bytes := [];
    HeaderReadsBack(0, tail);
    assert Preamble(0) + tail == Log(0, []);
  }

  /** Only frames within the limit are read back: a longer entry is written, and refused or misread later. */
  lemma {:induction false} OnlyFittingFramesReadBack(payload: Bytes, after: Bytes)
    ensures NextOf(Frame(payload) + after) == Ok(Some(payload)) <==> Fits(payload)
  {
    var bytes, length := Frame(payload) + after, LittleEndian(|payload|);
    if Fits(payload) {
      NextOfFrame(bytes, payload, after);
    } else {
      assert bytes[..4] == length;
    }
  }

  function AfterFirst(bytes: Bytes): (rest: Bytes)
    requires NextOf(bytes).Ok? && NextOf(bytes).value.Some?
    ensures |rest| < |bytes|
  {
    bytes[4 + |NextOf(bytes).value.value|..]
  }

  /** All entries up to the end or the first error, by the rules of the reader. */
  function ReadLog(bytes: Bytes): (r: (seq<Entry>, Option<ReadError>))
    decreases |bytes|
  {
    match Decoded(NextOf(bytes))
    case Err(e) => ([], Some(e))
    case Ok(None) => ([], None)
    case Ok(Some(entry)) =>
      var (entries, error) := ReadLog(AfterFirst(bytes));
      ([entry] + entries, error)
  }

  ghost predicate AllFit(written: seq<Entry>) {
    forall e | e in written :: Fits(EncodeEntry(e))
  }

  lemma {:induction false} FirstFrameIsWhole(payloads: seq<Bytes>, cut: nat)
    requires payloads != [] && 4 + |payloads[0]| <= cut
    ensures var n := WholeFrames(payloads[1..], cut - 4 - |payloads[0]|);
            && WholeFrames(payloads, cut) == n + 1
            && |Frames(payloads[..n + 1])| == 4 + |payloads[0]| + |Frames(payloads[1..][..n])|
  {
    var n := WholeFrames(payloads[1..], cut - 4 - |payloads[0]|);
    assert payloads[..n + 1][1..] == payloads[1..][..n];
  }

  /** The payloads `ReadLog` decodes. */
  function ReadFrames(bytes: Bytes): (r: (seq<Bytes>, Option<ReadError>))
    decreases |bytes|
  {
    match NextOf(bytes)
    case Err(e) => ([], Some(e))
    case Ok(None) => ([], None)
    case Ok(Some(payload)) =>
      var (payloads, error) := ReadFrames(AfterFirst(bytes));
      ([payload] + payloads, error)
  }

  function LeftOver(payloads: seq<Bytes>, bytes: Bytes): Option<ReadError> {
    if |bytes| - |Frames(payloads[..WholeFrames(payloads, |bytes|)])| < 4 then None else Some(Truncated)
  }

  lemma {:induction false} OneMoreWhole(bytes: Bytes, rest: Bytes, payloads: seq<Bytes>)
    requires payloads != [] && |bytes| == 4 + |payloads[0]| + |rest|
    ensures payloads[..WholeFrames(payloads, |bytes|)] ==
            [payloads[0]] + payloads[1..][..WholeFrames(payloads[1..], |rest|)]
    ensures LeftOver(payloads, bytes) == LeftOver(payloads[1..], rest)
  {
    FirstFrameIsWhole(payloads, |bytes|);
    PrefixGrows(payloads, WholeFrames(payloads[1..], |rest|));
  }

  lemma {:induction false} CutFramesRead(bytes: Bytes, payloads: seq<Bytes>)
    requires bytes <= Frames(payloads) && forall p | p in payloads :: Fits(p)
    ensures ReadFrames(bytes) == (payloads[..WholeFrames(payloads, |bytes|)], LeftOver(payloads, bytes))
    decreases |payloads|
  {
    if payloads != [] && 4 <= |bytes| {
      NextOfFrame(bytes, payloads[0], Frames(payloads[1..]));
      if 4 + |payloads[0]| <= |bytes| {
        var rest := bytes[4 + |payloads[0]|..];
        CutFramesRead(rest, payloads[1..]);
        OneMoreWhole(bytes, rest, payloads);
      }
    }
  }

  lemma HeadAndTail<T>(s: seq<T>)
    requires s != []
    ensures s == [s[0]] + s[1..]
  {}

  lemma PrefixGrows<T>(s: seq<T>, n: nat)
    requires n < |s|
    ensures s[..n + 1] == [s[0]] + s[1..][..n]
  {}

  lemma {:induction false} FramesDecode(bytes: Bytes, entries: seq<Entry>)
    requires var payloads := ReadFrames(bytes).0;
             |payloads| == |entries| && forall i | 0 <= i < |entries| :: DecodeEntry(payloads[i]) == Some(entries[i])
    ensures ReadLog(bytes) == (entries, ReadFrames(bytes).1)
    decreases |entries|
  {
    var payloads := ReadFrames(bytes).0;
    if NextOf(bytes).Ok? && NextOf(bytes).value.Some? {
      var rest := AfterFirst(bytes);
      assert payloads == [NextOf(bytes).value.value] + ReadFrames(rest).0;
      assert forall i | 0 <= i < |entries| - 1 :: ReadFrames(rest).0[i] == payloads[i + 1];
      FramesDecode(rest, entries[1..]);
      assert DecodeEntry(payloads[0]) == Some(entries[0]);
      HeadAndTail(entries);
    }
  }

  /**
   On a log that was cut anywhere after its header the entries read are exactly those whose frames
   are whole; what follows is the end of the log if fewer than four bytes are left over, and an
   error otherwise.
   */
  lemma {:induction false} CutLogReads(bytes: Bytes, written: seq<Entry>)
    requires bytes <= Frames(Payloads(written)) && AllFit(written)
    ensures var n := WholeFrames(Payloads(written), |bytes|);
            ReadLog(bytes) == (written[..n], LeftOver(Payloads(written), bytes))
  {
    var payloads := Payloads(written);
    var n := WholeFrames(payloads, |bytes|);
    CutFramesRead(bytes, payloads);
    forall i | 0 <= i < n ensures DecodeEntry(payloads[i]) == Some(written[i]) {
      EntryRoundTrip(written[i]);
    }
    FramesDecode(bytes, written[..n]);
  }

  /** Nothing written is lost or altered. */
  lemma {:induction false} WholeLogReads(written: seq<Entry>)
    requires AllFit(written)
    ensures ReadLog(Frames(Payloads(written))) == (written, None)
  {
    var payloads := Payloads(written);
    assert payloads[..|payloads|] == payloads && written[..|written|] == written;
    CutLogReads(Frames(payloads), written);
    WholeFramesIs(payloads, |Frames(payloads)|, |payloads|);
  }
}
