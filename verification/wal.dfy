/** The bytes of the write-ahead log: fixed headers, payloads, and recovery of a file whose tail may be torn. */
module WalBytes {
  type Byte = x: int | 0 <= x < 256

  type Bytes = seq<Byte>

  /** Any checksum with 32-bit results. */
  type Checksum = Bytes -> nat

  ghost predicate Fits(crc: Checksum)
  {
    forall s: Bytes :: crc(s) < 0x1_0000_0000
  }

  const HEADER_SIZE: nat := 28
  const MAX_PAYLOAD: nat := 67108864
  const MAGIC: Bytes := [0x56, 0x44, 0x42, 0x57]

  datatype Record = Record(lsn: nat, operation: Byte, payload: Bytes)

  /* ---------- little-endian numbers ---------- */

  function Pow(w: nat): nat
  {
    if w == 0 then 1 else 256 * Pow(w - 1)
  }

  function Little(n: nat, w: nat): (s: Bytes)
    ensures |s| == w
    decreases w
  {
    if w == 0 then [] else [n % 256] + Little(n / 256, w - 1)
  }

  function Number(s: Bytes): nat
  {
    if s == [] then 0 else s[0] + 256 * Number(s[1..])
  }

  lemma {:induction false} NumberOfLittle(n: nat, w: nat)
    requires n < Pow(w)
    ensures Number(Little(n, w)) == n
    decreases w
  {
    if w > 0 {
      NumberOfLittle(n / 256, w - 1);
      assert Little(n, w)[1..] == Little(n / 256, w - 1);
    }
  }

  lemma {:induction false} LittleOfNumber(s: Bytes)
    ensures Little(Number(s), |s|) == s && Number(s) < Pow(|s|)
    decreases |s|
  {
    if s != [] {
      LittleOfNumber(s[1..]);
      assert Number(s) % 256 == s[0] && Number(s) / 256 == Number(s[1..]);
      assert s == [s[0]] + s[1..];
    }
  }

  lemma Powers()
    ensures Pow(2) == 0x1_0000 && Pow(4) == 0x1_0000_0000 && Pow(8) == 0x1_0000_0000_0000_0000
  {
    assert Pow(1) == 256;
    assert Pow(3) == 0x100_0000;
    assert Pow(5) == 256 * Pow(4);
    assert Pow(6) == 256 * Pow(5);
    assert Pow(7) == 256 * Pow(6);
  }

  /* ---------- the header ---------- */

  /** The part of the header the checksum covers. */
  function Covered(lsn: nat, operation: Byte, length: nat): (s: Bytes)
    ensures |s| == 20
  {
    Little(1, 2) + [0, 0] + Little(length, 4) + Little(lsn, 8) + [operation, 0, 0, 0]
  }

  function EncodeHeader(crc: Checksum, lsn: nat, operation: Byte, payload: Bytes): (s: Bytes)
    ensures |s| == HEADER_SIZE
  {
    var covered := Covered(lsn, operation, |payload|);
    MAGIC + covered + Little(crc(covered + payload), 4)
  }

  predicate KnownOperation(op: Byte)
  {
    op == 1 || op == 2 || op == 3
  }

  datatype Head = BadHead | Head(length: nat, lsn: nat, operation: Byte, checksum: nat)

  function ReadHead(h: Bytes): Head
    requires |h| == HEADER_SIZE
  {
    if h[..4] != MAGIC || Number(h[4..6]) != 1 || Number(h[6..8]) != 0 || h[21] != 0 || h[22] != 0
        || h[23] != 0 then BadHead
    else if Number(h[8..12]) > MAX_PAYLOAD || !KnownOperation(h[20]) then BadHead
    else Head(Number(h[8..12]), Number(h[12..20]), h[20], Number(h[24..28]))
  }

  lemma Part(h: Bytes, before: Bytes, part: Bytes, after: Bytes)
    requires h == before + part + after
    ensures h[|before|..|before| + |part|] == part
  {
  }

  lemma Fields(a: Bytes, b: Bytes, c: Bytes, d: Bytes, e: Bytes, f: Bytes, g: Bytes)
    requires |a| == 4 && |b| == 2 && |c| == 2 && |d| == 4 && |e| == 8 && |f| == 4 && |g| == 4
    ensures var h := a + (b + c + d + e + f) + g;
            && h[..4] == a && h[4..6] == b && h[6..8] == c && h[8..12] == d && h[12..20] == e && h[20..24] == f
               && h[24..28] == g
            && h[20] == f[0] && h[21] == f[1] && h[22] == f[2] && h[23] == f[3]
  {
    var h := a + (b + c + d + e + f) + g;
    Part(h, [], a, b + c + d + e + f + g);
    Part(h, a, b, c + d + e + f + g);
    Part(h, a + b, c, d + e + f + g);
    Part(h, a + b + c, d, e + f + g);
    Part(h, a + b + c + d, e, f + g);
    Part(h, a + b + c + d + e, f, g);
    Part(h, a + b + c + d + e + f, g, []);
    assert forall i :: 0 <= i < 4 ==> h[20..24][i] == h[20 + i];
  }

  lemma HeadOfHeader(crc: Checksum, r: Record)
    requires Fits(crc) && r.lsn < 0x1_0000_0000_0000_0000 && KnownOperation(r.operation) && |r.payload| <= MAX_PAYLOAD
    ensures ReadHead(EncodeHeader(crc, r.lsn, r.operation, r.payload)) ==
            Head(|r.payload|, r.lsn, r.operation, crc(Covered(r.lsn, r.operation, |r.payload|) + r.payload))
    ensures EncodeHeader(crc, r.lsn, r.operation, r.payload)[4..24] == Covered(r.lsn, r.operation, |r.payload|)
  {
    hide Little, Number, Pow;
    var sum := crc(Covered(r.lsn, r.operation, |r.payload|) + r.payload);
    Powers();
    NumberOfLittle(1, 2);
    NumberOfLittle(|r.payload|, 4);
    NumberOfLittle(r.lsn, 8);
    NumberOfLittle(sum, 4);
    ZeroNumber();
    Fields(MAGIC, Little(1, 2), [0, 0], Little(|r.payload|, 4), Little(r.lsn, 8), [r.operation, 0, 0, 0],
        Little(sum, 4));
  }

  lemma ZeroNumber()
    ensures Number([0, 0]) == 0
  {
    assert [0, 0][1..] == [0];
  }

  lemma HeaderOfHead(crc: Checksum, h: Bytes, payload: Bytes)
    requires |h| == HEADER_SIZE && ReadHead(h).Head? && |payload| == ReadHead(h).length
    requires ReadHead(h).checksum == crc(h[4..24] + payload)
    ensures h == EncodeHeader(crc, ReadHead(h).lsn, ReadHead(h).operation, payload)
    ensures ReadHead(h).lsn < 0x1_0000_0000_0000_0000
  {
    hide Little, Number, Pow;
    Powers();
    LittleOfNumber(h[4..6]);
    LittleOfNumber(h[6..8]);
    LittleOfNumber(h[8..12]);
    LittleOfNumber(h[12..20]);
    LittleOfNumber(h[24..28]);
    LittleZero();
    assert h[20..24] == [h[20], h[21], h[22], h[23]];
    assert h[4..24] == h[4..6] + h[6..8] + h[8..12] + h[12..20] + h[20..24];
    assert h == h[..4] + h[4..24] + h[24..28];
  }

  lemma LittleZero()
    ensures Little(0, 2) == [0, 0]
  {
    assert Little(0, 1) == [0];
  }

  /* ---------- files ---------- */

  function Frame(crc: Checksum, r: Record): Bytes
  {
    EncodeHeader(crc, r.lsn, r.operation, r.payload) + r.payload
  }

  function File(crc: Checksum, records: seq<Record>): Bytes
  {
    if records == [] then [] else File(crc, records[..|records| - 1]) + Frame(crc, records[|records| - 1])
  }

  predicate Appendable(r: Record)
  {
    0 < r.lsn < 0x1_0000_0000_0000_0000 && KnownOperation(r.operation) && |r.payload| <= MAX_PAYLOAD
  }

  /** What a log that only ever appended holds. */
  predicate Sequence(records: seq<Record>)
  {
    && (forall i :: 0 <= i < |records| ==> Appendable(records[i]))
    && (forall i :: 0 < i < |records| ==> records[i].lsn == records[i - 1].lsn + 1)
  }

  function Last(records: seq<Record>): nat
  {
    if records == [] then 0 else records[|records| - 1].lsn
  }

  function Above(records: seq<Record>, after: nat): seq<Record>
  {
    if records == [] then []
    else Above(records[..|records| - 1], after) + if records[|records| - 1].lsn > after then [records[|records| - 1]]
        else []
  }

  datatype Outcome = Corrupt | Recovered(records: seq<Record>, validBytes: nat)

  /** One record at `pos`: the end of the usable file, a corruption, or a record. */
  datatype Parsed = Torn | Damaged | Whole(record: Record)

  function ParseAt(crc: Checksum, f: Bytes, pos: nat, last: nat): Parsed
    requires pos <= |f|
  {
    if |f| - pos < HEADER_SIZE then Torn
    else
      var h := f[pos..pos + HEADER_SIZE];
      var head := ReadHead(h);
      if head.BadHead? || (last != 0 && head.lsn != (last + 1) % 0x1_0000_0000_0000_0000) then Damaged
      else if |f| - pos - HEADER_SIZE < head.length then Torn
      else
        var payload := f[pos + HEADER_SIZE..pos + HEADER_SIZE + head.length];
        if crc(h[4..24] + payload) != head.checksum then Damaged else Whole(Record(head.lsn, head.operation, payload))
  }

  function Recover(crc: Checksum, f: Bytes, pos: nat, read: seq<Record>): Outcome
    requires pos <= |f|
    decreases |f| - pos
  {
    match ParseAt(crc, f, pos, Last(read))
    case Torn => Recovered(read, pos)
    case Damaged => Corrupt
    case Whole(r) =>
      var next := pos + HEADER_SIZE + |r.payload|;
      if next <= |f| then Recover(crc, f, next, read + [r]) else Corrupt
  }

  lemma RecoverOne(crc: Checksum, f: Bytes, pos: nat, read: seq<Record>)
    requires pos <= |f|
    ensures match ParseAt(crc, f, pos, Last(read))
            case Torn => Recover(crc, f, pos, read) == Recovered(read, pos)
            case Damaged => Recover(crc, f, pos, read) == Corrupt
            case Whole(r) =>
              var next := pos + HEADER_SIZE + |r.payload|;
              next <= |f| ==> Recover(crc, f, pos, read) == Recover(crc, f, next, read + [r])
  {
    hide ParseAt;
  }

  /** Reads the file front to back, applying what lies above `after`. */
  method RecoverFile(crc: Checksum, f: Bytes, after: nat)
      returns (ok: bool, lastLSN: nat, validBytes: nat, applied: seq<Record>)
    ensures ok <==> Recover(crc, f, 0, []).Recovered?
    ensures ok ==> var o := Recover(crc, f, 0, []);
            lastLSN == Last(o.records) && validBytes == o.validBytes && applied == Above(o.records, after)
  {
    hide ReadHead, Recover;
    lastLSN, validBytes, applied := 0, 0, [];
    ghost var read: seq<Record> := [];
    while true
      invariant validBytes <= |f| && Recover(crc, f, 0, []) == Recover(crc, f, validBytes, read)
      invariant lastLSN == Last(read) && applied == Above(read, after)
      decreases |f| - validBytes
    {
      RecoverOne(crc, f, validBytes, read);
      if |f| - validBytes < HEADER_SIZE { return true, lastLSN, validBytes, applied; }
      var header := f[validBytes..validBytes + HEADER_SIZE];
      var head := ReadHead(header);
      if head.BadHead? { return false, 0, 0, applied; }
      if lastLSN != 0 && head.lsn != (lastLSN + 1) % 0x1_0000_0000_0000_0000 { return false, 0, 0, applied; }
      if |f| - validBytes - HEADER_SIZE < head.length { return true, lastLSN, validBytes, applied; }
      var payload := f[validBytes + HEADER_SIZE..validBytes + HEADER_SIZE + head.length];
      if crc(header[4..24] + payload) != head.checksum { return false, 0, 0, applied; }
      var r := Record(head.lsn, head.operation, payload);
      if head.lsn > after { applied := applied + [r]; }
      assert (read + [r])[..|read|] == read;
      read := read + [r];
      lastLSN := head.lsn;
      validBytes := validBytes + HEADER_SIZE + head.length;
    }
  }

  /* ---------- torn tails ---------- */

  lemma {:induction false} FilePrefix(crc: Checksum, records: seq<Record>, k: nat)
    requires k <= |records|
    ensures File(crc, records[..k]) <= File(crc, records)
    decreases |records|
  {
    hide Frame;
    if k == |records| {
      assert records[..k] == records;
    } else {
      var n := |records| - 1;
      FilePrefix(crc, records[..n], k);
      assert records[..n][..k] == records[..k];
    }
  }

  lemma FileShorter(crc: Checksum, records: seq<Record>, j: nat, k: nat)
    requires j <= k <= |records|
    ensures |File(crc, records[..j])| <= |File(crc, records[..k])|
  {
    hide File;
    FilePrefix(crc, records[..k], j);
    assert records[..k][..j] == records[..j];
  }

  /** How many records lie whole within the first `n` bytes. */
  ghost function WholeRecords(crc: Checksum, records: seq<Record>, n: nat): (k: nat)
    ensures k <= |records|
    decreases |records|
  {
    if records == [] || |File(crc, records)| <= n then |records| else WholeRecords(crc, records[..|records| - 1], n)
  }

  /** It is the largest such number. */
  lemma {:induction false} WholeExact(crc: Checksum, records: seq<Record>, n: nat)
    ensures var k := WholeRecords(crc, records, n);
            && |File(crc, records[..k])| <= n
            && (k < |records| ==> n < |File(crc, records[..k + 1])|)
    decreases |records|
  {
    hide Frame;
    if records == [] || |File(crc, records)| <= n {
      assert records[..|records|] == records;
    } else {
      var m := |records| - 1;
      WholeExact(crc, records[..m], n);
      var k := WholeRecords(crc, records[..m], n);
      assert records[..m][..k] == records[..k];
      if k < m { assert records[..m][..k + 1] == records[..k + 1]; } else { assert records[..k + 1] == records; }
    }
  }

  lemma FilePush(crc: Checksum, records: seq<Record>, j: nat)
    requires j < |records|
    ensures File(crc, records[..j + 1]) == File(crc, records[..j]) + Frame(crc, records[j])
  {
    hide Frame;
    assert records[..j + 1][..j] == records[..j];
  }

  lemma FrameSize(crc: Checksum, r: Record)
    ensures |Frame(crc, r)| == HEADER_SIZE + |r.payload|
  {
    hide EncodeHeader;
  }

  lemma FrameAt(crc: Checksum, records: seq<Record>, j: nat)
    requires j < |records|
    ensures var pos := |File(crc, records[..j])|; var end := |File(crc, records[..j + 1])|;
            && end == pos + HEADER_SIZE + |records[j].payload| && end <= |File(crc, records)|
            && File(crc, records)[pos..end] == Frame(crc, records[j])
  {
    hide File, Frame;
    FilePush(crc, records, j);
    FrameSize(crc, records[j]);
    FilePrefix(crc, records, j + 1);
    Middle(File(crc, records), File(crc, records[..j]), Frame(crc, records[j]));
  }

  lemma Middle(f: Bytes, a: Bytes, b: Bytes)
    requires a + b <= f
    ensures f[|a|..|a + b|] == b
  {
    assert f[|a|..|a + b|] == (a + b)[|a|..];
  }

  lemma ParseFrame(crc: Checksum, f: Bytes, pos: nat, r: Record, last: nat)
    requires Fits(crc) && Appendable(r) && (last != 0 ==> r.lsn == last + 1)
    requires pos + HEADER_SIZE + |r.payload| <= |f| && f[pos..pos + HEADER_SIZE + |r.payload|] == Frame(crc, r)
    ensures ParseAt(crc, f, pos, last) == Whole(r)
  {
    hide EncodeHeader, ReadHead, Covered;
    HeadOfHeader(crc, r);
    var g := Frame(crc, r);
    assert f[pos..pos + HEADER_SIZE] == g[..HEADER_SIZE] == EncodeHeader(crc, r.lsn, r.operation, r.payload);
    assert f[pos + HEADER_SIZE..pos + HEADER_SIZE + |r.payload|] == g[HEADER_SIZE..] == r.payload;
  }

  lemma ParseTorn(crc: Checksum, f: Bytes, pos: nat, r: Record, last: nat)
    requires Fits(crc) && Appendable(r) && (last != 0 ==> r.lsn == last + 1)
    requires pos <= |f| < pos + HEADER_SIZE + |r.payload| && f[pos..] <= Frame(crc, r)
    ensures ParseAt(crc, f, pos, last) == Torn
  {
    hide EncodeHeader, ReadHead, Covered;
    HeadOfHeader(crc, r);
    if pos + HEADER_SIZE <= |f| {
      assert f[pos..pos + HEADER_SIZE] == f[pos..][..HEADER_SIZE] == Frame(crc, r)[..HEADER_SIZE];
      assert Frame(crc, r)[..HEADER_SIZE] == EncodeHeader(crc, r.lsn, r.operation, r.payload);
    }
  }

  lemma CutSlice(g: Bytes, n: nat, i: nat, j: nat)
    requires i <= j <= n <= |g|
    ensures g[..n][i..j] == g[i..j]
  {
  }

  lemma CutTail(g: Bytes, n: nat, i: nat, j: nat)
    requires i <= n <= j <= |g|
    ensures g[..n][i..] == g[i..j][..n - i]
  {
  }

  lemma {:induction false} RecoverSteps(crc: Checksum, records: seq<Record>, n: nat, j: nat)
    requires Fits(crc) && Sequence(records) && n <= |File(crc, records)| && j <= WholeRecords(crc, records, n)
    ensures |File(crc, records[..j])| <= n
    ensures var k := WholeRecords(crc, records, n);
            Recover(crc, File(crc, records)[..n], |File(crc, records[..j])|, records[..j])
                == Recovered(records[..k], |File(crc, records[..k])|)
    decreases |records| - j
  {
    hide ParseAt, Frame, Sequence, Appendable, File, WholeRecords;
    var f, k := File(crc, records)[..n], WholeRecords(crc, records, n);
    WholeExact(crc, records, n);
    assert records[..k][..j] == records[..j];
    FilePrefix(crc, records[..k], j);
    var pos := |File(crc, records[..j])|;
    if j < |records| {
      NextExpected(records, j);
      FrameAt(crc, records, j);
      if j < k {
        RecoverSteps(crc, records, n, j + 1);
        var end := |File(crc, records[..j + 1])|;
        CutSlice(File(crc, records), n, pos, end);
        ParseFrame(crc, f, pos, records[j], Last(records[..j]));
        assert records[..j + 1] == records[..j] + [records[j]];
      } else {
        var end := |File(crc, records[..j + 1])|;
        CutTail(File(crc, records), n, pos, end);
        ParseTorn(crc, f, pos, records[j], Last(records[..j]));
      }
    } else {
      assert records[..j] == records;
      ParseEnd(crc, f, pos, Last(records[..j]));
    }
  }

  lemma NextExpected(records: seq<Record>, j: nat)
    requires Sequence(records) && j < |records|
    ensures Appendable(records[j]) && (Last(records[..j]) != 0 ==> records[j].lsn == Last(records[..j]) + 1)
  {
  }

  lemma ParseEnd(crc: Checksum, f: Bytes, pos: nat, last: nat)
    requires pos == |f|
    ensures ParseAt(crc, f, pos, last) == Torn
  {
  }

  /**
   * Torn tails: cut the file of any appended sequence after any number of bytes; recovery succeeds, returns exactly the
   * records that are whole, in order, and the end of the last one.
   */
  lemma TornTail(crc: Checksum, records: seq<Record>, n: nat)
    requires Fits(crc) && Sequence(records) && n <= |File(crc, records)|
    ensures var k := WholeRecords(crc, records, n);
            Recover(crc, File(crc, records)[..n], 0, []) == Recovered(records[..k], |File(crc, records[..k])|)
  {
    RecoverSteps(crc, records, n, 0);
    assert records[..0] == [];
  }

  /* ---------- what acceptance means ---------- */

  ghost predicate Readable(r: Record)
  {
    r.lsn < 0x1_0000_0000_0000_0000 && KnownOperation(r.operation) && |r.payload| <= MAX_PAYLOAD
  }

  lemma ParseSound(crc: Checksum, f: Bytes, pos: nat, last: nat)
    requires pos <= |f| && ParseAt(crc, f, pos, last).Whole?
    ensures var r := ParseAt(crc, f, pos, last).record;
            && pos + HEADER_SIZE + |r.payload| <= |f| && Readable(r)
            && f[pos..pos + HEADER_SIZE + |r.payload|] == Frame(crc, r)
  {
    hide EncodeHeader;
    var h := f[pos..pos + HEADER_SIZE];
    var head := ReadHead(h);
    var payload := f[pos + HEADER_SIZE..pos + HEADER_SIZE + head.length];
    HeaderOfHead(crc, h, payload);
    assert f[pos..pos + HEADER_SIZE + head.length] == h + payload;
  }

  lemma {:induction false} RecoverSound(crc: Checksum, f: Bytes, pos: nat, read: seq<Record>)
    requires pos <= |f| && f[..pos] == File(crc, read) && Recover(crc, f, pos, read).Recovered?
    ensures var o := Recover(crc, f, pos, read);
            read <= o.records && o.validBytes <= |f| && f[..o.validBytes] == File(crc, o.records)
    decreases |f| - pos
  {
    hide ParseAt, Frame;
    var p := ParseAt(crc, f, pos, Last(read));
    if p.Whole? {
      ParseSound(crc, f, pos, Last(read));
      var next := pos + HEADER_SIZE + |p.record.payload|;
      assert f[..next] == f[..pos] + f[pos..next];
      assert (read + [p.record])[..|read|] == read;
      RecoverSound(crc, f, next, read + [p.record]);
    }
  }

  /**
   * Whatever bytes a file holds, if recovery accepts it then the part it keeps is exactly the encoding of the records
   * it read.
   */
  lemma AcceptsOnlyEncodings(crc: Checksum, f: Bytes)
    requires Recover(crc, f, 0, []).Recovered?
    ensures var o := Recover(crc, f, 0, []); o.validBytes <= |f| && f[..o.validBytes] == File(crc, o.records)
  {
    assert f[..0] == [];
    RecoverSound(crc, f, 0, []);
  }

  /* ---------- writing ---------- */

  method PutLittle(a: array<Byte>, at: nat, n: nat, w: nat)
    requires at + w <= a.Length
    modifies a
    ensures a[at..at + w] == Little(n, w)
    ensures a[..at] == old(a[..at]) && a[at + w..] == old(a[at + w..])
    decreases w
  {
    if w > 0 {
      a[at] := n % 256;
      PutLittle(a, at + 1, n / 256, w - 1);
      assert a[at] == a[..at + 1][at];
      assert a[at..at + w] == [a[at]] + a[at + 1..at + w];
      assert a[..at] == a[..at + 1][..at];
    }
  }

  /** A zeroed array of 28 bytes, filled field by field; the checksum is taken over the filled part and the payload. */
  method FillHeader(crc: Checksum, lsn: nat, operation: Byte, payload: Bytes) returns (header: array<Byte>)
    ensures fresh(header) && header[..] == EncodeHeader(crc, lsn, operation, payload)
  {
    hide Little, Covered;
    header := new Byte[HEADER_SIZE](i => 0);
    header[0], header[1], header[2], header[3] := 0x56, 0x44, 0x42, 0x57;
    assert header[..4] == MAGIC;
    PutLittle(header, 4, 1, 2);
    ghost var h1 := header[..];
    assert h1[4..6] == Little(1, 2) && h1[..4] == MAGIC && h1[6..] == seq(22, _ => 0);
    PutLittle(header, 8, |payload|, 4);
    ghost var h2 := header[..];
    assert h2[..8] == h1[..8] && h2[8..12] == Little(|payload|, 4) && h2[12..] == h1[12..];
    PutLittle(header, 12, lsn, 8);
    header[20] := operation;
    ghost var h3 := header[..];
    assert h3[..12] == h2[..12] && h3[12..20] == Little(lsn, 8) && h3[21..] == h2[21..];
    HeaderSoFar(h1, h2, h3, lsn, operation, |payload|);
    PutLittle(header, 24, crc(header[4..24] + payload), 4);
    ghost var h4 := header[..];
    assert h4 == h4[..4] + h4[4..24] + h4[24..];
    assert h4[..4] == h3[..4] && h4[4..24] == h3[4..24];
  }

  lemma HeaderSoFar(h1: Bytes, h2: Bytes, h3: Bytes, lsn: nat, operation: Byte, length: nat)
    requires |h1| == |h2| == |h3| == HEADER_SIZE
    requires h1[..4] == MAGIC && h1[4..6] == Little(1, 2) && h1[6..] == seq(22, _ => 0)
    requires h2[..8] == h1[..8] && h2[8..12] == Little(length, 4) && h2[12..] == h1[12..]
    requires h3[..12] == h2[..12] && h3[12..20] == Little(lsn, 8) && h3[21..] == h2[21..] && h3[20] == operation
    ensures h3[..4] == MAGIC && h3[4..24] == Covered(lsn, operation, length)
  {
    hide Little;
    assert h3[..4] == h3[..12][..4] == h2[..8][..4] == h1[..8][..4];
    assert h3[4..6] == h3[..12][4..6] == h2[..8][4..6] == h1[..8][4..6];
    assert h3[6..8] == h3[..12][6..8] == h2[..8][6..8] == h1[6..][..2] == [0, 0];
    assert h3[8..12] == h3[..12][8..12] == h2[8..12];
    assert h3[21..24] == h3[21..][..3] == h2[12..][9..12] == h1[6..][15..18] == [0, 0, 0];
    assert h3[4..24] == h3[4..6] + h3[6..8] + h3[8..12] + h3[12..20] + [h3[20]] + h3[21..24];
  }

  class Log {
    const crc: Checksum
    var file: Bytes
    var nextLSN: nat
    ghost var records: seq<Record>

    /** The file holds exactly the records appended since the last reset. */
    ghost predicate Valid()
      reads this
    {
      && Fits(crc) && file == File(crc, records) && Sequence(records)
      && 0 < nextLSN <= 0x1_0000_0000_0000_0000 && (records != [] ==> nextLSN == Last(records) + 1)
    }

    constructor (crc: Checksum, initial: nat)
      requires Fits(crc) && initial < 0x1_0000_0000_0000_0000
      ensures Valid() && records == [] && this.crc == crc && nextLSN == if initial == 0 then 1 else initial
    {
      this.crc, file, records := crc, [], [];
      nextLSN := if initial == 0 then 1 else initial;
    }

    /** Zero is the error: an unknown operation or an oversized payload, and nothing is written. */
    method Append(operation: Byte, payload: Bytes) returns (lsn: nat)
      requires Valid() && nextLSN < 0x1_0000_0000_0000_0000
      modifies this
      ensures Valid()
      ensures lsn == if 1 <= operation <= 3 && |payload| <= 64 * 1024 * 1024 then old(nextLSN) else 0
      ensures lsn != 0 ==> records == old(records) + [Record(lsn, operation, payload)] && nextLSN == lsn + 1
      ensures lsn == 0 ==> records == old(records) && nextLSN == old(nextLSN) && file == old(file)
    {
      hide Frame;
      if !KnownOperation(operation) || |payload| > MAX_PAYLOAD { return 0; }
      lsn := nextLSN;
      var r := Record(lsn, operation, payload);
      var header := FillHeader(crc, lsn, operation, payload);
      Framed(crc, r, header[..]);
      file := file + (header[..] + payload);
      assert (records + [r])[..|records|] == records;
      SequencePush(records, r);
      records := records + [r];
      nextLSN := nextLSN + 1;
    }

    method Reset(next: nat) returns (ok: bool)
      requires Valid() && next <= 0x1_0000_0000_0000_0000
      modifies this
      ensures Valid() && ok == (next != 0)
      ensures ok ==> records == [] && file == [] && nextLSN == next
      ensures !ok ==> records == old(records) && file == old(file) && nextLSN == old(nextLSN)
    {
      if next == 0 { return false; }
      file, records, nextLSN := [], [], next;
      ok := true;
    }
  }

  /** A process that stops inside an append leaves a file that reopens to the records before it. */
  lemma TornAppend(crc: Checksum, records: seq<Record>, r: Record, written: Bytes)
    requires Fits(crc) && Sequence(records) && Appendable(r) && (records != [] ==> r.lsn == Last(records) + 1)
    requires written < Frame(crc, r)
    ensures Recover(crc, File(crc, records) + written, 0, []) == Recovered(records, |File(crc, records)|)
  {
    hide Frame, Recover, WholeRecords;
    var file := File(crc, records);
    var all, n := records + [r], |file + written|;
    SequencePush(records, r);
    assert all[..|records|] == records && all[..|all|] == all;
    assert File(crc, all)[..n] == file + written;
    TornTail(crc, all, n);
    var k := WholeRecords(crc, all, n);
    WholeExact(crc, all, n);
    if k < |records| {
      FileShorter(crc, all, k + 1, |records|);
    }
  }

  /** A whole file gives back its records. */
  lemma WholeFile(crc: Checksum, records: seq<Record>)
    requires Fits(crc) && Sequence(records)
    ensures Recover(crc, File(crc, records), 0, []) == Recovered(records, |File(crc, records)|)
  {
    hide Recover, File;
    var n := |File(crc, records)|;
    TornTail(crc, records, n);
    assert File(crc, records)[..n] == File(crc, records) && records[..|records|] == records;
  }

  lemma Framed(crc: Checksum, r: Record, header: Bytes)
    requires header == EncodeHeader(crc, r.lsn, r.operation, r.payload)
    ensures header + r.payload == Frame(crc, r)
  {
  }

  lemma SequencePush(records: seq<Record>, r: Record)
    requires Sequence(records) && Appendable(r) && (records != [] ==> r.lsn == Last(records) + 1)
    ensures Sequence(records + [r])
  {
  }
}
