/**
 * The store-only ZIP writer of `downloadExtensionZip`: for each file a
 * local file header (section 4.3.7 of the PKWARE ZIP application note)
 * followed by the file's bytes, then one central directory header
 * (section 4.3.12) per file, then the end of central directory record
 * (section 4.3.16). Multi-byte fields are little-endian; `DataView`'s
 * `setUint16`/`setUint32` store a length or offset modulo 2^16 / 2^32.
 *
 * The files are given already encoded as bytes (the `TextEncoder` step is
 * foreign). Each header is a fresh zero-filled buffer, as an `ArrayBuffer`
 * is, written field by field; `parts` is the list of byte blocks the
 * `Blob` concatenates.
 */
module Zip {
  import opened Common
  import opened Crc32

  datatype FileEntry = FileEntry(name: seq<Byte>, data: seq<Byte>)

  const LocalSig: bv32 := 0x0403_4B50
  const CentralSig: bv32 := 0x0201_4B50
  const EndSig: bv32 := 0x0605_4B50
  /** "Version needed to extract" (and "made by"): 2.0. */
  const Version: bv16 := 20

  /** `setUint16`'s conversion of a non-negative number. */
  function ToUint16(n: nat): bv16
  {
    (n % 0x1_0000) as bv16
  }

  /** `setUint32`'s conversion of a non-negative number. */
  function ToUint32(n: nat): bv32
  {
    (n % 0x1_0000_0000) as bv32
  }

  /** The `width` low-order bytes of `v`, least significant first. */
  function LeBytes(v: bv32, width: nat): (b: seq<Byte>)
    ensures |b| == width
  {
    if width == 0 then [] else [(v & 0xFF) as Byte] + LeBytes(v >> 8, width - 1)
  }

  /** The two bytes `setUint16(_, v, true)` stores, low byte first. */
  function Le16(v: bv16): (b: seq<Byte>)
    ensures |b| == 2
  {
    LeBytes(v as bv32, 2)
  }

  /** The four bytes `setUint32(_, v, true)` stores, low byte first. */
  function Le32(v: bv32): (b: seq<Byte>)
    ensures |b| == 4
  {
    LeBytes(v, 4)
  }

  /** The two bytes of `Le16`, one by one. */
  lemma {:induction false} Le16Bytes(v: bv16)
    ensures Le16(v) == [(v & 0xFF) as Byte, (v >> 8) as Byte]
  {
    var w := v as bv32;
    assert LeBytes(w >> 8, 1) == [((w >> 8) & 0xFF) as Byte] + LeBytes(w >> 8 >> 8, 0);
  }

  /** The four bytes of `Le32`, one by one. */
  lemma {:induction false} Le32Bytes(v: bv32)
    ensures Le32(v) == [(v & 0xFF) as Byte, ((v >> 8) & 0xFF) as Byte, ((v >> 16) & 0xFF) as Byte, (v >> 24) as Byte]
  {
    assert LeBytes(v >> 8, 3) == [((v >> 8) & 0xFF) as Byte] + LeBytes(v >> 8 >> 8, 2);
    assert LeBytes(v >> 8 >> 8, 2) == [((v >> 8 >> 8) & 0xFF) as Byte] + LeBytes(v >> 8 >> 8 >> 8, 1);
    assert LeBytes(v >> 8 >> 8 >> 8, 1) == [((v >> 8 >> 8 >> 8) & 0xFF) as Byte] + LeBytes(v >> 8 >> 8 >> 8 >> 8, 0);
  }

  /** Fields left as zero are zero bytes. */
  lemma {:induction false} ZeroFields()
    ensures Le16(0) == [0, 0] && Le32(0) == [0, 0, 0, 0]
  {
    Le16Bytes(0);
    Le32Bytes(0);
  }

  /** A little-endian 16-bit field read back from `s` (`getUint16(at, true)`). */
  function Read16(s: seq<Byte>, at: nat): bv16
    requires at + 2 <= |s|
  {
    (s[at] as bv16) | ((s[at + 1] as bv16) << 8)
  }

  /** A little-endian 32-bit field read back from `s` (`getUint32(at, true)`). */
  function Read32(s: seq<Byte>, at: nat): bv32
    requires at + 4 <= |s|
  {
    (s[at] as bv32) | ((s[at + 1] as bv32) << 8) | ((s[at + 2] as bv32) << 16) | ((s[at + 3] as bv32) << 24)
  }

  /** `getUint16(0, true)` reads back what `setUint16(0, v, true)` wrote. */
  lemma {:induction false} Read16Le16(v: bv16)
    ensures Read16(Le16(v), 0) == v
  {
    Le16Bytes(v);
  }

  /** `getUint32(0, true)` reads back what `setUint32(0, v, true)` wrote. */
  lemma {:induction false} Read32Le32(v: bv32)
    ensures Read32(Le32(v), 0) == v
  {
    Le32Bytes(v);
  }

  /**
   * The fields of a local file header: signature, version needed, flags,
   * method (0: stored), time, date, CRC, compressed and uncompressed size,
   * name length, extra length, name.
   */
  function LocalFields(name: seq<Byte>, crc: bv32, size: bv32, nameLen: bv16): (fs: seq<seq<Byte>>)
    ensures |fs| == 12
  {
    [Le32(LocalSig), Le16(Version), Le16(0), Le16(0), Le16(0), Le16(0), Le32(crc),
     Le32(size), Le32(size), Le16(nameLen), Le16(0), name]
  }

  function LocalHeader(e: FileEntry, crc: bv32): seq<Byte>
  {
    Flatten(LocalFields(e.name, crc, ToUint32(|e.data|), ToUint16(|e.name|)))
  }

  /**
   * The fields of a central directory header: signature, version made by,
   * version needed, flags, method, time, date, CRC, sizes, name length,
   * extra and comment lengths, disk number, internal and external
   * attributes, the offset of the local header, name.
   */
  function CentralFields(name: seq<Byte>, crc: bv32, size: bv32, nameLen: bv16, offset: bv32): (fs: seq<seq<Byte>>)
    ensures |fs| == 18
  {
    [Le32(CentralSig), Le16(Version), Le16(Version), Le16(0), Le16(0), Le16(0), Le16(0), Le32(crc),
     Le32(size), Le32(size), Le16(nameLen), Le16(0), Le16(0), Le16(0), Le16(0), Le32(0), Le32(offset), name]
  }

  function CentralHeader(e: FileEntry, crc: bv32, offset: nat): seq<Byte>
  {
    Flatten(CentralFields(e.name, crc, ToUint32(|e.data|), ToUint16(|e.name|), ToUint32(offset)))
  }

  /**
   * The fields of the end of central directory record: signature, this
   * disk, the directory's disk, entries on this disk, entries in all,
   * directory size, directory offset, comment length.
   */
  function EndFields(count: bv16, cdSize: bv32, cdOffset: bv32): (fs: seq<seq<Byte>>)
    ensures |fs| == 8
  {
    [Le32(EndSig), Le16(0), Le16(0), Le16(count), Le16(count), Le32(cdSize), Le32(cdOffset), Le16(0)]
  }

  function EndRecord(count: nat, cdSize: nat, cdOffset: nat): seq<Byte>
  {
    Flatten(EndFields(ToUint16(count), ToUint32(cdSize), ToUint32(cdOffset)))
  }

  /** Where each field of a local file header starts, and its length. */
  lemma {:induction false} LocalLayout(name: seq<Byte>, crc: bv32, size: bv32, nameLen: bv16)
    ensures var fs := LocalFields(name, crc, size, nameLen);
      && Position(fs, 0) == 0 && Position(fs, 1) == 4 && Position(fs, 2) == 6 && Position(fs, 3) == 8
      && Position(fs, 4) == 10 && Position(fs, 5) == 12 && Position(fs, 6) == 14 && Position(fs, 7) == 18
      && Position(fs, 8) == 22 && Position(fs, 9) == 26 && Position(fs, 10) == 28 && Position(fs, 11) == 30
      && Position(fs, 12) == 30 + |name| && |Flatten(fs)| == 30 + |name|
  {
    var fs := LocalFields(name, crc, size, nameLen);
    assert Position(fs, 1) == 4;
    assert Position(fs, 2) == 6;
    assert Position(fs, 3) == 8;
    assert Position(fs, 4) == 10;
    assert Position(fs, 5) == 12;
    assert Position(fs, 6) == 14;
    assert Position(fs, 7) == 18;
    assert Position(fs, 8) == 22;
    assert Position(fs, 9) == 26;
    assert Position(fs, 10) == 28;
    assert Position(fs, 11) == 30;
    FlattenLength(fs);
  }

  /** Where each field of a central directory header starts, and its length. */
  lemma {:induction false} CentralLayout(name: seq<Byte>, crc: bv32, size: bv32, nameLen: bv16, offset: bv32)
    ensures var fs := CentralFields(name, crc, size, nameLen, offset);
      && Position(fs, 0) == 0 && Position(fs, 1) == 4 && Position(fs, 2) == 6 && Position(fs, 3) == 8
      && Position(fs, 4) == 10 && Position(fs, 5) == 12 && Position(fs, 6) == 14 && Position(fs, 7) == 16
      && Position(fs, 8) == 20 && Position(fs, 9) == 24 && Position(fs, 10) == 28 && Position(fs, 11) == 30
      && Position(fs, 12) == 32 && Position(fs, 13) == 34 && Position(fs, 14) == 36 && Position(fs, 15) == 38
      && Position(fs, 16) == 42 && Position(fs, 17) == 46
      && Position(fs, 18) == 46 + |name| && |Flatten(fs)| == 46 + |name|
  {
    var fs := CentralFields(name, crc, size, nameLen, offset);
    assert Position(fs, 1) == 4;
    assert Position(fs, 2) == 6;
    assert Position(fs, 3) == 8;
    assert Position(fs, 4) == 10;
    assert Position(fs, 5) == 12;
    assert Position(fs, 6) == 14;
    assert Position(fs, 7) == 16;
    assert Position(fs, 8) == 20;
    assert Position(fs, 9) == 24;
    assert Position(fs, 10) == 28;
    assert Position(fs, 11) == 30;
    assert Position(fs, 12) == 32;
    assert Position(fs, 13) == 34;
    assert Position(fs, 14) == 36;
    assert Position(fs, 15) == 38;
    assert Position(fs, 16) == 42;
    assert Position(fs, 17) == 46;
    FlattenLength(fs);
  }

  /** Where each field of the end record starts, and its length. */
  lemma {:induction false} EndLayout(count: bv16, cdSize: bv32, cdOffset: bv32)
    ensures var fs := EndFields(count, cdSize, cdOffset);
      && Position(fs, 0) == 0 && Position(fs, 1) == 4 && Position(fs, 2) == 6 && Position(fs, 3) == 8
      && Position(fs, 4) == 10 && Position(fs, 5) == 12 && Position(fs, 6) == 16 && Position(fs, 7) == 20
      && Position(fs, 8) == 22 && |Flatten(fs)| == 22
  {
    var fs := EndFields(count, cdSize, cdOffset);
    assert Position(fs, 1) == 4;
    assert Position(fs, 2) == 6;
    assert Position(fs, 3) == 8;
    assert Position(fs, 4) == 10;
    assert Position(fs, 5) == 12;
    assert Position(fs, 6) == 16;
    assert Position(fs, 7) == 20;
    FlattenLength(fs);
  }

  /** A 16-bit field of a record reads back as the value stored in it. */
  lemma {:induction false} Field16(fs: seq<seq<Byte>>, k: nat, at: nat, v: bv16)
    requires k < |fs| && Position(fs, k) == at && fs[k] == Le16(v)
    ensures at + 2 <= |Flatten(fs)| && Read16(Flatten(fs), at) == v
  {
    BlockAt(fs, k);
    var h := Flatten(fs);
    assert h[at] == Le16(v)[0] && h[at + 1] == Le16(v)[1];
    Read16Le16(v);
  }

  /** A 32-bit field of a record reads back as the value stored in it. */
  lemma {:induction false} Field32(fs: seq<seq<Byte>>, k: nat, at: nat, v: bv32)
    requires k < |fs| && Position(fs, k) == at && fs[k] == Le32(v)
    ensures at + 4 <= |Flatten(fs)| && Read32(Flatten(fs), at) == v
  {
    BlockAt(fs, k);
    var h := Flatten(fs);
    assert h[at] == Le32(v)[0] && h[at + 1] == Le32(v)[1] && h[at + 2] == Le32(v)[2] && h[at + 3] == Le32(v)[3];
    Read32Le32(v);
  }

  /**
   * A local file header: 30 + name bytes; signature 0x04034b50, version 20,
   * method 0 and every other unset field 0; the CRC; both sizes the data
   * length; the name length; the name at offset 30.
   */
  lemma {:induction false} LocalHeaderFields(e: FileEntry, crc: bv32)
    ensures var h := LocalHeader(e, crc);
      && |h| == 30 + |e.name|
      && Read32(h, 0) == 0x0403_4B50 && Read16(h, 4) == 20 && Read16(h, 6) == 0 && Read16(h, 8) == 0
      && Read16(h, 10) == 0 && Read16(h, 12) == 0 && Read32(h, 14) == crc
      && Read32(h, 18) == ToUint32(|e.data|) && Read32(h, 22) == ToUint32(|e.data|)
      && Read16(h, 26) == ToUint16(|e.name|) && Read16(h, 28) == 0 && h[30..] == e.name
  {
    var fs := LocalFields(e.name, crc, ToUint32(|e.data|), ToUint16(|e.name|));
    LocalLayout(e.name, crc, ToUint32(|e.data|), ToUint16(|e.name|));
    Field32(fs, 0, 0, LocalSig);
    Field16(fs, 1, 4, Version);
    Field16(fs, 2, 6, 0);
    Field16(fs, 3, 8, 0);
    Field16(fs, 4, 10, 0);
    Field16(fs, 5, 12, 0);
    Field32(fs, 6, 14, crc);
    Field32(fs, 7, 18, ToUint32(|e.data|));
    Field32(fs, 8, 22, ToUint32(|e.data|));
    Field16(fs, 9, 26, ToUint16(|e.name|));
    Field16(fs, 10, 28, 0);
    BlockAt(fs, 11);
  }

  /**
   * The first fields of a central directory header: signature 0x02014b50,
   * both versions 20, flags, method, time and date 0, the CRC, both sizes
   * the data length, the name length.
   */
  lemma {:induction false} CentralHeaderLead(e: FileEntry, crc: bv32, offset: nat)
    ensures var h := CentralHeader(e, crc, offset);
      && |h| == 46 + |e.name|
      && Read32(h, 0) == 0x0201_4B50 && Read16(h, 4) == 20 && Read16(h, 6) == 20 && Read16(h, 8) == 0
      && Read16(h, 10) == 0 && Read16(h, 12) == 0 && Read16(h, 14) == 0 && Read32(h, 16) == crc
      && Read32(h, 20) == ToUint32(|e.data|) && Read32(h, 24) == ToUint32(|e.data|)
      && Read16(h, 28) == ToUint16(|e.name|)
  {
    var fs := CentralFields(e.name, crc, ToUint32(|e.data|), ToUint16(|e.name|), ToUint32(offset));
    CentralLayout(e.name, crc, ToUint32(|e.data|), ToUint16(|e.name|), ToUint32(offset));
    Field32(fs, 0, 0, CentralSig);
    Field16(fs, 1, 4, Version);
    Field16(fs, 2, 6, Version);
    Field16(fs, 3, 8, 0);
    Field16(fs, 4, 10, 0);
    Field16(fs, 5, 12, 0);
    Field16(fs, 6, 14, 0);
    Field32(fs, 7, 16, crc);
    Field32(fs, 8, 20, ToUint32(|e.data|));
    Field32(fs, 9, 24, ToUint32(|e.data|));
    Field16(fs, 10, 28, ToUint16(|e.name|));
  }

  /**
   * The last fields of a central directory header: extra and comment
   * lengths, disk number and attributes 0, the local header's offset at
   * 42, the name at 46.
   */
  lemma {:induction false} CentralHeaderTail(e: FileEntry, crc: bv32, offset: nat)
    ensures var h := CentralHeader(e, crc, offset);
      && |h| == 46 + |e.name|
      && Read16(h, 30) == 0 && Read16(h, 32) == 0 && Read16(h, 34) == 0 && Read16(h, 36) == 0
      && Read32(h, 38) == 0 && Read32(h, 42) == ToUint32(offset) && h[46..] == e.name
  {
    var fs := CentralFields(e.name, crc, ToUint32(|e.data|), ToUint16(|e.name|), ToUint32(offset));
    CentralLayout(e.name, crc, ToUint32(|e.data|), ToUint16(|e.name|), ToUint32(offset));
    Field16(fs, 11, 30, 0);
    Field16(fs, 12, 32, 0);
    Field16(fs, 13, 34, 0);
    Field16(fs, 14, 36, 0);
    Field32(fs, 15, 38, 0);
    Field32(fs, 16, 42, ToUint32(offset));
    BlockAt(fs, 17);
  }

  /**
   * The end record: 22 bytes; signature 0x06054b50, disk numbers 0, both
   * entry counts, the directory's size and offset, no comment.
   */
  lemma {:induction false} EndRecordFields(count: nat, cdSize: nat, cdOffset: nat)
    ensures var h := EndRecord(count, cdSize, cdOffset);
      && |h| == 22
      && Read32(h, 0) == 0x0605_4B50 && Read16(h, 4) == 0 && Read16(h, 6) == 0
      && Read16(h, 8) == ToUint16(count) && Read16(h, 10) == ToUint16(count)
      && Read32(h, 12) == ToUint32(cdSize) && Read32(h, 16) == ToUint32(cdOffset) && Read16(h, 20) == 0
  {
    var fs := EndFields(ToUint16(count), ToUint32(cdSize), ToUint32(cdOffset));
    EndLayout(ToUint16(count), ToUint32(cdSize), ToUint32(cdOffset));
    Field32(fs, 0, 0, EndSig);
    Field16(fs, 1, 4, 0);
    Field16(fs, 2, 6, 0);
    Field16(fs, 3, 8, ToUint16(count));
    Field16(fs, 4, 10, ToUint16(count));
    Field32(fs, 5, 12, ToUint32(cdSize));
    Field32(fs, 6, 16, ToUint32(cdOffset));
    Field16(fs, 7, 20, 0);
  }

  /** `n` zero bytes: a fresh `ArrayBuffer`. */
  function Zeros(n: nat): (z: seq<Byte>)
    ensures |z| == n
  {
    seq(n, _ => 0)
  }

  /** `view.setUint16(at, v, true)` */
  method SetUint16(a: array<Byte>, at: nat, v: bv16)
    requires at + 2 <= a.Length
    modifies a
    ensures a[..] == old(a[..])[..at] + Le16(v) + old(a[..])[at + 2..]
  {
    a[at] := (v & 0xFF) as Byte;
    a[at + 1] := (v >> 8) as Byte;
    Le16Bytes(v);
  }

  /** `view.setUint32(at, v, true)` */
  method SetUint32(a: array<Byte>, at: nat, v: bv32)
    requires at + 4 <= a.Length
    modifies a
    ensures a[..] == old(a[..])[..at] + Le32(v) + old(a[..])[at + 4..]
  {
    a[at] := (v & 0xFF) as Byte;
    a[at + 1] := ((v >> 8) & 0xFF) as Byte;
    a[at + 2] := ((v >> 16) & 0xFF) as Byte;
    a[at + 3] := (v >> 24) as Byte;
    Le32Bytes(v);
  }

  /** `new Uint8Array(buffer).set(bytes, at)` */
  method SetBytes(a: array<Byte>, at: nat, bytes: seq<Byte>)
    requires at + |bytes| <= a.Length
    modifies a
    ensures a[..] == old(a[..])[..at] + bytes + old(a[..])[at + |bytes|..]
  {
    for i := 0 to |bytes|
      invariant forall k :: 0 <= k < a.Length && !(at <= k < at + i) ==> a[k] == old(a[k])
      invariant forall k :: at <= k < at + i ==> a[k] == bytes[k - at]
    {
      a[at + i] := bytes[i];
    }
    assert a[..] == old(a[..])[..at] + bytes + old(a[..])[at + |bytes|..];
  }

  /** Writing the next field into a buffer whose first bytes `p` are written and the rest still zero. */
  lemma {:induction false} WriteNext(p: seq<Byte>, bytes: seq<Byte>, n: nat)
    requires |p| + |bytes| <= n
    ensures var s := p + Zeros(n - |p|);
      s[..|p|] + bytes + s[|p| + |bytes|..] == p + bytes + Zeros(n - |p| - |bytes|)
  {
    var s := p + Zeros(n - |p|);
    assert s[..|p|] == p;
    assert s[|p| + |bytes|..] == Zeros(n - |p| - |bytes|);
  }

  /** The first `k` fields of `fs` are written at their positions, and the rest of the buffer is still zero. */
  ghost predicate Written(s: seq<Byte>, fs: seq<seq<Byte>>, k: nat)
    requires k <= |fs|
  {
    Position(fs, k) <= |s| && s == Flatten(fs[..k]) + Zeros(|s| - Position(fs, k))
  }

  lemma {:induction false} WrittenLength(fs: seq<seq<Byte>>, k: nat)
    requires k <= |fs|
    ensures |Flatten(fs[..k])| == Position(fs, k)
  {
    FlattenLength(fs[..k]);
    PositionPrefix(fs, k, k);
  }

  /** A field left as zero needs no write: the buffer's zeros are its bytes. */
  lemma {:induction false} Skip(s: seq<Byte>, fs: seq<seq<Byte>>, k: nat)
    requires k < |fs| && Written(s, fs, k) && Position(fs, k + 1) <= |s|
    requires fs[k] == Le16(0) || fs[k] == Le32(0)
    ensures Written(s, fs, k + 1)
  {
    ZeroFields();
    WrittenLength(fs, k);
    FlattenTake(fs, k);
    var n := |s| - Position(fs, k);
    assert Zeros(n) == fs[k] + Zeros(n - |fs[k]|);
  }

  /** `setUint16` of field `k`, at its position. */
  method Put16(a: array<Byte>, ghost fs: seq<seq<Byte>>, k: nat, at: nat, v: bv16)
    requires k < |fs| && fs[k] == Le16(v) && at == Position(fs, k) && at + 2 <= a.Length
    requires Written(a[..], fs, k)
    modifies a
    ensures Written(a[..], fs, k + 1)
  {
    WrittenLength(fs, k);
    SetUint16(a, at, v);
    WriteNext(Flatten(fs[..k]), Le16(v), a.Length);
    FlattenTake(fs, k);
  }

  /** `setUint32` of field `k`, at its position. */
  method Put32(a: array<Byte>, ghost fs: seq<seq<Byte>>, k: nat, at: nat, v: bv32)
    requires k < |fs| && fs[k] == Le32(v) && at == Position(fs, k) && at + 4 <= a.Length
    requires Written(a[..], fs, k)
    modifies a
    ensures Written(a[..], fs, k + 1)
  {
    WrittenLength(fs, k);
    SetUint32(a, at, v);
    WriteNext(Flatten(fs[..k]), Le32(v), a.Length);
    FlattenTake(fs, k);
  }

  /** `set(bytes, at)` of field `k`, at its position. */
  method PutBytes(a: array<Byte>, ghost fs: seq<seq<Byte>>, k: nat, at: nat, bytes: seq<Byte>)
    requires k < |fs| && fs[k] == bytes && at == Position(fs, k) && at + |bytes| <= a.Length
    requires Written(a[..], fs, k)
    modifies a
    ensures Written(a[..], fs, k + 1)
  {
    WrittenLength(fs, k);
    SetBytes(a, at, bytes);
    WriteNext(Flatten(fs[..k]), bytes, a.Length);
    FlattenTake(fs, k);
  }

  /** A fresh zero-filled buffer has no field written yet. */
  lemma {:induction false} Fresh(s: seq<Byte>, fs: seq<seq<Byte>>)
    requires s == Zeros(|s|) && fs != []
    ensures Written(s, fs, 0)
  {
    assert fs[..0] == [];
  }

  /** Once every field is written and the buffer is no longer, it holds the record. */
  lemma {:induction false} Complete(s: seq<Byte>, fs: seq<seq<Byte>>)
    requires Written(s, fs, |fs|) && Position(fs, |fs|) == |s|
    ensures s == Flatten(fs)
  {
    TakeAll(fs);
  }

  /** `setUint32(0, 0x04034b50)` to `setUint16(12, 0)`: the signature, version, flags, method, time and date. */
  method PutLocalLead(a: array<Byte>, ghost fs: seq<seq<Byte>>, name: seq<Byte>, crc: bv32, size: bv32, nameLen: bv16)
    requires fs == LocalFields(name, crc, size, nameLen) && a.Length == 30 + |name| && Written(a[..], fs, 0)
    modifies a
    ensures Written(a[..], fs, 6)
  {
    LocalLayout(name, crc, size, nameLen);
    Put32(a, fs, 0, 0, LocalSig);
    Put16(a, fs, 1, 4, Version);
    Skip(a[..], fs, 2);
    Put16(a, fs, 3, 8, 0);
    Skip(a[..], fs, 4);
    Skip(a[..], fs, 5);
  }

  /** `setUint32(14, crc)` to `set(name, 30)`: the CRC, the sizes, the name's length and the name. */
  method PutLocalRest(a: array<Byte>, ghost fs: seq<seq<Byte>>, name: seq<Byte>, crc: bv32, size: bv32, nameLen: bv16)
    requires fs == LocalFields(name, crc, size, nameLen) && a.Length == 30 + |name| && Written(a[..], fs, 6)
    modifies a
    ensures Written(a[..], fs, 12)
  {
    LocalLayout(name, crc, size, nameLen);
    Put32(a, fs, 6, 14, crc);
    Put32(a, fs, 7, 18, size);
    Put32(a, fs, 8, 22, size);
    Put16(a, fs, 9, 26, nameLen);
    Skip(a[..], fs, 10);
    PutBytes(a, fs, 11, 30, name);
  }

  /** The local file header of one file, written into a fresh zero-filled buffer. */
  method LocalHeaderBytes(e: FileEntry, crc: bv32) returns (lh: array<Byte>)
    ensures fresh(lh) && lh[..] == LocalHeader(e, crc)
  {
    var size, nameLen := ToUint32(|e.data|), ToUint16(|e.name|);
    ghost var fs := LocalFields(e.name, crc, size, nameLen);
    LocalLayout(e.name, crc, size, nameLen);
    lh := new Byte[30 + |e.name|](_ => 0);
    Fresh(lh[..], fs);
    PutLocalLead(lh, fs, e.name, crc, size, nameLen);
    PutLocalRest(lh, fs, e.name, crc, size, nameLen);
    Complete(lh[..], fs);
  }

  /** `setUint32(0, 0x02014b50)` to `setUint16(14, 0)`: the signature, both versions, flags, method, time and date. */
  method PutCentralLead(a: array<Byte>, ghost fs: seq<seq<Byte>>, name: seq<Byte>, crc: bv32, size: bv32, nameLen: bv16, offset: bv32)
    requires fs == CentralFields(name, crc, size, nameLen, offset) && a.Length == 46 + |name| && Written(a[..], fs, 0)
    modifies a
    ensures Written(a[..], fs, 7)
  {
    CentralLayout(name, crc, size, nameLen, offset);
    Put32(a, fs, 0, 0, CentralSig);
    Put16(a, fs, 1, 4, Version);
    Put16(a, fs, 2, 6, Version);
    Skip(a[..], fs, 3);
    Skip(a[..], fs, 4);
    Skip(a[..], fs, 5);
    Skip(a[..], fs, 6);
  }

  /** `setUint32(16, crc)` to `setUint16(28, name.length)`: the CRC, the sizes and the name's length. */
  method PutCentralSizes(a: array<Byte>, ghost fs: seq<seq<Byte>>, name: seq<Byte>, crc: bv32, size: bv32, nameLen: bv16, offset: bv32)
    requires fs == CentralFields(name, crc, size, nameLen, offset) && a.Length == 46 + |name| && Written(a[..], fs, 7)
    modifies a
    ensures Written(a[..], fs, 11)
  {
    CentralLayout(name, crc, size, nameLen, offset);
    Put32(a, fs, 7, 16, crc);
    Put32(a, fs, 8, 20, size);
    Put32(a, fs, 9, 24, size);
    Put16(a, fs, 10, 28, nameLen);
  }

  /** The extra and comment lengths, disk number and attributes are left as the buffer's zeros. */
  lemma {:induction false} SkipCentralZeros(s: seq<Byte>, fs: seq<seq<Byte>>, name: seq<Byte>, crc: bv32, size: bv32, nameLen: bv16, offset: bv32)
    requires fs == CentralFields(name, crc, size, nameLen, offset) && |s| == 46 + |name| && Written(s, fs, 11)
    ensures Written(s, fs, 16)
  {
    CentralLayout(name, crc, size, nameLen, offset);
    Skip(s, fs, 11);
    Skip(s, fs, 12);
    Skip(s, fs, 13);
    Skip(s, fs, 14);
    Skip(s, fs, 15);
  }

  /** Bytes 30 to 41 left zero, `setUint32(42, offset)` and `set(name, 46)`. */
  method PutCentralRest(a: array<Byte>, ghost fs: seq<seq<Byte>>, name: seq<Byte>, crc: bv32, size: bv32, nameLen: bv16, offset: bv32)
    requires fs == CentralFields(name, crc, size, nameLen, offset) && a.Length == 46 + |name| && Written(a[..], fs, 11)
    modifies a
    ensures Written(a[..], fs, 18)
  {
    CentralLayout(name, crc, size, nameLen, offset);
    SkipCentralZeros(a[..], fs, name, crc, size, nameLen, offset);
    Put32(a, fs, 16, 42, offset);
    PutBytes(a, fs, 17, 46, name);
  }

  /** The central directory header of one file whose local header is at `offset`. */
  method CentralHeaderBytes(e: FileEntry, crc: bv32, offset: nat) returns (cd: array<Byte>)
    ensures fresh(cd) && cd[..] == CentralHeader(e, crc, offset)
  {
    var size, nameLen, at := ToUint32(|e.data|), ToUint16(|e.name|), ToUint32(offset);
    ghost var fs := CentralFields(e.name, crc, size, nameLen, at);
    CentralLayout(e.name, crc, size, nameLen, at);
    cd := new Byte[46 + |e.name|](_ => 0);
    Fresh(cd[..], fs);
    PutCentralLead(cd, fs, e.name, crc, size, nameLen, at);
    PutCentralSizes(cd, fs, e.name, crc, size, nameLen, at);
    PutCentralRest(cd, fs, e.name, crc, size, nameLen, at);
    Complete(cd[..], fs);
  }

  /** `setUint32(0, 0x06054b50)` to `setUint16(10, entries.length)`: the signature, disk numbers and entry counts. */
  method PutEndCounts(a: array<Byte>, ghost fs: seq<seq<Byte>>, count: bv16, cdSize: bv32, cdOffset: bv32)
    requires fs == EndFields(count, cdSize, cdOffset) && a.Length == 22 && Written(a[..], fs, 0)
    modifies a
    ensures Written(a[..], fs, 5)
  {
    EndLayout(count, cdSize, cdOffset);
    Put32(a, fs, 0, 0, EndSig);
    Skip(a[..], fs, 1);
    Skip(a[..], fs, 2);
    Put16(a, fs, 3, 8, count);
    Put16(a, fs, 4, 10, count);
  }

  /** `setUint32(12, cdSize)` and `setUint32(16, cdOffset)`; the comment length is left zero. */
  method PutEndDirectory(a: array<Byte>, ghost fs: seq<seq<Byte>>, count: bv16, cdSize: bv32, cdOffset: bv32)
    requires fs == EndFields(count, cdSize, cdOffset) && a.Length == 22 && Written(a[..], fs, 5)
    modifies a
    ensures Written(a[..], fs, 8)
  {
    EndLayout(count, cdSize, cdOffset);
    Put32(a, fs, 5, 12, cdSize);
    Put32(a, fs, 6, 16, cdOffset);
    Skip(a[..], fs, 7);
  }

  /** The end of central directory record, with `count` entries. */
  method EndRecordBytes(count: nat, cdSize: nat, cdOffset: nat) returns (eocd: array<Byte>)
    ensures fresh(eocd) && eocd[..] == EndRecord(count, cdSize, cdOffset)
  {
    var n, size, at := ToUint16(count), ToUint32(cdSize), ToUint32(cdOffset);
    ghost var fs := EndFields(n, size, at);
    EndLayout(n, size, at);
    eocd := new Byte[22](_ => 0);
    Fresh(eocd[..], fs);
    PutEndCounts(eocd, fs, n, size, at);
    PutEndDirectory(eocd, fs, n, size, at);
    Complete(eocd[..], fs);
  }

  /** Where the local header of file `i` starts: the sum of 30 + name + data over the files before it. */
  function Offset(es: seq<FileEntry>, i: nat): nat
    requires i <= |es|
  {
    if i == 0 then 0 else Offset(es, i - 1) + 30 + |es[i - 1].name| + |es[i - 1].data|
  }

  /** The size of the central directory headers of the first `i` files: the sum of 46 + name. */
  function CdSize(es: seq<FileEntry>, i: nat): nat
    requires i <= |es|
  {
    if i == 0 then 0 else CdSize(es, i - 1) + 46 + |es[i - 1].name|
  }

  /** File `j`'s local header. */
  function LocalEntry(es: seq<FileEntry>, j: nat): seq<Byte>
    requires j < |es|
  {
    LocalHeader(es[j], Crc32Of(es[j].data))
  }

  /** File `j`'s central directory header, pointing at its local header. */
  function CentralEntry(es: seq<FileEntry>, j: nat): seq<Byte>
    requires j < |es|
  {
    CentralHeader(es[j], Crc32Of(es[j].data), Offset(es, j))
  }

  /** The local headers and data blocks of the first `i` files, in order. */
  function LocalParts(es: seq<FileEntry>, i: nat): (ps: seq<seq<Byte>>)
    requires i <= |es|
    ensures |ps| == 2 * i
  {
    if i == 0 then [] else LocalParts(es, i - 1) + [LocalEntry(es, i - 1), es[i - 1].data]
  }

  /** The central directory headers of the first `i` files, each pointing at its local header. */
  function CentralDir(es: seq<FileEntry>, i: nat): (cs: seq<seq<Byte>>)
    requires i <= |es|
    ensures |cs| == i
  {
    if i == 0 then [] else CentralDir(es, i - 1) + [CentralEntry(es, i - 1)]
  }

  /** The blocks `downloadExtensionZip` hands to the `Blob` for `es`. */
  function Archive(es: seq<FileEntry>): seq<seq<Byte>>
  {
    var n := |es|;
    LocalParts(es, n) + CentralDir(es, n) + [EndRecord(n, CdSize(es, n), Offset(es, n))]
  }

  /** The layout of a ZIP archive of `es`, block by block. */
  ghost predicate IsArchive(es: seq<FileEntry>, parts: seq<seq<Byte>>)
  {
    var n := |es|;
    && |parts| == 3 * n + 1
    && (forall j :: 0 <= j < n ==> parts[2 * j] == LocalEntry(es, j))
    && (forall j :: 0 <= j < n ==> parts[2 * j + 1] == es[j].data)
    && (forall j :: 0 <= j < n ==> parts[2 * n + j] == CentralEntry(es, j))
    && parts[3 * n] == EndRecord(n, CdSize(es, n), Offset(es, n))
  }

  /** The local headers in `LocalParts`, one by one. */
  lemma {:induction false} LocalPartsHeader(es: seq<FileEntry>, i: nat, j: nat)
    requires j < i <= |es|
    ensures LocalParts(es, i)[2 * j] == LocalEntry(es, j)
  {
    if j < i - 1 {
      LocalPartsHeader(es, i - 1, j);
    }
  }

  /** The data blocks in `LocalParts`, one by one. */
  lemma {:induction false} LocalPartsData(es: seq<FileEntry>, i: nat, j: nat)
    requires j < i <= |es|
    ensures LocalParts(es, i)[2 * j + 1] == es[j].data
  {
    if j < i - 1 {
      LocalPartsData(es, i - 1, j);
    }
  }

  /** The headers of `CentralDir`, one by one. */
  lemma {:induction false} CentralDirAt(es: seq<FileEntry>, i: nat, j: nat)
    requires j < i <= |es|
    ensures CentralDir(es, i)[j] == CentralEntry(es, j)
  {
    if j < i - 1 {
      CentralDirAt(es, i - 1, j);
    }
  }

  /** File `j`'s local header and data in the archive. */
  lemma {:induction false} ArchiveLocal(es: seq<FileEntry>, j: nat)
    requires j < |es|
    ensures Archive(es)[2 * j] == LocalEntry(es, j)
    ensures Archive(es)[2 * j + 1] == es[j].data
  {
    LocalPartsHeader(es, |es|, j);
    LocalPartsData(es, |es|, j);
  }

  /** File `j`'s central directory header in the archive. */
  lemma {:induction false} ArchiveCentral(es: seq<FileEntry>, j: nat)
    requires j < |es|
    ensures Archive(es)[2 * |es| + j] == CentralEntry(es, j)
  {
    var n := |es|;
    assert Archive(es)[2 * n + j] == CentralDir(es, n)[j];
    CentralDirAt(es, n, j);
  }

  /** `Archive` has the layout `IsArchive` describes. */
  lemma {:induction false} ArchiveLayout(es: seq<FileEntry>)
    ensures IsArchive(es, Archive(es))
  {
    forall j | 0 <= j < |es|
      ensures Archive(es)[2 * j] == LocalEntry(es, j)
      ensures Archive(es)[2 * j + 1] == es[j].data
      ensures Archive(es)[2 * |es| + j] == CentralEntry(es, j)
    {
      ArchiveLocal(es, j);
      ArchiveCentral(es, j);
    }
  }

  lemma {:induction false} LocalHeaderLength(e: FileEntry, crc: bv32)
    ensures |LocalHeader(e, crc)| == 30 + |e.name|
  {
    LocalLayout(e.name, crc, ToUint32(|e.data|), ToUint16(|e.name|));
  }

  lemma {:induction false} CentralHeaderLength(e: FileEntry, crc: bv32, offset: nat)
    ensures |CentralHeader(e, crc, offset)| == 46 + |e.name|
  {
    CentralLayout(e.name, crc, ToUint32(|e.data|), ToUint16(|e.name|), ToUint32(offset));
  }

  /** The length of file `j`'s local header. */
  function LocalSize(es: seq<FileEntry>, j: nat): nat
    requires j < |es|
  {
    30 + |es[j].name|
  }

  /** The length of file `j`'s central directory header. */
  function CentralSize(es: seq<FileEntry>, j: nat): nat
    requires j < |es|
  {
    46 + |es[j].name|
  }

  /** The block lengths of an archive of `es`: what the offsets and `cdSize` add up. */
  ghost predicate BlockSizes(es: seq<FileEntry>, parts: seq<seq<Byte>>)
  {
    var n := |es|;
    && |parts| == 3 * n + 1
    && (forall j :: 0 <= j < n ==> |parts[2 * j]| == LocalSize(es, j))
    && (forall j :: 0 <= j < n ==> |parts[2 * j + 1]| == |es[j].data|)
    && (forall j :: 0 <= j < n ==> |parts[2 * n + j]| == CentralSize(es, j))
    && |parts[3 * n]| == 22
  }

  lemma {:induction false} ArchiveSizes(es: seq<FileEntry>, parts: seq<seq<Byte>>)
    requires IsArchive(es, parts)
    ensures BlockSizes(es, parts)
  {
    var n := |es|;
    forall j | 0 <= j < n
      ensures |parts[2 * j]| == LocalSize(es, j) && |parts[2 * n + j]| == CentralSize(es, j)
    {
      SizesAt(es, parts, j);
    }
    EndLayout(ToUint16(n), ToUint32(CdSize(es, n)), ToUint32(Offset(es, n)));
  }

  /** The two headers of file `j` have the lengths the offsets count. */
  lemma {:induction false} SizesAt(es: seq<FileEntry>, parts: seq<seq<Byte>>, j: nat)
    requires IsArchive(es, parts) && j < |es|
    ensures |parts[2 * j]| == LocalSize(es, j) && |parts[2 * |es| + j]| == CentralSize(es, j)
  {
    assert parts[2 * j] == LocalEntry(es, j);
    assert parts[2 * |es| + j] == CentralEntry(es, j);
    LocalHeaderLength(es[j], Crc32Of(es[j].data));
    CentralHeaderLength(es[j], Crc32Of(es[j].data), Offset(es, j));
  }

  /** Local header `j` starts at `offset` as the loop has it: after the headers and data of the files before it. */
  lemma {:induction false} LocalPosition(es: seq<FileEntry>, parts: seq<seq<Byte>>, j: nat)
    requires BlockSizes(es, parts) && j <= |es|
    ensures Position(parts, 2 * j) == Offset(es, j)
  {
    if j > 0 {
      LocalPosition(es, parts, j - 1);
      assert |parts[2 * (j - 1)]| == LocalSize(es, j - 1);
      assert |parts[2 * (j - 1) + 1]| == |es[j - 1].data|;
    }
  }

  /** Central directory header `j` starts at `cdOffset + cdSize` as the second loop has it after `j` headers. */
  lemma {:induction false} CentralPosition(es: seq<FileEntry>, parts: seq<seq<Byte>>, j: nat)
    requires BlockSizes(es, parts) && j <= |es|
    ensures Position(parts, 2 * |es| + j) == Offset(es, |es|) + CdSize(es, j)
  {
    if j > 0 {
      CentralPosition(es, parts, j - 1);
      assert |parts[2 * |es| + (j - 1)]| == CentralSize(es, j - 1);
    } else {
      LocalPosition(es, parts, |es|);
    }
  }

  /** The archive's bytes end with the 22-byte end record right after the central directory. */
  lemma {:induction false} ArchiveLength(es: seq<FileEntry>, parts: seq<seq<Byte>>)
    requires BlockSizes(es, parts)
    ensures |Flatten(parts)| == Offset(es, |es|) + CdSize(es, |es|) + 22
  {
    CentralPosition(es, parts, |es|);
    FlattenLength(parts);
  }

  /** A 16-bit field of a block reads the same in the whole archive. */
  lemma {:induction false} Read16Within(z: seq<Byte>, h: seq<Byte>, p: nat, at: nat)
    requires p + |h| <= |z| && z[p..p + |h|] == h && at + 2 <= |h|
    ensures Read16(z, p + at) == Read16(h, at)
  {
    assert z[p + at] == h[at] && z[p + at + 1] == h[at + 1];
  }

  /** A 32-bit field of a block reads the same in the whole archive. */
  lemma {:induction false} Read32Within(z: seq<Byte>, h: seq<Byte>, p: nat, at: nat)
    requires p + |h| <= |z| && z[p..p + |h|] == h && at + 4 <= |h|
    ensures Read32(z, p + at) == Read32(h, at)
  {
    assert z[p + at] == h[at] && z[p + at + 1] == h[at + 1] && z[p + at + 2] == h[at + 2] && z[p + at + 3] == h[at + 3];
  }

  /** In the archive's bytes, file `j`'s local header block starts at `Offset(es, j)` and its data follows. */
  lemma {:induction false} LocalBlocksAt(es: seq<FileEntry>, parts: seq<seq<Byte>>, j: nat)
    requires BlockSizes(es, parts) && j < |es|
    ensures var z, p, e := Flatten(parts), Offset(es, j), es[j];
      && p + 30 + |e.name| + |e.data| <= |z|
      && z[p..p + 30 + |e.name|] == parts[2 * j]
      && z[p + 30 + |e.name|..p + 30 + |e.name| + |e.data|] == parts[2 * j + 1]
  {
    LocalPosition(es, parts, j);
    assert |parts[2 * j]| == LocalSize(es, j);
    assert |parts[2 * j + 1]| == |es[j].data|;
    BlockAt(parts, 2 * j);
    BlockAt(parts, 2 * j + 1);
  }

  /** In the archive's bytes, file `j`'s central directory header block starts at `Offset(es, n) + CdSize(es, j)`. */
  lemma {:induction false} CentralBlockAt(es: seq<FileEntry>, parts: seq<seq<Byte>>, j: nat)
    requires BlockSizes(es, parts) && j < |es|
    ensures var z, q := Flatten(parts), Offset(es, |es|) + CdSize(es, j);
      && q + 46 + |es[j].name| <= |z| && z[q..q + 46 + |es[j].name|] == parts[2 * |es| + j]
  {
    CentralPosition(es, parts, j);
    assert |parts[2 * |es| + j]| == CentralSize(es, j);
    BlockAt(parts, 2 * |es| + j);
  }

  /** The archive's bytes end with the end record block, right after the central directory. */
  lemma {:induction false} EndBlockAt(es: seq<FileEntry>, parts: seq<seq<Byte>>)
    requires BlockSizes(es, parts)
    ensures var z, r := Flatten(parts), Offset(es, |es|) + CdSize(es, |es|);
      && r + 22 == |z| && z[r..r + 22] == parts[3 * |es|]
  {
    CentralPosition(es, parts, |es|);
    ArchiveLength(es, parts);
    BlockAt(parts, 3 * |es|);
  }

  /** File `j`'s local header sits at `Offset(es, j)` of the archive's bytes, and its data right after it. */
  lemma {:induction false} LocalHeaderInArchive(es: seq<FileEntry>, parts: seq<seq<Byte>>, j: nat)
    requires IsArchive(es, parts) && j < |es|
    ensures var z, p, e := Flatten(parts), Offset(es, j), es[j];
      && p + 30 + |e.name| + |e.data| <= |z|
      && z[p..p + 30 + |e.name|] == LocalHeader(e, Crc32Of(e.data))
      && z[p + 30 + |e.name|..p + 30 + |e.name| + |e.data|] == e.data
  {
    ArchiveSizes(es, parts);
    LocalBlocksAt(es, parts, j);
    assert parts[2 * j] == LocalEntry(es, j);
  }

  /** File `j`'s central directory header sits at `Offset(es, n) + CdSize(es, j)` of the archive's bytes. */
  lemma {:induction false} CentralHeaderInArchive(es: seq<FileEntry>, parts: seq<seq<Byte>>, j: nat)
    requires IsArchive(es, parts) && j < |es|
    ensures var z, q, e := Flatten(parts), Offset(es, |es|) + CdSize(es, j), es[j];
      && q + 46 + |e.name| <= |z|
      && z[q..q + 46 + |e.name|] == CentralHeader(e, Crc32Of(e.data), Offset(es, j))
  {
    ArchiveSizes(es, parts);
    CentralBlockAt(es, parts, j);
    assert parts[2 * |es| + j] == CentralEntry(es, j);
  }

  /** The archive's last 22 bytes are the end record. */
  lemma {:induction false} EndRecordInArchive(es: seq<FileEntry>, parts: seq<seq<Byte>>)
    requires IsArchive(es, parts)
    ensures var z, r := Flatten(parts), Offset(es, |es|) + CdSize(es, |es|);
      && r + 22 == |z| && z[r..r + 22] == EndRecord(|es|, CdSize(es, |es|), Offset(es, |es|))
  {
    ArchiveSizes(es, parts);
    EndBlockAt(es, parts);
  }

  /** A 16-bit field of block `i` reads the same in the concatenation of the blocks. */
  lemma {:induction false} Read16At(parts: seq<seq<Byte>>, i: nat, at: nat)
    requires i < |parts| && at + 2 <= |parts[i]|
    ensures Position(parts, i) + at + 2 <= |Flatten(parts)|
    ensures Read16(Flatten(parts), Position(parts, i) + at) == Read16(parts[i], at)
  {
    BlockAt(parts, i);
    Read16Within(Flatten(parts), parts[i], Position(parts, i), at);
  }

  /** A 32-bit field of block `i` reads the same in the concatenation of the blocks. */
  lemma {:induction false} Read32At(parts: seq<seq<Byte>>, i: nat, at: nat)
    requires i < |parts| && at + 4 <= |parts[i]|
    ensures Position(parts, i) + at + 4 <= |Flatten(parts)|
    ensures Read32(Flatten(parts), Position(parts, i) + at) == Read32(parts[i], at)
  {
    BlockAt(parts, i);
    Read32Within(Flatten(parts), parts[i], Position(parts, i), at);
  }

  /** The fields of a local header that is block `i` of `parts` and starts at `p`, read in the concatenation. */
  lemma {:induction false} LocalFieldsAt(parts: seq<seq<Byte>>, i: nat, p: nat, e: FileEntry, crc: bv32)
    requires i < |parts| && parts[i] == LocalHeader(e, crc) && Position(parts, i) == p
    ensures var z := Flatten(parts);
      && p + 30 <= |z|
      && Read32(z, p) == LocalSig && Read32(z, p + 14) == crc
      && Read32(z, p + 18) == ToUint32(|e.data|) && Read32(z, p + 22) == ToUint32(|e.data|)
      && Read16(z, p + 26) == ToUint16(|e.name|)
  {
    LocalHeaderFields(e, crc);
    Read32At(parts, i, 0);
    Read32At(parts, i, 14);
    Read32At(parts, i, 18);
    Read32At(parts, i, 22);
    Read16At(parts, i, 26);
    BlockEnd(parts, i);
  }

  /** The fields of a central directory header that is block `i` of `parts` and starts at `q`, read in the concatenation. */
  lemma {:induction false} CentralFieldsAt(parts: seq<seq<Byte>>, i: nat, q: nat, e: FileEntry, crc: bv32, offset: nat)
    requires i < |parts| && parts[i] == CentralHeader(e, crc, offset) && Position(parts, i) == q
    ensures var z := Flatten(parts);
      && q + 46 <= |z|
      && Read32(z, q) == CentralSig && Read32(z, q + 16) == crc
      && Read32(z, q + 20) == ToUint32(|e.data|) && Read32(z, q + 24) == ToUint32(|e.data|)
      && Read16(z, q + 28) == ToUint16(|e.name|) && Read32(z, q + 42) == ToUint32(offset)
  {
    CentralHeaderLead(e, crc, offset);
    CentralHeaderTail(e, crc, offset);
    Read32At(parts, i, 0);
    Read32At(parts, i, 16);
    Read32At(parts, i, 20);
    Read32At(parts, i, 24);
    Read16At(parts, i, 28);
    Read32At(parts, i, 42);
  }

  /** The fields of an end record that is block `i` of `parts` and starts at `r`, read in the concatenation. */
  lemma {:induction false} EndFieldsAt(parts: seq<seq<Byte>>, i: nat, r: nat, count: nat, cdSize: nat, cdOffset: nat)
    requires i < |parts| && parts[i] == EndRecord(count, cdSize, cdOffset) && Position(parts, i) == r
    ensures var z := Flatten(parts);
      && r + 22 <= |z|
      && Read32(z, r) == EndSig && Read16(z, r + 8) == ToUint16(count) && Read16(z, r + 10) == ToUint16(count)
      && Read32(z, r + 12) == ToUint32(cdSize) && Read32(z, r + 16) == ToUint32(cdOffset)
  {
    EndRecordFields(count, cdSize, cdOffset);
    Read32At(parts, i, 0);
    Read16At(parts, i, 8);
    Read16At(parts, i, 10);
    Read32At(parts, i, 12);
    Read32At(parts, i, 16);
    BlockEnd(parts, i);
  }

  /** The local header fields a reader checks, read at `Offset(es, j)` of the archive's bytes. */
  lemma {:induction false} LocalFieldsInArchive(es: seq<FileEntry>, parts: seq<seq<Byte>>, j: nat)
    requires IsArchive(es, parts) && j < |es|
    ensures var z, p, e := Flatten(parts), Offset(es, j), es[j];
      && p + 30 <= |z|
      && Read32(z, p) == LocalSig && Read32(z, p + 14) == Crc32Of(e.data)
      && Read32(z, p + 18) == ToUint32(|e.data|) && Read32(z, p + 22) == ToUint32(|e.data|)
      && Read16(z, p + 26) == ToUint16(|e.name|)
  {
    LocalStart(es, parts, j);
    LocalFieldsAt(parts, 2 * j, Offset(es, j), es[j], Crc32Of(es[j].data));
  }

  /** Block `2 * j` of an archive is file `j`'s local header, and it starts at `Offset(es, j)`. */
  lemma {:induction false} LocalStart(es: seq<FileEntry>, parts: seq<seq<Byte>>, j: nat)
    requires IsArchive(es, parts) && j < |es|
    ensures 2 * j < |parts| && parts[2 * j] == LocalHeader(es[j], Crc32Of(es[j].data))
    ensures Position(parts, 2 * j) == Offset(es, j)
  {
    ArchiveSizes(es, parts);
    LocalPosition(es, parts, j);
    assert parts[2 * j] == LocalEntry(es, j);
  }

  /** The central directory header fields a reader checks, read at `Offset(es, n) + CdSize(es, j)`. */
  lemma {:induction false} CentralFieldsInArchive(es: seq<FileEntry>, parts: seq<seq<Byte>>, j: nat)
    requires IsArchive(es, parts) && j < |es|
    ensures var z, q, e := Flatten(parts), Offset(es, |es|) + CdSize(es, j), es[j];
      && q + 46 <= |z|
      && Read32(z, q) == CentralSig && Read32(z, q + 16) == Crc32Of(e.data)
      && Read32(z, q + 20) == ToUint32(|e.data|) && Read32(z, q + 24) == ToUint32(|e.data|)
      && Read16(z, q + 28) == ToUint16(|e.name|) && Read32(z, q + 42) == ToUint32(Offset(es, j))
  {
    CentralStart(es, parts, j);
    CentralFieldsAt(parts, 2 * |es| + j, Offset(es, |es|) + CdSize(es, j), es[j], Crc32Of(es[j].data), Offset(es, j));
  }

  /** Block `2 * |es| + j` of an archive is file `j`'s central directory header, at `Offset(es, |es|) + CdSize(es, j)`. */
  lemma {:induction false} CentralStart(es: seq<FileEntry>, parts: seq<seq<Byte>>, j: nat)
    requires IsArchive(es, parts) && j < |es|
    ensures 2 * |es| + j < |parts| && parts[2 * |es| + j] == CentralHeader(es[j], Crc32Of(es[j].data), Offset(es, j))
    ensures Position(parts, 2 * |es| + j) == Offset(es, |es|) + CdSize(es, j)
  {
    ArchiveSizes(es, parts);
    CentralPosition(es, parts, j);
    assert parts[2 * |es| + j] == CentralEntry(es, j);
  }

  /**
   * What a reader of the archive relies on for file `j`: the central
   * directory header's offset field points at a local header signature,
   * and both headers carry the file's CRC and the same sizes and name
   * length.
   */
  lemma {:induction false} CentralPointsToLocal(es: seq<FileEntry>, parts: seq<seq<Byte>>, j: nat)
    requires IsArchive(es, parts) && j < |es|
    ensures var z, p, q := Flatten(parts), Offset(es, j), Offset(es, |es|) + CdSize(es, j);
      && q + 46 <= |z| && p + 30 <= |z|
      && Read32(z, q) == CentralSig && Read32(z, q + 42) == ToUint32(p)
      && Read32(z, p) == LocalSig
      && Read32(z, p + 14) == Read32(z, q + 16) == Crc32Of(es[j].data)
      && Read32(z, p + 18) == Read32(z, q + 20) && Read32(z, p + 22) == Read32(z, q + 24)
      && Read16(z, p + 26) == Read16(z, q + 28)
  {
    LocalFieldsInArchive(es, parts, j);
    CentralFieldsInArchive(es, parts, j);
  }

  /**
   * The end record, read from the archive's last 22 bytes: the entry
   * count, and the size and offset of the central directory, whose first
   * header is at that offset.
   */
  lemma {:induction false} EndRecordDescribesDirectory(es: seq<FileEntry>, parts: seq<seq<Byte>>)
    requires IsArchive(es, parts)
    ensures var z, n, r := Flatten(parts), |es|, Offset(es, |es|) + CdSize(es, |es|);
      && r + 22 == |z|
      && Read32(z, r) == EndSig && Read16(z, r + 8) == ToUint16(n) && Read16(z, r + 10) == ToUint16(n)
      && Read32(z, r + 12) == ToUint32(CdSize(es, n)) && Read32(z, r + 16) == ToUint32(Offset(es, n))
      && Position(parts, 2 * n) == Offset(es, n)
  {
    ArchiveSizes(es, parts);
    ArchiveLength(es, parts);
    LocalPosition(es, parts, |es|);
    CentralPosition(es, parts, |es|);
    assert 2 * |es| + |es| == 3 * |es|;
    EndFieldsAt(parts, 3 * |es|, Offset(es, |es|) + CdSize(es, |es|), |es|, CdSize(es, |es|), Offset(es, |es|));
  }

  /** The loop body for one file: its CRC, its local header, and its central directory header. */
  method EntryHeaders(e: FileEntry, offset: nat) returns (lh: seq<Byte>, cd: seq<Byte>)
    ensures lh == LocalHeader(e, Crc32Of(e.data))
    ensures cd == CentralHeader(e, Crc32Of(e.data), offset)
  {
    var crc := Crc32.Crc32(e.data);
    var l := LocalHeaderBytes(e, crc);
    var c := CentralHeaderBytes(e, crc, offset);
    lh, cd := l[..], c[..];
  }

  /**
   * `downloadExtensionZip` up to the `Blob`: the headers and data of every
   * file, the central directory, and the end record, as a list of blocks.
   */
  method BuildArchive(entries: seq<FileEntry>) returns (parts: seq<seq<Byte>>)
    ensures parts == Archive(entries)
  {
    var n := |entries|;
    parts := [];
    var centralDir: seq<seq<Byte>> := [];
    var offset := 0;
    for i := 0 to n
      invariant parts == LocalParts(entries, i)
      invariant centralDir == CentralDir(entries, i)
      invariant offset == Offset(entries, i)
    {
      var e := entries[i];
      var lh, cd := EntryHeaders(e, offset);
      parts := parts + [lh, e.data];
      centralDir := centralDir + [cd];
      offset := offset + 30 + |e.name| + |e.data|;
    }
    var cdOffset := offset;
    var cdSize := 0;
    for k := 0 to n
      invariant parts == LocalParts(entries, n) + centralDir[..k]
      invariant cdSize == CdSize(entries, k)
    {
      TakeSnoc(centralDir, k);
      AppendSnoc(LocalParts(entries, n), centralDir[..k], centralDir[k]);
      parts := parts + [centralDir[k]];
      CentralDirAt(entries, n, k);
      CentralLayout(entries[k].name, Crc32Of(entries[k].data), ToUint32(|entries[k].data|), ToUint16(|entries[k].name|), ToUint32(Offset(entries, k)));
      cdSize := cdSize + |centralDir[k]|;
    }
    TakeAll(centralDir);
    var eocd := EndRecordBytes(n, cdSize, cdOffset);
    parts := parts + [eocd[..]];
  }
}
