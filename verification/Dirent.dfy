/** Decoding raw directory records: dirent.Parse with the Linux and the DragonFly layout. */
module Dirent {
  import opened Entries

  type Bytes = seq<byte>

  datatype Layout = Linux(bigEndian: bool) | DragonFly

  const UINT64: nat := 0x1_0000_0000_0000_0000

  // ----- integers in native byte order

  function LittleValue(b: Bytes): nat {
    if b == [] then 0 else b[0] as nat + 256 * LittleValue(b[1..])
  }

  function Reverse(b: Bytes): (r: Bytes)
    ensures |r| == |b| && forall i :: 0 <= i < |b| ==> r[i] == b[|b| - 1 - i]
  {
    if b == [] then [] else Reverse(b[1..]) + [b[0]]
  }

  function Value(layout: Layout, b: Bytes): nat {
    if layout.Linux? && layout.bigEndian then LittleValue(Reverse(b)) else LittleValue(b)
  }

  function LittleBytes(v: nat, size: nat): (b: Bytes)
    ensures |b| == size
  {
    if size == 0 then [] else [(v % 256) as byte] + LittleBytes(v / 256, size - 1)
  }

  function ValueBytes(layout: Layout, v: nat, size: nat): (b: Bytes)
    ensures |b| == size
  {
    if layout.Linux? && layout.bigEndian then Reverse(LittleBytes(v, size)) else LittleBytes(v, size)
  }

  function Power256(size: nat): nat {
    if size == 0 then 1 else 256 * Power256(size - 1)
  }

  lemma {:induction false} LittleRoundTrip(v: nat, size: nat)
    requires v < Power256(size)
    ensures LittleValue(LittleBytes(v, size)) == v
  {
    if size == 0 {
    } else {
      LittleRoundTrip(v / 256, size - 1);
      assert LittleBytes(v, size)[1..] == LittleBytes(v / 256, size - 1);
    }
  }

  lemma ReverseTwice(b: Bytes)
    ensures Reverse(Reverse(b)) == b
  {
  }

  /** Reading an integer gives the one that was written, in either byte order. */
  lemma ValueRoundTrip(layout: Layout, v: nat, size: nat)
    requires v < Power256(size)
    ensures Value(layout, ValueBytes(layout, v, size)) == v
  {
    LittleRoundTrip(v, size);
    ReverseTwice(LittleBytes(v, size));
  }

  /** In little-endian order the first byte is the lowest, in big-endian order the last. */
  lemma ByteOrder(x: byte, b: Bytes)
    ensures Value(Linux(false), [x] + b) == x as nat + 256 * Value(Linux(false), b)
    ensures Value(DragonFly, [x] + b) == x as nat + 256 * Value(DragonFly, b)
    ensures Value(Linux(true), b + [x]) == 256 * Value(Linux(true), b) + x as nat
    ensures forall layout: Layout :: Value(layout, []) == 0
  {
    assert ([x] + b)[1..] == b;
    assert Reverse(b + [x]) == [x] + Reverse(b);
    assert ([x] + Reverse(b))[1..] == Reverse(b);
  }

  function ReadInt(layout: Layout, b: Bytes, off: nat, size: nat): Option<nat> {
    if |b| < off + size then None else Some(Value(layout, b[off..off + size]))
  }

  // ----- the layouts

  /** Where the name starts. */
  function NameOffset(layout: Layout): nat {
    if layout.Linux? then 19 else 16
  }

  function Ino(layout: Layout, b: Bytes): Option<nat> {
    ReadInt(layout, b, 0, 8)
  }

  function RoundUp8(n: nat): nat {
    (n + 7) / 8 * 8
  }

  /** The record length: stored on Linux; on DragonFly the name length and its NUL, rounded up. */
  function Reclen(layout: Layout, b: Bytes): Option<nat> {
    if layout.Linux? then ReadInt(layout, b, 16, 2)
    else
      match ReadInt(layout, b, 8, 2)
      case None => None
      case Some(namlen) => Some((16 + namlen + 1 + 7) - (16 + namlen + 1 + 7) % 8)
  }

  /** The name length: on Linux an unsigned subtraction, which wraps for a record of less than 19
      bytes. */
  function Namlen(layout: Layout, b: Bytes): Option<nat> {
    if layout.Linux? then
      match Reclen(layout, b)
      case None => None
      case Some(reclen) => Some((reclen - 19) % UINT64)
    else ReadInt(layout, b, 8, 2)
  }

  /** The type byte; `None` is an unknown type, to be found out by Lstat. */
  function TypeOfCode(layout: Layout, code: byte): Option<FileType> {
    match code
    case 1 => Some(Irregular)  // DT_FIFO
    case 2 => Some(Irregular)  // DT_CHR
    case 4 => Some(Directory)  // DT_DIR
    case 6 => Some(Irregular)  // DT_BLK
    case 8 => Some(Regular)    // DT_REG
    case 10 => Some(Symlink)   // DT_LNK
    case 12 => Some(Irregular) // DT_SOCK
    case 15 => if layout.DragonFly? then Some(Regular) else None  // DT_DBF
    case _ => None
  }

  function TypeOffset(layout: Layout): nat {
    if layout.Linux? then 18 else 10
  }

  function TypeOf(layout: Layout, b: Bytes): Option<FileType> {
    if TypeOffset(layout) >= |b| then None else TypeOfCode(layout, b[TypeOffset(layout)])
  }

  function UpToNul(b: Bytes): (r: Bytes)
    ensures |r| <= |b| && r == b[..|r|] && 0 !in r
    ensures |r| < |b| ==> b[|r|] == 0
  {
    if b == [] || b[0] == 0 then [] else [b[0]] + UpToNul(b[1..])
  }

  // ----- Parse

  /** `Panic` is a slice expression out of range. */
  datatype Parsed = Parsed(consumed: nat, name: Name, typ: Option<FileType>) | Panic

  function Parse(layout: Layout, buf: Bytes): (r: Parsed)
    ensures r.Parsed? ==> r.consumed <= |buf|
  {
    var reclen := Reclen(layout, buf);
    if reclen.None? || reclen.value > |buf| then Parsed(0, [], None)
    else
      var n := reclen.value;
      var rec := buf[..n];
      var ino := Ino(layout, rec);
      if ino.None? || ino.value == 0 then Parsed(n, [], None)
      else
        var typ := TypeOf(layout, buf);
        var namlen := Namlen(layout, rec);
        if namlen.None? || (NameOffset(layout) + namlen.value) % UINT64 > |rec| then Parsed(n, [], None)
        else
          var end := (NameOffset(layout) + namlen.value) % UINT64;
          if NameOffset(layout) > end then Panic
          else Parsed(n, UpToNul(rec[NameOffset(layout)..end]), typ)
  }

  /** Parse as it is written, with the scan for the NUL as a loop. */
  method ParseRecord(layout: Layout, buf: Bytes) returns (r: Parsed)
    ensures r == Parse(layout, buf)
  {
    var reclen := Reclen(layout, buf);
    if reclen.None? || reclen.value > |buf| {
      return Parsed(0, [], None);
    }
    var consumed := reclen.value;
    var rec := buf[..consumed];
    var ino := Ino(layout, rec);
    if ino.None? || ino.value == 0 {
      return Parsed(consumed, [], None);
    }
    var typ := TypeOf(layout, buf);
    var namoff := NameOffset(layout);
    var namlen := Namlen(layout, rec);
    if namlen.None? || (namoff + namlen.value) % UINT64 > |rec| {
      return Parsed(consumed, [], None);
    }
    var end := (namoff + namlen.value) % UINT64;
    if namoff > end {
      return Panic;
    }
    var namebuf := rec[namoff..end];
    var i := 0;
    while i < |namebuf| && namebuf[i] != 0
      invariant i <= |namebuf| && 0 !in namebuf[..i]
    {
      i := i + 1;
    }
    UpToNulIs(namebuf, i);
    return Parsed(consumed, namebuf[..i], typ);
  }

  lemma {:induction false} UpToNulIs(b: Bytes, i: nat)
    requires i <= |b| && 0 !in b[..i] && (i < |b| ==> b[i] == 0)
    ensures UpToNul(b) == b[..i]
  {
    if i == 0 {
    } else {
      assert b[..i][0] == b[0];
      assert b[1..][..i - 1] == b[..i][1..];
      UpToNulIs(b[1..], i - 1);
    }
  }

  // ----- what Parse guarantees on any bytes whatever

  /** A record length of 18 on Linux, in a record that is complete and not deleted. */
  predicate ShortLinuxRecord(layout: Layout, buf: Bytes) {
    && layout.Linux?
    && |buf| >= 18
    && Value(layout, buf[16..18]) == 18
    && Value(layout, buf[0..8]) != 0
  }

  lemma {:induction false} LittleValueBound(b: Bytes)
    ensures LittleValue(b) < Power256(|b|)
  {
    if b == [] {
    } else {
      LittleValueBound(b[1..]);
    }
  }

  lemma ReadIntBound(layout: Layout, b: Bytes, off: nat)
    requires ReadInt(layout, b, off, 2).Some?
    ensures ReadInt(layout, b, off, 2).value < 65536
  {
    var s := b[off..off + 2];
    LittleValueBound(s);
    LittleValueBound(Reverse(s));
    assert Power256(2) == 65536 by {
      assert Power256(1) == 256;
    }
  }

  lemma PrefixReads(layout: Layout, buf: Bytes, n: nat, off: nat, size: nat)
    requires n <= |buf| && off + size <= n
    ensures ReadInt(layout, buf[..n], off, size) == ReadInt(layout, buf, off, size)
  {
    assert buf[..n][off..off + size] == buf[off..off + size];
  }

  /** Parse indexes out of range if and only if the record is such a short Linux record. */
  lemma PanicsExactly(layout: Layout, buf: Bytes)
    ensures Parse(layout, buf) == Panic <==> ShortLinuxRecord(layout, buf)
  {
    var reclen := Reclen(layout, buf);
    if reclen.Some? && reclen.value <= |buf| {
      var n := reclen.value;
      if n >= 18 {
        PrefixReads(layout, buf, n, 16, 2);
        PrefixReads(layout, buf, n, 0, 8);
      }
      if layout.Linux? {
        ReadIntBound(layout, buf, 16);
      } else {
        ReadIntBound(layout, buf, 8);
        if n >= 10 {
          PrefixReads(layout, buf, n, 8, 2);
        }
      }
    }
  }

  /** ... and otherwise consumes no more than there is, and finds a name without NUL that lies
      inside the record. */
  lemma ParseInBounds(layout: Layout, buf: Bytes)
    requires !ShortLinuxRecord(layout, buf)
    ensures var r := Parse(layout, buf);
            && r.Parsed?
            && r.consumed <= |buf|
            && 0 !in r.name
            && (r.name != [] ==>
                  && NameOffset(layout) + |r.name| <= r.consumed
                  && r.name == buf[NameOffset(layout)..NameOffset(layout) + |r.name|])
  {
    PanicsExactly(layout, buf);
    var r := Parse(layout, buf);
    if r.name != [] {
      NameInRecord(layout, buf);
    }
  }

  /** The smallest record that is out of range: inode 1, record length 18, nothing else. */
  lemma PanicExample()
    ensures Parse(Linux(false), [1, 0, 0, 0, 0, 0, 0, 0, 0, 0, 0, 0, 0, 0, 0, 0, 18, 0]) == Panic
  {
    var buf: Bytes := [1, 0, 0, 0, 0, 0, 0, 0, 0, 0, 0, 0, 0, 0, 0, 0, 18, 0];
    assert buf[16..18] == [18, 0] && buf[0..8][0] == 1;
    assert LittleValue([18, 0]) == 18 by {
      assert [18 as byte, 0][1..] == [0] && [0 as byte][1..] == [];
    }
    PanicsExactly(Linux(false), buf);
  }

  lemma NameInRecord(layout: Layout, buf: Bytes)
    requires Parse(layout, buf).Parsed? && Parse(layout, buf).name != []
    ensures var r := Parse(layout, buf);
            && NameOffset(layout) + |r.name| <= r.consumed <= |buf|
            && r.name == buf[NameOffset(layout)..NameOffset(layout) + |r.name|]
  {
    var r := Parse(layout, buf);
    var rec := buf[..r.consumed];
    var off := NameOffset(layout);
    var end := (off + Namlen(layout, rec).value) % UINT64;
    var raw := rec[off..end];
    assert r.name == UpToNul(raw);
    NestedSlice(buf, r.consumed, off, end, |r.name|);
  }

  lemma NestedSlice(b: Bytes, n: nat, off: nat, end: nat, k: nat)
    requires off + k <= end <= n <= |b|
    ensures b[..n][off..end][..k] == b[off..off + k]
  {
    assert b[..n][off..end] == b[off..end];
    assert b[off..end][..k] == b[off..off + k];
  }

  /** The record at the start of `buf` is cut off, or claims to have no bytes. */
  predicate NoProgress(layout: Layout, buf: Bytes) {
    var reclen := Reclen(layout, buf);
    reclen.None? || reclen.value > |buf| || reclen.value == 0
  }

  /** Nothing is consumed exactly at such a record, and then no name is found either. */
  lemma ConsumesNothingExactly(layout: Layout, buf: Bytes)
    requires !ShortLinuxRecord(layout, buf)
    ensures var p := Parse(layout, buf);
            && p.Parsed?
            && (p.consumed == 0 <==> NoProgress(layout, buf))
            && (p.consumed == 0 ==> p.name == [])
  {
    PanicsExactly(layout, buf);
  }

  lemma RoundsUp(n: nat)
    ensures var up := (n + 7) - (n + 7) % 8;
            up % 8 == 0 && n <= up < n + 8
  {
  }

  /** The fields of a complete DragonFly record are those of the buffer it starts. */
  lemma DragonFlyFields(buf: Bytes, n: nat)
    requires 10 <= n <= |buf|
    ensures Ino(DragonFly, buf[..n]) == Some(Value(DragonFly, buf[0..8]))
    ensures Namlen(DragonFly, buf[..n]) == Some(Value(DragonFly, buf[8..10]))
  {
    PrefixReads(DragonFly, buf, n, 0, 8);
    PrefixReads(DragonFly, buf, n, 8, 2);
  }

  /** DragonFly: the rounded length is a multiple of 8 and has room for the name and its NUL... */
  lemma DragonFlyLength(buf: Bytes)
    requires |buf| >= 10
    ensures var namlen := Value(DragonFly, buf[8..10]);
            var reclen := Reclen(DragonFly, buf);
            && reclen.Some? && reclen.value % 8 == 0
            && 16 + namlen < reclen.value <= 16 + namlen + 8
            && reclen.value < UINT64
  {
    ReadIntBound(DragonFly, buf, 8);
    RoundsUp(16 + Value(DragonFly, buf[8..10]) + 1);
  }

  lemma DragonFlyParses(buf: Bytes, n: nat, namlen: nat)
    requires 10 <= n <= |buf| && n < UINT64 && 16 + namlen <= n && Reclen(DragonFly, buf) == Some(n)
    requires namlen == Value(DragonFly, buf[8..10]) && Value(DragonFly, buf[0..8]) != 0
    ensures Parse(DragonFly, buf) == Parsed(n, UpToNul(buf[16..16 + namlen]), TypeOf(DragonFly, buf))
  {
    DragonFlyFields(buf, n);
    ParseWith(DragonFly, buf, n, Value(DragonFly, buf[0..8]), namlen);
    SliceOfPrefix(buf, n, 16, 16 + namlen);
  }

  lemma SliceOfPrefix(b: Bytes, n: nat, i: nat, j: nat)
    requires i <= j <= n <= |b|
    ensures b[..n][i..j] == b[i..j]
  {
  }

  /** ... so a complete record is never rejected for its name. */
  lemma DragonFlyNeverRejects(buf: Bytes)
    requires |buf| >= 10
    ensures var namlen := Value(DragonFly, buf[8..10]);
            var reclen := Reclen(DragonFly, buf);
            && reclen.Some? && reclen.value % 8 == 0
            && 16 + namlen < reclen.value <= 16 + namlen + 8
            && (reclen.value <= |buf| && Value(DragonFly, buf[0..8]) != 0 ==>
                  Parse(DragonFly, buf)
                  == Parsed(reclen.value, UpToNul(buf[16..16 + namlen]), TypeOf(DragonFly, buf)))
  {
    DragonFlyLength(buf);
    var n := Reclen(DragonFly, buf).value;
    if n <= |buf| && Value(DragonFly, buf[0..8]) != 0 {
      DragonFlyParses(buf, n, Value(DragonFly, buf[8..10]));
    }
  }

  // ----- the record encoder

  /** What a record can be for: the kinds of file, with `Database` on DragonFly only, and any other number
      in the place of the type, such as 0. */
  datatype Kind = Fifo | CharDevice | Dir | BlockDevice | File | Link | Socket | Database | Unknown(code: byte)

  /** The number that stands for it in a record: the DT_ constants. */
  function CodeOf(kind: Kind): byte {
    match kind
    case Unknown(code) => code
    case Fifo => 1
    case CharDevice => 2
    case Dir => 4
    case BlockDevice => 6
    case File => 8
    case Link => 10
    case Socket => 12
    case Database => 15
  }

  predicate ValidKind(layout: Layout, kind: Kind) {
    match kind
    case Unknown(code) => code !in {1, 2, 4, 6, 8, 10, 12} && (layout.DragonFly? ==> code != 15)
    case Database => layout.DragonFly?
    case _ => true
  }

  /** What the walker calls it: a database record is a regular file, and special files are neither files
      nor directories nor links. */
  function FileTypeOf(kind: Kind): Option<FileType> {
    match kind
    case Unknown(_) => None
    case Dir => Some(Directory)
    case File => Some(Regular)
    case Database => Some(Regular)
    case Link => Some(Symlink)
    case _ => Some(Irregular)
  }

  /** A record as the kernel writes it. `filler` is what is left to it: the bytes between inode and
      record length (Linux) or after the type (DragonFly); `padding` follows the name's NUL. */
  datatype Record = Record(ino: nat, kind: Kind, name: Name, filler: Bytes, padding: Bytes)

  function EncodedLength(layout: Layout, r: Record): nat {
    NameOffset(layout) + |r.name| + 1 + |r.padding|
  }

  predicate ValidRecord(layout: Layout, r: Record) {
    && r.ino < UINT64
    && ValidKind(layout, r.kind)
    && 0 !in r.name
    && |r.name| < 65536
    && EncodedLength(layout, r) < 65536
    && (layout.Linux? ==> |r.filler| == 8)
    && (layout.DragonFly? ==>
          |r.filler| == 5 && EncodedLength(layout, r) == RoundUp8(16 + |r.name| + 1))
  }

  function Encode(layout: Layout, r: Record): (b: Bytes)
    requires ValidRecord(layout, r)
    ensures |b| == EncodedLength(layout, r)
  {
    var tail := r.name + [0] + r.padding;
    if layout.Linux? then
      ValueBytes(layout, r.ino, 8) + r.filler + ValueBytes(layout, EncodedLength(layout, r), 2) + [CodeOf(r.kind)]
      + tail
    else
      ValueBytes(layout, r.ino, 8) + ValueBytes(layout, |r.name|, 2) + [CodeOf(r.kind)] + r.filler + tail
  }

  lemma EncodedFields(layout: Layout, r: Record, more: Bytes)
    requires ValidRecord(layout, r)
    ensures var buf := Encode(layout, r) + more;
            && buf[0..8] == ValueBytes(layout, r.ino, 8)
            && buf[TypeOffset(layout)] == CodeOf(r.kind)
            && (layout.Linux? ==> buf[16..18] == ValueBytes(layout, EncodedLength(layout, r), 2))
            && (layout.DragonFly? ==> buf[8..10] == ValueBytes(layout, |r.name|, 2))
            && buf[NameOffset(layout)..EncodedLength(layout, r)] == r.name + [0] + r.padding
  {
  }

  lemma {:induction false} UpToNulOf(name: Name, rest: Bytes)
    requires 0 !in name
    ensures UpToNul(name + [0] + rest) == name
    ensures UpToNul(name) == name
  {
    UpToNulIs(name + [0] + rest, |name|);
    UpToNulIs(name, |name|);
  }

  lemma Powers()
    ensures Power256(2) == 65536 && Power256(8) == UINT64
  {
    assert Power256(1) == 256;
    assert Power256(3) == 0x100_0000;
    assert Power256(4) == 0x1_0000_0000;
    assert Power256(5) == 0x100_0000_0000;
    assert Power256(6) == 0x1_0000_0000_0000;
    assert Power256(7) == 0x100_0000_0000_0000;
  }

  lemma LinuxName(r: Record, layout: Layout, more: Bytes)
    requires layout.Linux? && ValidRecord(layout, r)
    ensures var rec := (Encode(layout, r) + more)[..EncodedLength(layout, r)];
            && Ino(layout, rec) == Some(r.ino)
            && Namlen(layout, rec) == Some(|r.name| + 1 + |r.padding|)
            && rec[19..EncodedLength(layout, r)] == r.name + [0] + r.padding
  {
    var buf, n := Encode(layout, r) + more, EncodedLength(layout, r);
    EncodedReads(layout, r, more);
    PrefixReads(layout, buf, n, 0, 8);
    PrefixReads(layout, buf, n, 16, 2);
    assert buf[..n][19..n] == buf[19..n];
  }

  lemma DragonFlyName(r: Record, more: Bytes)
    requires ValidRecord(DragonFly, r)
    ensures var rec := (Encode(DragonFly, r) + more)[..EncodedLength(DragonFly, r)];
            && Ino(DragonFly, rec) == Some(r.ino)
            && Namlen(DragonFly, rec) == Some(|r.name|)
            && rec[16..16 + |r.name|] == r.name
  {
    var buf, n := Encode(DragonFly, r) + more, EncodedLength(DragonFly, r);
    EncodedReads(DragonFly, r, more);
    PrefixReads(DragonFly, buf, n, 0, 8);
    PrefixReads(DragonFly, buf, n, 8, 2);
    assert buf[..n][16..16 + |r.name|] == buf[16..n][..|r.name|];
  }

  lemma ParseEncodedLinux(layout: Layout, r: Record, more: Bytes)
    requires layout.Linux? && ValidRecord(layout, r)
    ensures Parse(layout, Encode(layout, r) + more)
         == if r.ino == 0 then Parsed(EncodedLength(layout, r), [], None)
            else Parsed(EncodedLength(layout, r), r.name, FileTypeOf(r.kind))
  {
    var buf, n := Encode(layout, r) + more, EncodedLength(layout, r);
    EncodedReads(layout, r, more);
    LinuxName(r, layout, more);
    ParseWith(layout, buf, n, r.ino, |r.name| + 1 + |r.padding|);
    UpToNulOf(r.name, r.padding);
  }

  lemma ParseEncodedDragonFly(r: Record, more: Bytes)
    requires ValidRecord(DragonFly, r)
    ensures Parse(DragonFly, Encode(DragonFly, r) + more)
         == if r.ino == 0 then Parsed(EncodedLength(DragonFly, r), [], None)
            else Parsed(EncodedLength(DragonFly, r), r.name, FileTypeOf(r.kind))
  {
    var buf, n := Encode(DragonFly, r) + more, EncodedLength(DragonFly, r);
    EncodedReads(DragonFly, r, more);
    DragonFlyName(r, more);
    ParseWith(DragonFly, buf, n, r.ino, |r.name|);
    UpToNulOf(r.name, r.padding);
  }

  /** The round trip: whatever follows a record in the buffer, Parse consumes just the record and
      finds its name and the type of its kind; a deleted record (inode 0) is consumed with no name. */
  lemma ParseEncoded(layout: Layout, r: Record, more: Bytes)
    requires ValidRecord(layout, r)
    ensures Parse(layout, Encode(layout, r) + more)
         == if r.ino == 0 then Parsed(EncodedLength(layout, r), [], None)
            else Parsed(EncodedLength(layout, r), r.name, FileTypeOf(r.kind))
  {
    if layout.Linux? {
      ParseEncodedLinux(layout, r, more);
    } else {
      ParseEncodedDragonFly(r, more);
    }
  }

  /** Parse on a complete record of `n` bytes that has room for `namlen` of them as the name. */
  lemma ParseWith(layout: Layout, buf: Bytes, n: nat, ino: nat, namlen: nat)
    requires n <= |buf| && n < UINT64 && NameOffset(layout) + namlen <= n
    requires Reclen(layout, buf) == Some(n)
    requires Ino(layout, buf[..n]) == Some(ino) && Namlen(layout, buf[..n]) == Some(namlen)
    ensures Parse(layout, buf)
         == if ino == 0 then Parsed(n, [], None)
            else Parsed(n, UpToNul(buf[..n][NameOffset(layout)..NameOffset(layout) + namlen]), TypeOf(layout, buf))
  {
    assert (NameOffset(layout) + namlen) % UINT64 == NameOffset(layout) + namlen;
  }

  lemma EncodedReads(layout: Layout, r: Record, more: Bytes)
    requires ValidRecord(layout, r)
    ensures var buf := Encode(layout, r) + more;
            && ReadInt(layout, buf, 0, 8) == Some(r.ino)
            && Reclen(layout, buf) == Some(EncodedLength(layout, r))
            && (layout.Linux? ==> ReadInt(layout, buf, 16, 2) == Some(EncodedLength(layout, r)))
            && (layout.DragonFly? ==> ReadInt(layout, buf, 8, 2) == Some(|r.name|))
            && TypeOf(layout, buf) == FileTypeOf(r.kind)
            && buf[NameOffset(layout)..EncodedLength(layout, r)] == r.name + [0] + r.padding
  {
    Powers();
    EncodedFields(layout, r, more);
    ValueRoundTrip(layout, r.ino, 8);
    if layout.Linux? {
      ValueRoundTrip(layout, EncodedLength(layout, r), 2);
    } else {
      ValueRoundTrip(layout, |r.name|, 2);
    }
  }
}
