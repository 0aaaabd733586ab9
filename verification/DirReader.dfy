/** readDir on Unix: the buffer refill loop, the filtering of entries, and the two ways in which
    entries reach onDirEnt, streaming and sorted. */
module DirReader {
  import opened Entries
  import opened Dirent
  import opened Sorting

  const BLOCK_SIZE: nat := 8192

  /** What Lstat finds behind an entry of unknown type. */
  datatype Lstat = Found(typ: FileType) | Gone | Fails(err: Error)

  /** The directory as the kernel hands it out: what successive readdir calls put in the buffer
      (an empty chunk is the end), the error of the call after that, and Lstat. */
  datatype Source = Source(chunks: seq<Bytes>, err: Error, lstat: Name -> Lstat)

  ghost predicate ValidSource(src: Source) {
    && (forall i :: 0 <= i < |src.chunks| ==> |src.chunks[i]| <= BLOCK_SIZE)
    && (forall name :: src.lstat(name).Fails? ==> src.lstat(name).err != Nil)
  }

  /** Why decoding stops: the end of the directory, an error, a record from which nothing is
      consumed (the loop then repeats for ever), or an index out of range in Parse. */
  datatype Stop = End | Broken(err: Error) | Stuck | Crash

  datatype Decoded = Decoded(entries: seq<DirEnt>, stop: Stop)

  const DOT: Name := [46]
  const DOT_DOT: Name := [46, 46]

  predicate Useless(name: Name) {
    name == [] || name == DOT || name == DOT_DOT
  }

  /** What one parsed record contributes. */
  datatype Step = Skip | Yield(e: DirEnt) | Halt(err: Error)

  function Examine(src: Source, name: Name, typ: Option<FileType>): Step {
    if Useless(name) then Skip
    else if typ.Some? then Yield(DirEnt(name, typ.value))
    else
      match src.lstat(name)
      case Found(t) => Yield(DirEnt(name, t))
      case Gone => Skip
      case Fails(err) => Halt(err)
  }

  /** The entries in the rest of a buffer. */
  function DecodeBuffer(layout: Layout, src: Source, buf: Bytes): Decoded
    decreases |buf|
  {
    if buf == [] then Decoded([], End)
    else
      var p := Parse(layout, buf);
      if p.Panic? then Decoded([], Crash)
      else if p.consumed == 0 then Decoded([], Stuck)
      else
        match Examine(src, p.name, p.typ)
        case Skip => DecodeBuffer(layout, src, buf[p.consumed..])
        case Yield(e) =>
          var d := DecodeBuffer(layout, src, buf[p.consumed..]);
          Decoded([e] + d.entries, d.stop)
        case Halt(err) => Decoded([], Broken(err))
  }

  /** The entries in the remaining chunks. */
  function DecodeChunks(layout: Layout, src: Source, i: nat): Decoded
    requires i <= |src.chunks|
    decreases |src.chunks| - i
  {
    if i == |src.chunks| then Decoded([], if src.err == Nil then End else Broken(src.err))
    else if src.chunks[i] == [] then Decoded([], End)
    else Append(DecodeBuffer(layout, src, src.chunks[i]), layout, src, i)
  }

  /** ... after the rest `d` of chunk `i`. */
  function Append(d: Decoded, layout: Layout, src: Source, i: nat): Decoded
    requires i < |src.chunks|
    decreases |src.chunks| - i, 0
  {
    if d.stop != End then d
    else
      var more := DecodeChunks(layout, src, i + 1);
      Decoded(d.entries + more.entries, more.stop)
  }

  // ----- the loop over the entries

  /** onDirEnt, as far as readDir can tell: its answer may depend on the entries it got before. */
  type OnDirEnt = (seq<DirEnt>, DirEnt) -> Error

  /** The entries passed to onDirEnt, and the error that ended the loop. */
  datatype Visits = Visits(passed: seq<DirEnt>, err: Error)

  /** The loop, as a fold over the entries. */
  function Fold(onDirEnt: OnDirEnt, passed: seq<DirEnt>, skipFiles: bool, entries: seq<DirEnt>): Visits
    decreases |entries|
  {
    if entries == [] then Visits(passed, Nil)
    else
      var e, rest := entries[0], entries[1..];
      if skipFiles && e.typ == Regular then Fold(onDirEnt, passed, skipFiles, rest)
      else
        var err := onDirEnt(passed, e);
        if err == Nil then Fold(onDirEnt, passed + [e], skipFiles, rest)
        else if err == SkipFiles then Fold(onDirEnt, passed + [e], true, rest)
        else Visits(passed + [e], err)
  }

  datatype Outcome =
    | Returns(passed: seq<DirEnt>, err: Error)
    | Loops(passed: seq<DirEnt>)
    | Crashes(passed: seq<DirEnt>)

  function Stopped(passed: seq<DirEnt>, stop: Stop): Outcome {
    match stop
    case End => Returns(passed, Nil)
    case Broken(err) => Returns(passed, err)
    case Stuck => Loops(passed)
    case Crash => Crashes(passed)
  }

  /** readDir without sorting: entries are passed on as they are decoded, so those before the
      point where decoding stops have been passed on. */
  function Streamed(onDirEnt: OnDirEnt, passed: seq<DirEnt>, skipFiles: bool, d: Decoded): Outcome {
    var v := Fold(onDirEnt, passed, skipFiles, d.entries);
    if v.err != Nil then Returns(v.passed, v.err) else Stopped(v.passed, d.stop)
  }

  ghost predicate SortedOrSame(mode: SortMode, s: seq<DirEnt>, r: seq<DirEnt>) {
    if Sorts(mode) then SortedFrom(mode, s, r) else r == s
  }

  function Folded(onDirEnt: OnDirEnt, entries: seq<DirEnt>): Outcome {
    var v := Fold(onDirEnt, [], false, entries);
    Returns(v.passed, v.err)
  }

  /** readDir with sorting: nothing is passed on unless decoding gets to the end. */
  ghost predicate Collected(mode: SortMode, onDirEnt: OnDirEnt, d: Decoded, r: Outcome) {
    if d.stop != End then r == Stopped([], d.stop)
    else exists sorted :: SortedOrSame(mode, d.entries, sorted) && r == Folded(onDirEnt, sorted)
  }

  /** What is still to come after `i` chunks have been read, of which `rest` is left in the buffer. */
  function ToCome(layout: Layout, src: Source, i: nat, rest: Bytes): Decoded
    requires i <= |src.chunks|
  {
    if i == 0 then DecodeChunks(layout, src, 0)
    else Append(DecodeBuffer(layout, src, rest), layout, src, i - 1)
  }

  lemma AppendNothing(layout: Layout, src: Source, i: nat)
    requires i <= |src.chunks|
    ensures ToCome(layout, src, i, []) == DecodeChunks(layout, src, i)
  {
    if i > 0 {
      var more := DecodeChunks(layout, src, i);
      assert [] + more.entries == more.entries;
    }
  }

  /** One record: what is to come is what it yields and then what comes after it. */
  lemma NextRecord(layout: Layout, src: Source, i: nat, rest: Bytes)
    requires 0 < i <= |src.chunks| && rest != []
    requires Parse(layout, rest).Parsed? && 0 < Parse(layout, rest).consumed
    ensures var p := Parse(layout, rest);
            var d, d' := ToCome(layout, src, i, rest), ToCome(layout, src, i, rest[p.consumed..]);
            match Examine(src, p.name, p.typ)
            case Skip => d == d'
            case Yield(e) => d == Decoded([e] + d'.entries, d'.stop)
            case Halt(err) => d == Decoded([], Broken(err))
  {
    var p := Parse(layout, rest);
    var d' := DecodeBuffer(layout, src, rest[p.consumed..]);
    var more := DecodeChunks(layout, src, i);
    if Examine(src, p.name, p.typ).Yield? {
      var e := Examine(src, p.name, p.typ).e;
      assert [e] + d'.entries + more.entries == [e] + (d'.entries + more.entries);
    }
  }

  /** With `d` still to come, the loop is on its way to the outcome that `all` stands for. */
  ghost predicate OnTrack(mode: SortMode, onDirEnt: OnDirEnt, all: Decoded,
                          passed: seq<DirEnt>, skipFiles: bool, p: seq<DirEnt>, d: Decoded) {
    && (mode == SortNone ==> Streamed(onDirEnt, [], false, all) == Streamed(onDirEnt, passed, skipFiles, d))
    && (mode != SortNone ==> passed == [] && !skipFiles && all == Decoded(p + d.entries, d.stop))
  }

  ghost predicate Correct(mode: SortMode, onDirEnt: OnDirEnt, all: Decoded, r: Outcome) {
    if mode == SortNone then r == Streamed(onDirEnt, [], false, all) else Collected(mode, onDirEnt, all, r)
  }

  lemma StopsOnTrack(mode: SortMode, onDirEnt: OnDirEnt, all: Decoded, passed: seq<DirEnt>, skipFiles: bool,
                     p: seq<DirEnt>, d: Decoded)
    requires OnTrack(mode, onDirEnt, all, passed, skipFiles, p, d) && d.entries == [] && d.stop != End
    ensures Correct(mode, onDirEnt, all, Stopped(passed, d.stop))
  {
  }

  /** The next entry, passed on or collected. */
  lemma EntryOnTrack(mode: SortMode, onDirEnt: OnDirEnt, all: Decoded, passed: seq<DirEnt>, skipFiles: bool,
                     p: seq<DirEnt>, d: Decoded, e: DirEnt)
    requires OnTrack(mode, onDirEnt, all, passed, skipFiles, p, Decoded([e] + d.entries, d.stop))
    ensures var err := onDirEnt(passed, e);
            && (skipFiles && e.typ == Regular ==> OnTrack(mode, onDirEnt, all, passed, skipFiles, p, d))
            && (mode == SortNone && !(skipFiles && e.typ == Regular) ==>
                  && (err == Nil ==> OnTrack(mode, onDirEnt, all, passed + [e], skipFiles, p, d))
                  && (err == SkipFiles ==> OnTrack(mode, onDirEnt, all, passed + [e], true, p, d))
                  && (err != Nil && err != SkipFiles ==>
                        Correct(mode, onDirEnt, all, Returns(passed + [e], err))))
            && (mode != SortNone ==> OnTrack(mode, onDirEnt, all, passed, skipFiles, p + [e], d))
  {
    assert ([e] + d.entries)[1..] == d.entries;
    assert p + ([e] + d.entries) == (p + [e]) + d.entries;
  }

  /** What the first record of a buffer means for the loop. */
  datatype Next = Over(stop: Stop) | Nothing | Entry(e: DirEnt)

  method NextEntry(layout: Layout, src: Source, ghost i: nat, rest: Bytes) returns (consumed: nat, next: Next)
    requires ValidSource(src) && 0 < i <= |src.chunks| && rest != []
    ensures next.Over? ==> next.stop != End && ToCome(layout, src, i, rest) == Decoded([], next.stop)
    ensures !next.Over? ==>
              && 0 < consumed <= |rest|
              && var d, d' := ToCome(layout, src, i, rest), ToCome(layout, src, i, rest[consumed..]);
                 d == if next.Entry? then Decoded([next.e] + d'.entries, d'.stop) else d'
  {
    var record := ParseRecord(layout, rest);
    if record.Panic? {
      return 0, Over(Crash);
    }
    consumed := record.consumed;
    if consumed == 0 {
      return 0, Over(Stuck);
    }
    NextRecord(layout, src, i, rest);
    if Useless(record.name) {
      return consumed, Nothing;
    }
    if record.typ.Some? {
      return consumed, Entry(DirEnt(record.name, record.typ.value));
    }
    match src.lstat(record.name)
    case Gone => return consumed, Nothing;
    case Fails(err) => return consumed, Over(Broken(err));
    case Found(typ) => return consumed, Entry(DirEnt(record.name, typ));
  }

  /** The loop of readDir: both ways of passing entries on refine the one fold. */
  method ReadDir(layout: Layout, src: Source, mode: SortMode, onDirEnt: OnDirEnt) returns (r: Outcome)
    requires ValidSource(src)
    ensures Correct(mode, onDirEnt, DecodeChunks(layout, src, 0), r)
  {
    ghost var all := DecodeChunks(layout, src, 0);
    var buf := new byte[BLOCK_SIZE];
    var bufp: nat, nbuf: nat, i: nat := 0, 0, 0;
    var skipFiles := false;
    var passed: seq<DirEnt>, p: seq<DirEnt> := [], [];
    ghost var d := all;
    while true
      invariant i <= |src.chunks| && bufp <= nbuf <= buf.Length == BLOCK_SIZE && (i == 0 ==> bufp == nbuf)
      invariant d == ToCome(layout, src, i, buf[bufp..nbuf])
      invariant OnTrack(mode, onDirEnt, all, passed, skipFiles, p, d)
      decreases |src.chunks| - i, nbuf - bufp
    {
      if bufp >= nbuf {
        var errno;
        bufp, nbuf, i, errno := Fill(layout, src, i, buf, d);
        if errno != Nil {
          StopsOnTrack(mode, onDirEnt, all, passed, skipFiles, p, d);
          return Returns(passed, errno);
        }
        if nbuf <= 0 {
          break;
        }
      }
      var rest := buf[bufp..nbuf];
      var consumed, over;
      consumed, over, passed, skipFiles, p, d :=
        TakeRecord(layout, src, mode, onDirEnt, passed, skipFiles, p, rest, all, i);
      if over.Some? {
        return over.value;
      }
      bufp := bufp + consumed;
      assert buf[bufp..nbuf] == rest[consumed..];
    }
    r := Finish(mode, onDirEnt, all, passed, skipFiles, p);
  }

  /** The end of readDir: what was collected is sorted and passed on. */
  method Finish(mode: SortMode, onDirEnt: OnDirEnt, ghost all: Decoded, passed: seq<DirEnt>, skipFiles: bool,
                p: seq<DirEnt>)
    returns (r: Outcome)
    requires OnTrack(mode, onDirEnt, all, passed, skipFiles, p, Decoded([], End))
    ensures Correct(mode, onDirEnt, all, r)
  {
    if mode == SortNone {
      return Returns(passed, Nil);
    }
    assert all == Decoded(p, End);
    r := PassSorted(mode, p, onDirEnt);
  }

  /** The loop's body once there is something in the buffer: one record is parsed and its entry, if
      it has one, is handled. `over` is what readDir returns if this is the last record. */
  method TakeRecord(layout: Layout, src: Source, mode: SortMode, onDirEnt: OnDirEnt, passed0: seq<DirEnt>,
                    skipFiles0: bool, p0: seq<DirEnt>, rest: Bytes, ghost all: Decoded, ghost i: nat)
    returns (consumed: nat, over: Option<Outcome>, passed: seq<DirEnt>, skipFiles: bool, p: seq<DirEnt>,
             ghost d: Decoded)
    requires ValidSource(src) && 0 < i <= |src.chunks| && rest != []
    requires OnTrack(mode, onDirEnt, all, passed0, skipFiles0, p0, ToCome(layout, src, i, rest))
    ensures over.Some? ==> Correct(mode, onDirEnt, all, over.value)
    ensures over.None? ==>
              && 0 < consumed <= |rest|
              && d == ToCome(layout, src, i, rest[consumed..])
              && OnTrack(mode, onDirEnt, all, passed, skipFiles, p, d)
  {
    passed, skipFiles, p := passed0, skipFiles0, p0;
    var next;
    consumed, next := NextEntry(layout, src, i, rest);
    d := if next.Over? then Decoded([], next.stop) else ToCome(layout, src, i, rest[consumed..]);
    match next
    case Over(stop) =>
      StopsOnTrack(mode, onDirEnt, all, passed, skipFiles, p, d);
      over := Some(Stopped(passed, stop));
    case Nothing =>
      over := None;
    case Entry(e) =>
      var err;
      passed, skipFiles, p, err :=
        TakeEntry(mode, onDirEnt, passed, skipFiles, p, e, all, d);
      over := if err != Nil then Some(Returns(passed, err)) else None;
  }

  /** The end of the loop's body: an entry is skipped, passed on, or collected for sorting. */
  method TakeEntry(mode: SortMode, onDirEnt: OnDirEnt, passed0: seq<DirEnt>, skipFiles0: bool, p0: seq<DirEnt>,
                   de: DirEnt, ghost all: Decoded, ghost d: Decoded)
    returns (passed: seq<DirEnt>, skipFiles: bool, p: seq<DirEnt>, err: Error)
    requires OnTrack(mode, onDirEnt, all, passed0, skipFiles0, p0, Decoded([de] + d.entries, d.stop))
    ensures err == Nil ==> OnTrack(mode, onDirEnt, all, passed, skipFiles, p, d)
    ensures err != Nil ==> Correct(mode, onDirEnt, all, Returns(passed, err))
  {
    EntryOnTrack(mode, onDirEnt, all, passed0, skipFiles0, p0, d, de);
    passed, skipFiles, p := passed0, skipFiles0, p0;
    if skipFiles && de.typ == Regular {
      return passed, skipFiles, p, Nil;
    }
    if mode == SortNone {
      err := onDirEnt(passed, de);
      passed := passed + [de];
      if err == SkipFiles {
        skipFiles := true;
        err := Nil;
      }
    } else {
      p := p + [de];
      err := Nil;
    }
  }

  /** The refill of an empty buffer, with `d` still to come. */
  method Fill(ghost layout: Layout, src: Source, i0: nat, buf: array<byte>, ghost d: Decoded)
    returns (bufp: nat, nbuf: nat, i: nat, errno: Error)
    requires ValidSource(src) && i0 <= |src.chunks| && buf.Length == BLOCK_SIZE
    requires d == ToCome(layout, src, i0, [])
    modifies buf
    ensures bufp == 0 && nbuf <= buf.Length
    ensures errno != Nil ==> d == Decoded([], Broken(errno))
    ensures errno == Nil && nbuf == 0 ==> d == Decoded([], End)
    ensures errno == Nil && nbuf > 0 ==>
              i0 < i <= |src.chunks| && d == ToCome(layout, src, i, buf[bufp..nbuf])
  {
    nbuf, errno := ReadDirent(layout, src, i0, buf);
    bufp := 0;
    i := if errno == Nil && nbuf > 0 then i0 + 1 else i0;
  }

  /** The next call of readdir: fills the start of the buffer with a chunk, if there is one. */
  method ReadDirent(ghost layout: Layout, src: Source, i: nat, buf: array<byte>) returns (n: nat, errno: Error)
    requires ValidSource(src) && i <= |src.chunks| && buf.Length == BLOCK_SIZE
    modifies buf
    ensures n <= buf.Length && (errno != Nil ==> ToCome(layout, src, i, []) == Decoded([], Broken(errno)))
    ensures errno == Nil && n == 0 ==> ToCome(layout, src, i, []) == Decoded([], End)
    ensures errno == Nil && n > 0 ==>
              && i < |src.chunks| && buf[0..n] == src.chunks[i]
              && ToCome(layout, src, i, []) == ToCome(layout, src, i + 1, buf[0..n])
  {
    AppendNothing(layout, src, i);
    if i == |src.chunks| {
      return 0, src.err;
    }
    var chunk := src.chunks[i];
    forall j | 0 <= j < |chunk| {
      buf[j] := chunk[j];
    }
    assert buf[0..|chunk|] == chunk;
    return |chunk|, Nil;
  }

  /** The second loop: sorts the collected entries and passes them on. */
  method PassSorted(mode: SortMode, entries: seq<DirEnt>, onDirEnt: OnDirEnt) returns (r: Outcome)
    ensures exists sorted :: SortedOrSame(mode, entries, sorted) && r == Folded(onDirEnt, sorted)
  {
    var dents := new DirEnt[|entries|](i requires 0 <= i < |entries| => entries[i]);
    assert dents[..] == entries;
    SortDirents(mode, dents);
    ghost var sorted := dents[..];
    assert SortedOrSame(mode, entries, sorted);
    var skipFiles := false;
    var passed: seq<DirEnt> := [];
    for i := 0 to dents.Length
      invariant dents[..] == sorted
      invariant Fold(onDirEnt, [], false, sorted) == Fold(onDirEnt, passed, skipFiles, sorted[i..])
    {
      var d := dents[i];
      assert sorted[i..][0] == d && sorted[i..][1..] == sorted[i + 1..];
      if skipFiles && d.typ == Regular {
        continue;
      }
      var err := onDirEnt(passed, d);
      passed := passed + [d];
      if err != Nil {
        if err != SkipFiles {
          return Returns(passed, err);
        }
        skipFiles := true;
      }
    }
    return Returns(passed, Nil);
  }

  // ----- the round trip

  function EncodeAll(layout: Layout, rs: seq<Record>): Bytes
    requires forall i :: 0 <= i < |rs| ==> ValidRecord(layout, rs[i])
  {
    if rs == [] then [] else Encode(layout, rs[0]) + EncodeAll(layout, rs[1..])
  }

  /** What the records `rs` stand for: those in use, but for the empty name, "." and "..", in their order,
      with the type of their kind, or if that is unknown, what Lstat finds; one that has vanished is left
      out, and another error of Lstat ends the reading. */
  function Contents(src: Source, rs: seq<Record>): Decoded {
    if rs == [] then Decoded([], End)
    else
      var r, rest := rs[0], rs[1..];
      if r.ino == 0 || r.name in {[], [46], [46, 46]} then Contents(src, rest)
      else
        match FileTypeOf(r.kind)
        case Some(typ) => Before(DirEnt(r.name, typ), Contents(src, rest))
        case None =>
          match src.lstat(r.name)
          case Found(typ) => Before(DirEnt(r.name, typ), Contents(src, rest))
          case Gone => Contents(src, rest)
          case Fails(err) => Decoded([], Broken(err))
  }

  /** One entry and then what `d` has. */
  function Before(e: DirEnt, d: Decoded): Decoded {
    Decoded([e] + d.entries, d.stop)
  }

  /** What the step for a record makes of the `rest`. */
  function After(step: Step, rest: Decoded): Decoded {
    match step
    case Skip => rest
    case Yield(e) => Before(e, rest)
    case Halt(err) => Decoded([], Broken(err))
  }

  /** The step for a record; a deleted one has no name when it is parsed. */
  function RecordStep(src: Source, r: Record): Step {
    if r.ino == 0 then Examine(src, [], None) else Examine(src, r.name, FileTypeOf(r.kind))
  }

  lemma DecodeFirst(layout: Layout, src: Source, r: Record, more: Bytes)
    requires ValidRecord(layout, r)
    ensures DecodeBuffer(layout, src, Encode(layout, r) + more)
         == After(RecordStep(src, r), DecodeBuffer(layout, src, more))
  {
    var first := Encode(layout, r);
    ParseEncoded(layout, r, more);
    assert (first + more)[|first|..] == more;
  }

  lemma ContentsFirst(src: Source, rs: seq<Record>)
    requires rs != []
    ensures Contents(src, rs) == After(RecordStep(src, rs[0]), Contents(src, rs[1..]))
  {
  }

  lemma {:induction false} DecodeEncoded(layout: Layout, src: Source, rs: seq<Record>)
    requires forall i :: 0 <= i < |rs| ==> ValidRecord(layout, rs[i])
    ensures DecodeBuffer(layout, src, EncodeAll(layout, rs)) == Contents(src, rs)
  {
    if rs == [] {
    } else {
      DecodeFirst(layout, src, rs[0], EncodeAll(layout, rs[1..]));
      ContentsFirst(src, rs);
      DecodeEncoded(layout, src, rs[1..]);
    }
  }

  function Flatten<T>(groups: seq<seq<T>>): seq<T> {
    if groups == [] then [] else groups[0] + Flatten(groups[1..])
  }

  /** What `d` has and, if it does not stop early, what `d'` has. */
  function Both(d: Decoded, d': Decoded): Decoded {
    if d.stop == End then Decoded(d.entries + d'.entries, d'.stop) else d
  }

  lemma {:induction false} ContentsAppend(src: Source, a: seq<Record>, b: seq<Record>)
    ensures Contents(src, a + b) == Both(Contents(src, a), Contents(src, b))
  {
    if a == [] {
      assert a + b == b && [] + Contents(src, b).entries == Contents(src, b).entries;
    } else {
      assert (a + b)[1..] == a[1..] + b;
      ContentsAppend(src, a[1..], b);
      var d, d' := Contents(src, a[1..]), Contents(src, b);
      assert forall e: DirEnt :: [e] + (d.entries + d'.entries) == ([e] + d.entries) + d'.entries;
    }
  }

  /** The chunks are the records, split in any way that keeps each record whole. */
  ghost predicate Holds(layout: Layout, src: Source, groups: seq<seq<Record>>) {
    && |src.chunks| == |groups|
    && (forall i, j :: 0 <= i < |groups| && 0 <= j < |groups[i]| ==> ValidRecord(layout, groups[i][j]))
    && (forall i :: 0 <= i < |groups| ==> groups[i] != [] && src.chunks[i] == EncodeAll(layout, groups[i]))
  }

  /** ... and then the error of the last call, if there is one. */
  function Ended(src: Source, d: Decoded): Decoded {
    if d.stop == End && src.err != Nil then Decoded(d.entries, Broken(src.err)) else d
  }

  lemma {:induction false} DecodeHeld(layout: Layout, src: Source, groups: seq<seq<Record>>, i: nat)
    requires Holds(layout, src, groups) && i <= |groups|
    ensures DecodeChunks(layout, src, i) == Ended(src, Contents(src, Flatten(groups[i..])))
    decreases |groups| - i
  {
    if i == |groups| {
    } else {
      DecodeEncoded(layout, src, groups[i]);
      DecodeHeld(layout, src, groups, i + 1);
      assert groups[i..][0] == groups[i] && groups[i..][1..] == groups[i + 1..];
      ContentsAppend(src, groups[i], Flatten(groups[i + 1..]));
    }
  }

  /** Whatever the kernel's split into chunks, decoding gives back what the records stand for, and ends
      with the error of the last call, if that failed, or of an Lstat before. */
  lemma DecodingIsRoundTrip(layout: Layout, src: Source, groups: seq<seq<Record>>)
    requires Holds(layout, src, groups)
    ensures DecodeChunks(layout, src, 0) == Ended(src, Contents(src, Flatten(groups)))
    ensures (forall name :: !src.lstat(name).Fails?) ==>
              DecodeChunks(layout, src, 0).stop == if src.err == Nil then End else Broken(src.err)
    ensures DecodeChunks(layout, src, 0).stop != Stuck && DecodeChunks(layout, src, 0).stop != Crash
  {
    DecodeHeld(layout, src, groups, 0);
    assert groups[0..] == groups;
    ContentsEnd(src, Flatten(groups));
  }

  lemma {:induction false} ContentsEnd(src: Source, rs: seq<Record>)
    ensures (forall name :: !src.lstat(name).Fails?) ==> Contents(src, rs).stop == End
    ensures Contents(src, rs).stop.End? || Contents(src, rs).stop.Broken?
  {
    if rs == [] {
    } else {
      ContentsEnd(src, rs[1..]);
    }
  }

  /** The names of the records in use, but for the empty one, "." and "..". */
  function UsefulNames(rs: seq<Record>): seq<Name> {
    if rs == [] then []
    else
      (if rs[0].ino != 0 && rs[0].name !in {[], [46], [46, 46]} then [rs[0].name] else [])
      + UsefulNames(rs[1..])
  }

  function NamesOf(entries: seq<DirEnt>): seq<Name> {
    if entries == [] then [] else [entries[0].name] + NamesOf(entries[1..])
  }

  lemma {:induction false} ContentsNames(src: Source, rs: seq<Record>)
    requires forall i :: 0 <= i < |rs| ==> !rs[i].kind.Unknown?
    ensures NamesOf(Contents(src, rs).entries) == UsefulNames(rs) && Contents(src, rs).stop == End
  {
    if rs != [] {
      ContentsNames(src, rs[1..]);
      var e := Contents(src, rs).entries;
      assert e != [] ==> e == [e[0]] + e[1..];
    }
  }

  /** If all kinds are known, then without any Lstat the names are exactly those of the records in use
      that are not empty, "." or "..", in order. */
  lemma NamesAreUseful(layout: Layout, src: Source, groups: seq<seq<Record>>)
    requires Holds(layout, src, groups)
    requires forall r :: r in Flatten(groups) ==> !r.kind.Unknown?
    ensures NamesOf(DecodeChunks(layout, src, 0).entries) == UsefulNames(Flatten(groups))
    ensures DecodeChunks(layout, src, 0).stop == if src.err == Nil then End else Broken(src.err)
  {
    DecodingIsRoundTrip(layout, src, groups);
    ContentsNames(src, Flatten(groups));
  }

  // ----- any bytes

  lemma {:induction false} BufferHasNoDots(layout: Layout, src: Source, buf: Bytes)
    ensures forall e :: e in DecodeBuffer(layout, src, buf).entries ==> e.name !in {[], [46], [46, 46]}
    decreases |buf|
  {
    if buf != [] {
      var p := Parse(layout, buf);
      if p.Parsed? && p.consumed > 0 {
        BufferHasNoDots(layout, src, buf[p.consumed..]);
      }
    }
  }

  /** Whatever the chunks hold, no entry is called "." or "..", or has no name. */
  lemma {:induction false} NoDots(layout: Layout, src: Source, i: nat)
    requires i <= |src.chunks|
    ensures forall e :: e in DecodeChunks(layout, src, i).entries ==> e.name !in {[], [46], [46, 46]}
    decreases |src.chunks| - i
  {
    if i < |src.chunks| {
      BufferHasNoDots(layout, src, src.chunks[i]);
      NoDots(layout, src, i + 1);
    }
  }

  /** An empty chunk is the end, whatever would come after it. */
  lemma {:induction false} EmptyChunkIsTheEnd(layout: Layout, src: Source, i: nat, n: nat)
    requires i <= n < |src.chunks| && src.chunks[n] == []
    ensures DecodeChunks(layout, src, i) == DecodeChunks(layout, src.(chunks := src.chunks[..n], err := Nil), i)
    decreases n - i
  {
    if i < n {
      EmptyChunkIsTheEnd(layout, src, i + 1, n);
      SameBuffer(layout, src, src.(chunks := src.chunks[..n], err := Nil), src.chunks[i]);
    }
  }

  lemma {:induction false} SameBuffer(layout: Layout, src: Source, src': Source, buf: Bytes)
    requires src'.lstat == src.lstat
    ensures DecodeBuffer(layout, src', buf) == DecodeBuffer(layout, src, buf)
    decreases |buf|
  {
    if buf != [] {
      var p := Parse(layout, buf);
      if p.Parsed? && p.consumed > 0 {
        SameBuffer(layout, src, src', buf[p.consumed..]);
      }
    }
  }

  // ----- what the fold means

  function NonRegular(entries: seq<DirEnt>): seq<DirEnt> {
    if entries == [] then []
    else (if entries[0].typ == Regular then [] else [entries[0]]) + NonRegular(entries[1..])
  }

  lemma {:induction false} NonRegularAppend(a: seq<DirEnt>, b: seq<DirEnt>)
    ensures NonRegular(a + b) == NonRegular(a) + NonRegular(b)
  {
    if a == [] {
      assert a + b == b;
    } else {
      assert (a + b)[1..] == a[1..] + b;
      NonRegularAppend(a[1..], b);
    }
  }

  /** The answer onDirEnt gave to the `k`-th entry it got. */
  function AnswerTo(onDirEnt: OnDirEnt, passed: seq<DirEnt>, k: nat): Error
    requires k < |passed|
  {
    onDirEnt(passed[..k], passed[k])
  }

  /** Entries passed on before are not passed on again, and the loop ends with the first error that
      is not ErrSkipFiles, or at the end of the entries. */
  lemma {:induction false} FoldAnswers(onDirEnt: OnDirEnt, passed: seq<DirEnt>, skipFiles: bool, entries: seq<DirEnt>)
    ensures var v := Fold(onDirEnt, passed, skipFiles, entries);
            && |passed| <= |v.passed| && v.passed[..|passed|] == passed
            && (v.err == Nil ==> forall k :: |passed| <= k < |v.passed| ==>
                  AnswerTo(onDirEnt, v.passed, k) == Nil || AnswerTo(onDirEnt, v.passed, k) == SkipFiles)
            && (v.err != Nil ==>
                  && |passed| < |v.passed|
                  && v.err == AnswerTo(onDirEnt, v.passed, |v.passed| - 1) != SkipFiles
                  && forall k :: |passed| <= k < |v.passed| - 1 ==>
                       AnswerTo(onDirEnt, v.passed, k) == Nil || AnswerTo(onDirEnt, v.passed, k) == SkipFiles)
    decreases |entries|
  {
    if entries == [] {
    } else {
      var e, rest := entries[0], entries[1..];
      var err := onDirEnt(passed, e);
      var v := Fold(onDirEnt, passed, skipFiles, entries);
      if skipFiles && e.typ == Regular {
        FoldAnswers(onDirEnt, passed, skipFiles, rest);
      } else if err == Nil || err == SkipFiles {
        FoldAnswers(onDirEnt, passed + [e], skipFiles || err == SkipFiles, rest);
        assert v.passed[..|passed| + 1] == passed + [e];
        assert v.passed[..|passed|] == v.passed[..|passed| + 1][..|passed|] == passed;
        assert v.passed[|passed|] == v.passed[..|passed| + 1][|passed|] == e;
      } else {
        assert (passed + [e])[..|passed|] == passed;
      }
    }
  }

  lemma NonRegularFirst(passed: seq<DirEnt>, e: DirEnt, rest: seq<DirEnt>, m: nat)
    requires m <= |rest|
    ensures var first := if e.typ == Regular then [] else [e];
            passed + NonRegular(([e] + rest)[..m + 1]) == (passed + first) + NonRegular(rest[..m])
  {
    assert ([e] + rest)[..m + 1] == [e] + rest[..m];
    assert ([e] + rest[..m])[1..] == rest[..m];
  }

  /** Once files are skipped, the entries that are no files are passed on, up to some point. */
  lemma {:induction false} FoldSkipping(onDirEnt: OnDirEnt, passed: seq<DirEnt>, entries: seq<DirEnt>) returns (n: nat)
    ensures n <= |entries|
    ensures var v := Fold(onDirEnt, passed, true, entries);
            v.passed == passed + NonRegular(entries[..n]) && (v.err == Nil ==> n == |entries|)
    decreases |entries|
  {
    if entries == [] {
      n := 0;
      assert passed + NonRegular(entries[..0]) == passed;
    } else {
      var e, rest := entries[0], entries[1..];
      var err := onDirEnt(passed, e);
      var m := 0;
      if e.typ == Regular {
        m := FoldSkipping(onDirEnt, passed, rest);
      } else if err == Nil || err == SkipFiles {
        m := FoldSkipping(onDirEnt, passed + [e], rest);
      }
      n := m + 1;
      assert entries == [e] + rest && passed + [] == passed && rest[..0] == [];
      NonRegularFirst(passed, e, rest, m);
    }
  }

  /** `a` entries were passed on as they came, then those up to the `n`-th that are no files. */
  ghost predicate SplitsAt(onDirEnt: OnDirEnt, passed: seq<DirEnt>, entries: seq<DirEnt>, v: Visits, a: nat, n: nat) {
    && a <= n <= |entries|
    && v.passed == passed + entries[..a] + NonRegular(entries[a..n])
    && (v.err == Nil ==> n == |entries|)
    && (forall k :: |passed| <= k < |passed| + a - 1 ==> AnswerTo(onDirEnt, v.passed, k) != SkipFiles)
    && (a < n ==> a > 0 && AnswerTo(onDirEnt, v.passed, |passed| + a - 1) == SkipFiles)
  }

  lemma Later(onDirEnt: OnDirEnt, passed: seq<DirEnt>, e: DirEnt, rest: seq<DirEnt>, v: Visits, b: nat, m: nat)
    requires onDirEnt(passed, e) == Nil && SplitsAt(onDirEnt, passed + [e], rest, v, b, m)
    ensures SplitsAt(onDirEnt, passed, [e] + rest, v, b + 1, m + 1)
  {
    Shifted(passed, e, rest, v.passed, b, m);
    assert AnswerTo(onDirEnt, v.passed, |passed|) == Nil;
  }

  lemma Here(onDirEnt: OnDirEnt, passed: seq<DirEnt>, e: DirEnt, rest: seq<DirEnt>, v: Visits, m: nat)
    requires m <= |rest| && v.passed == (passed + [e]) + NonRegular(rest[..m])
    requires onDirEnt(passed, e) == SkipFiles || m == 0
    requires v.err == Nil ==> m == |rest|
    ensures SplitsAt(onDirEnt, passed, [e] + rest, v, 1, m + 1)
  {
    Shifted(passed, e, rest, v.passed, 0, m);
  }

  /** readDir calls onDirEnt for every entry up to and including the first that is answered with
      ErrSkipFiles, and from there on for those that are no regular files. */
  lemma {:induction false} FoldMeaning(onDirEnt: OnDirEnt, passed: seq<DirEnt>, entries: seq<DirEnt>)
    returns (a: nat, n: nat)
    ensures SplitsAt(onDirEnt, passed, entries, Fold(onDirEnt, passed, false, entries), a, n)
    decreases |entries|
  {
    if entries == [] {
      a, n := 0, 0;
      assert passed + entries[..0] + NonRegular(entries[0..0]) == passed;
    } else {
      var e, rest := entries[0], entries[1..];
      var err := onDirEnt(passed, e);
      var v := Fold(onDirEnt, passed, false, entries);
      assert entries == [e] + rest;
      if err == Nil {
        var b, m := FoldMeaning(onDirEnt, passed + [e], rest);
        a, n := b + 1, m + 1;
        Later(onDirEnt, passed, e, rest, v, b, m);
      } else {
        var m := 0;
        if err == SkipFiles {
          m := FoldSkipping(onDirEnt, passed + [e], rest);
        }
        a, n := 1, m + 1;
        assert rest[..0] == [] && (passed + [e]) + [] == passed + [e];
        Here(onDirEnt, passed, e, rest, v, m);
      }
    }
  }

  lemma Shifted(passed: seq<DirEnt>, e: DirEnt, rest: seq<DirEnt>, result: seq<DirEnt>, b: nat, m: nat)
    requires b <= m <= |rest|
    requires result == (passed + [e]) + rest[..b] + NonRegular(rest[b..m])
             || (b == 0 && result == (passed + [e]) + NonRegular(rest[..m]))
    ensures var entries := [e] + rest;
            && result == passed + entries[..b + 1] + NonRegular(entries[b + 1..m + 1])
            && result[..|passed|] == passed && result[|passed|] == e
  {
    var entries := [e] + rest;
    assert entries[..b + 1] == [e] + rest[..b];
    assert entries[b + 1..m + 1] == rest[b..m];
    assert rest[0..m] == rest[..m];
    assert (passed + [e]) + rest[..b] == passed + ([e] + rest[..b]);
    assert b == 0 ==> rest[..b] == [];
  }
}
