/** When the loop of readDir does not end. The loop is taken one iteration at a time, as it is written:
    it has no test for a record from which nothing is consumed. */
module EndlessLoop {
  import opened Entries
  import opened Dirent
  import opened Sorting
  import opened DirReader

  /** A call of readDir. */
  datatype Reader = Reader(layout: Layout, src: Source, mode: SortMode, onDirEnt: OnDirEnt)

  /** At the head of the loop: `i` chunks have been read, of which `rest` is left in the buffer. */
  datatype LoopState = LoopState(i: nat, rest: Bytes, passed: seq<DirEnt>, skipFiles: bool, p: seq<DirEnt>)

  const START: LoopState := LoopState(0, [], [], false, [])

  /** The loop goes on, or the function returns, or the loop is left and what was collected is sorted. */
  datatype Iteration = Again(st: LoopState) | Leaves(r: Outcome) | Breaks(passed: seq<DirEnt>, p: seq<DirEnt>)

  /** One iteration. */
  function Iterate(q: Reader, st: LoopState): Iteration {
    if st.rest != [] then TakeFirst(q, st)
    else if st.i >= |q.src.chunks| then
      if q.src.err != Nil then Leaves(Returns(st.passed, q.src.err)) else Breaks(st.passed, st.p)
    else if q.src.chunks[st.i] == [] then Breaks(st.passed, st.p)
    else TakeFirst(q, Refilled(q, st))
  }

  function Refilled(q: Reader, st: LoopState): LoopState
    requires st.i < |q.src.chunks|
  {
    st.(i := st.i + 1, rest := q.src.chunks[st.i])
  }

  /** ... once there is something in the buffer. */
  function TakeFirst(q: Reader, st: LoopState): Iteration {
    match Parse(q.layout, st.rest)
    case Panic => Leaves(Crashes(st.passed))
    case Parsed(consumed, name, typ) =>
      var st' := st.(rest := st.rest[consumed..]);
      match Examine(q.src, name, typ)
      case Skip => Again(st')
      case Halt(err) => Leaves(Returns(st.passed, err))
      case Yield(e) => Handle(q, st', e)
  }

  function Handle(q: Reader, st: LoopState, e: DirEnt): Iteration {
    if st.skipFiles && e.typ == Regular then Again(st)
    else if q.mode != SortNone then Again(st.(p := st.p + [e]))
    else
      var err := q.onDirEnt(st.passed, e);
      if err == Nil then Again(st.(passed := st.passed + [e]))
      else if err == SkipFiles then Again(st.(passed := st.passed + [e], skipFiles := true))
      else Leaves(Returns(st.passed + [e], err))
  }

  /** The loop after `n` iterations, or how it has ended before. */
  function Iterated(q: Reader, st: LoopState, n: nat): Iteration
    decreases n
  {
    if n == 0 then Again(st)
    else
      match Iterate(q, st)
      case Again(st') => Iterated(q, st', n - 1)
      case end => end
  }

  ghost predicate Endless(q: Reader, st: LoopState) {
    forall n: nat :: Iterated(q, st, n).Again?
  }

  // ----- one iteration

  predicate Repeats(q: Reader, st: LoopState) {
    st.rest != [] && NoProgress(q.layout, st.rest) && !ShortLinuxRecord(q.layout, st.rest)
  }

  /** Fewer chunks to come, or fewer bytes in the buffer. */
  predicate Lower(q: Reader, st': LoopState, st: LoopState) {
    st.i < st'.i <= |q.src.chunks| || (st'.i == st.i && |st'.rest| < |st.rest|)
  }

  /** Nothing is consumed, and no name is found, exactly at such a record. */
  lemma NothingConsumed(layout: Layout, buf: Bytes)
    requires Parse(layout, buf).Parsed?
    ensures var p := Parse(layout, buf);
            && (NoProgress(layout, buf) <==> p.consumed == 0)
            && (p.consumed == 0 ==> p.name == [])
    ensures !ShortLinuxRecord(layout, buf)
  {
    PanicsExactly(layout, buf);
    ConsumesNothingExactly(layout, buf);
  }

  lemma HandleKeeps(q: Reader, st: LoopState, e: DirEnt)
    ensures var it := Handle(q, st, e);
            it.Again? ==> it.st.i == st.i && it.st.rest == st.rest
  {
  }

  lemma TakeFirstMoves(q: Reader, st: LoopState)
    requires st.rest != []
    ensures var it := TakeFirst(q, st);
            && (Repeats(q, st) ==> it == Again(st))
            && (!Repeats(q, st) && it.Again? ==> it.st.i == st.i && |it.st.rest| < |st.rest|)
  {
    var p := Parse(q.layout, st.rest);
    if p.Panic? {
      PanicsExactly(q.layout, st.rest);
    } else {
      NothingConsumed(q.layout, st.rest);
      assert st.rest[0..] == st.rest;
      var step := Examine(q.src, p.name, p.typ);
      if step.Yield? {
        HandleKeeps(q, st.(rest := st.rest[p.consumed..]), step.e);
      }
    }
  }

  /** An iteration that starts at a record from which nothing is consumed changes nothing; any other
      ends the loop or brings it closer to its end. */
  lemma IterationMoves(q: Reader, st: LoopState)
    ensures var it := Iterate(q, st);
            && (Repeats(q, st) ==> it == Again(st))
            && (!Repeats(q, st) && it.Again? ==> Lower(q, it.st, st))
  {
    if st.rest != [] {
      TakeFirstMoves(q, st);
    } else if st.i < |q.src.chunks| && q.src.chunks[st.i] != [] {
      TakeFirstMoves(q, Refilled(q, st));
    }
  }

  /** No number of iterations leads away from such a record. */
  lemma {:induction false} RepeatsForEver(q: Reader, st: LoopState, n: nat)
    requires Repeats(q, st)
    ensures Iterated(q, st, n) == Again(st)
  {
    if n == 0 {
    } else {
      IterationMoves(q, st);
      RepeatsForEver(q, st, n - 1);
    }
  }

  // ----- the loop

  lemma EndlessFirst(q: Reader, st: LoopState)
    ensures Endless(q, st) <==> Iterate(q, st).Again? && Endless(q, Iterate(q, st).st)
  {
    var it := Iterate(q, st);
    if Endless(q, st) {
      assert Iterated(q, st, 1).Again?;
      forall n: nat
        ensures Iterated(q, it.st, n).Again?
      {
        assert Iterated(q, st, n + 1).Again?;
      }
    }
    if it.Again? && Endless(q, it.st) {
      forall n: nat
        ensures Iterated(q, st, n).Again?
      {
        assert n > 0 ==> Iterated(q, st, n) == Iterated(q, it.st, n - 1);
      }
    }
  }

  /** After `n` iterations the loop is at a record that it repeats. */
  predicate StuckAfter(q: Reader, st: LoopState, n: nat) {
    Iterated(q, st, n).Again? && Repeats(q, Iterated(q, st, n).st)
  }

  /** The loop does not end exactly if it comes to a record from which nothing is consumed. */
  lemma {:induction false} EndlessExactly(q: Reader, st: LoopState)
    requires st.i <= |q.src.chunks|
    ensures Endless(q, st) <==> exists n :: StuckAfter(q, st, n)
    decreases |q.src.chunks| - st.i, |st.rest|
  {
    var it := Iterate(q, st);
    IterationMoves(q, st);
    EndlessFirst(q, st);
    if Repeats(q, st) {
      assert StuckAfter(q, st, 0);
      forall n: nat
        ensures Iterated(q, st, n).Again?
      {
        RepeatsForEver(q, st, n);
      }
    } else if it.Again? {
      EndlessExactly(q, it.st);
      assert forall n: nat :: StuckAfter(q, st, n) ==> n > 0 && StuckAfter(q, it.st, n - 1);
      if n: nat :| StuckAfter(q, it.st, n) {
        assert StuckAfter(q, st, n + 1);
      }
    }
  }

  // ----- readDir

  /** What readDir makes of the end of its loop. */
  ghost predicate EndsAs(q: Reader, it: Iteration, r: Outcome) {
    match it
    case Again(_) => false
    case Leaves(r') => r == r'
    case Breaks(passed, p) =>
      if q.mode == SortNone then r == Returns(passed, Nil)
      else exists sorted :: SortedOrSame(q.mode, p, sorted) && r == Folded(q.onDirEnt, sorted)
  }

  /** The outcome `r` of a loop that still has `d` to come. */
  ghost predicate Means(q: Reader, st: LoopState, d: Decoded, r: Outcome) {
    if q.mode == SortNone then r == Streamed(q.onDirEnt, st.passed, st.skipFiles, d)
    else if d.stop != End then r == Stopped(st.passed, d.stop)
    else exists sorted :: SortedOrSame(q.mode, st.p + d.entries, sorted) && r == Folded(q.onDirEnt, sorted)
  }

  ghost predicate Heads(q: Reader, st: LoopState, r: Outcome) {
    && ValidSource(q.src)
    && st.i <= |q.src.chunks| && (st.i == 0 ==> st.rest == [])
    && (q.mode != SortNone ==> !st.skipFiles)
    && Means(q, st, ToCome(q.layout, q.src, st.i, st.rest), r)
  }

  lemma HandleHeads(q: Reader, st: LoopState, e: DirEnt, r: Outcome)
    requires ValidSource(q.src) && 0 < st.i <= |q.src.chunks| && (q.mode != SortNone ==> !st.skipFiles)
    requires var d := ToCome(q.layout, q.src, st.i, st.rest);
             Means(q, st, Decoded([e] + d.entries, d.stop), r)
    ensures var it := Handle(q, st, e);
            if it.Again? then Heads(q, it.st, r) else EndsAs(q, it, r)
  {
    var d := ToCome(q.layout, q.src, st.i, st.rest);
    assert ([e] + d.entries)[1..] == d.entries;
    assert st.p + ([e] + d.entries) == (st.p + [e]) + d.entries;
  }

  lemma TakeFirstHeads(q: Reader, st: LoopState, r: Outcome)
    requires Heads(q, st, r) && st.rest != []
    ensures var it := TakeFirst(q, st);
            if it.Again? then Heads(q, it.st, r) else EndsAs(q, it, r)
    ensures Repeats(q, st) ==> r.Loops?
  {
    var p := Parse(q.layout, st.rest);
    if p.Panic? {
      PanicsExactly(q.layout, st.rest);
    } else {
      NothingConsumed(q.layout, st.rest);
      if p.consumed == 0 {
        assert st.rest[0..] == st.rest;
      } else {
        NextRecord(q.layout, q.src, st.i, st.rest);
        var step := Examine(q.src, p.name, p.typ);
        if step.Yield? {
          HandleHeads(q, st.(rest := st.rest[p.consumed..]), step.e, r);
        }
      }
    }
  }

  /** The end of the directory. */
  lemma LastHeads(q: Reader, st: LoopState, r: Outcome)
    requires Heads(q, st, r) && st.rest == [] && (st.i == |q.src.chunks| || q.src.chunks[st.i] == [])
    ensures EndsAs(q, Iterate(q, st), r)
  {
    AppendNothing(q.layout, q.src, st.i);
    assert DecodeChunks(q.layout, q.src, st.i).entries == [] && st.p + [] == st.p;
  }

  lemma RefillHeads(q: Reader, st: LoopState, r: Outcome)
    requires Heads(q, st, r) && st.rest == [] && st.i < |q.src.chunks| && q.src.chunks[st.i] != []
    ensures Heads(q, Refilled(q, st), r)
  {
    AppendNothing(q.layout, q.src, st.i);
    RefillKeeps(q, st.i);
  }

  lemma RefillKeeps(q: Reader, i: nat)
    requires i < |q.src.chunks| && q.src.chunks[i] != []
    ensures ToCome(q.layout, q.src, i + 1, q.src.chunks[i]) == DecodeChunks(q.layout, q.src, i)
  {
  }

  lemma IterationHeads(q: Reader, st: LoopState, r: Outcome)
    requires Heads(q, st, r)
    ensures var it := Iterate(q, st);
            if it.Again? then Heads(q, it.st, r) else EndsAs(q, it, r)
    ensures Repeats(q, st) ==> r.Loops?
  {
    if st.rest != [] {
      TakeFirstHeads(q, st, r);
    } else {
      if st.i < |q.src.chunks| && q.src.chunks[st.i] != [] {
        RefillHeads(q, st, r);
        TakeFirstHeads(q, Refilled(q, st), r);
      } else {
        LastHeads(q, st, r);
      }
    }
  }

  lemma EndIsNoLoop(q: Reader, it: Iteration, st: LoopState, r: Outcome)
    requires it == Iterate(q, st) && !it.Again? && EndsAs(q, it, r)
    ensures !r.Loops?
  {
  }

  /** The loop, iteration by iteration, has the outcome that was defined by what is decoded: it loops
      for ever exactly if that says so, and else it ends as that says. */
  lemma {:induction false} LoopRefines(q: Reader, st: LoopState, r: Outcome)
    requires Heads(q, st, r)
    ensures r.Loops? <==> Endless(q, st)
    ensures !r.Loops? ==> exists n :: EndsAs(q, Iterated(q, st, n), r)
    decreases |q.src.chunks| - st.i, |st.rest|
  {
    var it := Iterate(q, st);
    IterationMoves(q, st);
    IterationHeads(q, st, r);
    EndlessFirst(q, st);
    if Repeats(q, st) {
      EndlessExactly(q, st);
      assert StuckAfter(q, st, 0);
    } else if it.Again? {
      LoopRefines(q, it.st, r);
      assert forall n: nat :: Iterated(q, st, n + 1) == Iterated(q, it.st, n);
    } else {
      EndIsNoLoop(q, it, st, r);
      assert Iterated(q, st, 1) == it;
    }
  }

  /** What the method ReadDir returns is what the loop does. */
  lemma ReadDirRefines(q: Reader, r: Outcome)
    requires ValidSource(q.src) && Correct(q.mode, q.onDirEnt, DecodeChunks(q.layout, q.src, 0), r)
    ensures r.Loops? <==> Endless(q, START)
    ensures !r.Loops? ==> exists n :: EndsAs(q, Iterated(q, START, n), r)
  {
    var d := DecodeChunks(q.layout, q.src, 0);
    assert [] + d.entries == d.entries;
    LoopRefines(q, START, r);
  }

  // ----- in terms of the bytes

  /** Following the record lengths leads to a record that is cut off or claims to be empty, past none
      for which Lstat fails. */
  ghost predicate GetsStuck(layout: Layout, src: Source, buf: Bytes)
    decreases |buf|
  {
    && buf != []
    && !ShortLinuxRecord(layout, buf)
    && (|| NoProgress(layout, buf)
        || (!LstatFails(layout, src, buf) && GetsStuck(layout, src, buf[Reclen(layout, buf).value..])))
  }

  predicate LstatFails(layout: Layout, src: Source, buf: Bytes) {
    var p := Parse(layout, buf);
    p.Parsed? && Examine(src, p.name, p.typ).Halt?
  }

  lemma {:induction false} StuckExactly(layout: Layout, src: Source, buf: Bytes)
    ensures DecodeBuffer(layout, src, buf).stop == Stuck <==> GetsStuck(layout, src, buf)
    decreases |buf|
  {
    if buf == [] {
    } else if Parse(layout, buf).Panic? {
      PanicsExactly(layout, buf);
    } else {
      NothingConsumed(layout, buf);
      if !NoProgress(layout, buf) {
        StuckExactly(layout, src, buf[Parse(layout, buf).consumed..]);
      }
    }
  }

  /** Chunk `i` is read, and the chunks before it decode to their ends. */
  ghost predicate Reaches(layout: Layout, src: Source, from: nat, i: nat) {
    && from <= i < |src.chunks|
    && forall j :: from <= j < i ==> src.chunks[j] != [] && DecodeBuffer(layout, src, src.chunks[j]).stop == End
  }

  lemma FirstReached(layout: Layout, src: Source, from: nat, i: nat)
    requires from < |src.chunks|
    ensures Reaches(layout, src, from, i) <==>
            i == from
            || (src.chunks[from] != [] && DecodeBuffer(layout, src, src.chunks[from]).stop == End
                && Reaches(layout, src, from + 1, i))
  {
  }

  lemma {:induction false} StuckInChunk(layout: Layout, src: Source, from: nat)
    requires from <= |src.chunks|
    ensures DecodeChunks(layout, src, from).stop == Stuck <==>
            exists i: nat :: Reaches(layout, src, from, i) && GetsStuck(layout, src, src.chunks[i])
    decreases |src.chunks| - from
  {
    if from == |src.chunks| {
    } else {
      StuckExactly(layout, src, src.chunks[from]);
      StuckInChunk(layout, src, from + 1);
      forall i: nat
        ensures Reaches(layout, src, from, i) <==>
                i == from
                || (src.chunks[from] != [] && DecodeBuffer(layout, src, src.chunks[from]).stop == End
                    && Reaches(layout, src, from + 1, i))
      {
        FirstReached(layout, src, from, i);
      }
    }
  }

  /** readDir does not end exactly if, the chunks before it decoding to their ends, some chunk gets it
      stuck, and, when it streams, none of the entries before that is answered with an error. */
  lemma ReadDirLoopsExactly(q: Reader)
    requires ValidSource(q.src)
    ensures Endless(q, START) <==>
            && (exists i: nat :: Reaches(q.layout, q.src, 0, i) && GetsStuck(q.layout, q.src, q.src.chunks[i]))
            && (q.mode == SortNone ==>
                  Fold(q.onDirEnt, [], false, DecodeChunks(q.layout, q.src, 0).entries).err == Nil)
  {
    var d := DecodeChunks(q.layout, q.src, 0);
    StuckInChunk(q.layout, q.src, 0);
    var r := SomeOutcome(q, d);
    ReadDirRefines(q, r);
  }

  /** There is an outcome, and it is to loop exactly if decoding gets stuck and, when streaming, is
      come to. */
  lemma SomeOutcome(q: Reader, d: Decoded) returns (r: Outcome)
    ensures Correct(q.mode, q.onDirEnt, d, r)
    ensures r.Loops? <==> d.stop == Stuck && (q.mode == SortNone ==> Fold(q.onDirEnt, [], false, d.entries).err == Nil)
  {
    if q.mode == SortNone {
      r := Streamed(q.onDirEnt, [], false, d);
    } else if d.stop != End {
      r := Stopped([], d.stop);
    } else {
      var sorted := d.entries;
      if Sorts(q.mode) {
        sorted := SomeSorted(q.mode, d.entries);
      }
      assert SortedOrSame(q.mode, d.entries, sorted);
      r := Folded(q.onDirEnt, sorted);
    }
  }

  /** Twenty-four zero bytes make every readDir loop. */
  lemma StuckExample(q: Reader)
    requires q.layout == Linux(false) && q.src.chunks == [seq(24, _ => 0)] && ValidSource(q.src)
    ensures Endless(q, START)
  {
    var buf: Bytes := seq(24, _ => 0);
    assert buf[16..18] == [0, 0] && LittleValue([0, 0]) == 0 by {
      assert [0 as byte, 0][1..] == [0] && [0 as byte][1..] == [];
    }
    assert Reaches(q.layout, q.src, 0, 0) && GetsStuck(q.layout, q.src, q.src.chunks[0]);
    StuckExactly(q.layout, q.src, buf);
    assert DecodeChunks(q.layout, q.src, 0).entries == [];
    ReadDirLoopsExactly(q);
  }
}
