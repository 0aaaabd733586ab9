/** fixLongPath: the extended-length form of a long absolute Windows path, written into a buffer
    allocated once. */
module LongPath {
  import opened Entries

  type String = seq<byte>

  const BACKSLASH: byte := 92
  const DOT: byte := 46
  const PREFIX: String := [92, 92, 63]  // \\?
  const LONG: nat := 248

  predicate IsSeparator(b: byte) {
    b == 92 || b == 47
  }

  /** `volume` is the length of filepath.VolumeName(path). */
  predicate IsAbs(path: String, volume: nat)
    requires volume <= |path|
  {
    0 < volume < |path| && IsSeparator(path[volume])
  }

  // ----- components

  /** The length of the component `path` starts with. */
  function ComponentLength(path: String): (n: nat)
    ensures n <= |path|
    ensures forall i :: 0 <= i < n ==> !IsSeparator(path[i])
    ensures n < |path| ==> IsSeparator(path[n])
  {
    if path == [] || IsSeparator(path[0]) then 0 else 1 + ComponentLength(path[1..])
  }

  /** The components between separators, without the empty ones and ".". */
  function Components(path: String): seq<String>
    decreases |path|
  {
    if path == [] then []
    else if IsSeparator(path[0]) then Components(path[1..])
    else
      var n := ComponentLength(path);
      (if path[..n] == [DOT] then [] else [path[..n]]) + Components(path[n..])
  }

  ghost predicate ProperComponent(c: String) {
    c != [] && c != [DOT] && forall i :: 0 <= i < |c| ==> !IsSeparator(c[i])
  }

  /** Each component after a backslash. */
  function Joined(components: seq<String>): String {
    if components == [] then [] else [BACKSLASH] + components[0] + Joined(components[1..])
  }

  predicate HasDotDot(path: String) {
    [DOT, DOT] in Components(path)
  }

  /** A result of the length of \\?\c: is a drive root, and gets a trailing backslash. */
  function Terminated(s: String): String {
    if |s| == 6 then s + [BACKSLASH] else s
  }

  function Extended(path: String): String {
    Terminated(PREFIX + Joined(Components(path)))
  }

  /** The paths that are converted. */
  predicate Converts(path: String, volume: nat)
    requires volume <= |path|
  {
    && |path| >= LONG
    && !(path[0] == BACKSLASH && path[1] == BACKSLASH)
    && IsAbs(path, volume)
    && !HasDotDot(path)
  }

  // ----- the rewriter

  lemma ComponentLengthIs(s: String, n: nat)
    requires n <= |s| && (forall i :: 0 <= i < n ==> !IsSeparator(s[i])) && (n < |s| ==> IsSeparator(s[n]))
    ensures ComponentLength(s) == n
  {
  }

  /** The component that starts at `r`. */
  lemma NextComponent(path: String, r: nat, e: nat)
    requires r < e <= |path|
    requires (forall i :: r <= i < e ==> !IsSeparator(path[i])) && (e < |path| ==> IsSeparator(path[e]))
    ensures Components(path[r..]) == (if path[r..e] == [DOT] then [] else [path[r..e]]) + Components(path[e..])
  {
    var s := path[r..];
    ComponentLengthIs(s, e - r);
    assert s[..e - r] == path[r..e] && s[e - r..] == path[e..];
  }

  lemma {:induction false} JoinedAppend(a: seq<String>, b: seq<String>)
    ensures Joined(a + b) == Joined(a) + Joined(b)
  {
    if a == [] {
      assert a + b == b;
    } else {
      assert (a + b)[1..] == a[1..] + b;
      JoinedAppend(a[1..], b);
    }
  }

  lemma JoinedLast(done: seq<String>, c: String)
    ensures Joined(done + [c]) == Joined(done) + [BACKSLASH] + c
  {
    JoinedAppend(done, [c]);
    assert [c][1..] == [] && Joined([c]) == [BACKSLASH] + c + [];
  }

  predicate IsDot(path: String, r: nat)
    requires r < |path|
  {
    path[r] == DOT && (r + 1 == |path| || IsSeparator(path[r + 1]))
  }

  predicate IsDotDot(path: String, r: nat)
    requires r < |path|
  {
    && r + 1 < |path| && path[r] == DOT && path[r + 1] == DOT
    && (r + 2 == |path| || IsSeparator(path[r + 2]))
  }

  /** A component is "." or ".." exactly if the tests for them, made where it starts, succeed. */
  lemma DotTests(path: String, r: nat, e: nat)
    requires r < e <= |path|
    requires (forall i :: r <= i < e ==> !IsSeparator(path[i])) && (e < |path| ==> IsSeparator(path[e]))
    ensures path[r..e] == [DOT] <==> IsDot(path, r)
    ensures path[r..e] == [DOT, DOT] <==> IsDotDot(path, r)
  {
    if IsDot(path, r) {
      assert e == r + 1;
    }
    if IsDotDot(path, r) {
      assert e == r + 2;
    }
  }

  /** The loop invariant on components: `done` have been written, the rest is to come. */
  ghost predicate Written(path: String, r: nat, done: seq<String>)
    requires r <= |path|
  {
    Components(path) == done + Components(path[r..]) && [DOT, DOT] !in done
  }

  lemma SkipSeparator(path: String, r: nat, done: seq<String>)
    requires r < |path| && IsSeparator(path[r]) && Written(path, r, done)
    ensures Written(path, r + 1, done)
  {
    assert path[r..][1..] == path[r + 1..];
  }

  lemma SkipDot(path: String, r: nat, done: seq<String>)
    requires r < |path| && IsDot(path, r) && Written(path, r, done)
    ensures Written(path, r + 1, done)
  {
    NextComponent(path, r, r + 1);
  }

  lemma FoundDotDot(path: String, r: nat, done: seq<String>)
    requires r < |path| && IsDotDot(path, r) && Written(path, r, done)
    ensures HasDotDot(path)
  {
    NextComponent(path, r, r + 2);
    assert path[r..r + 2] == [DOT, DOT];
    assert [DOT, DOT] in Components(path[r..]);
  }

  lemma WriteComponent(path: String, r: nat, e: nat, done: seq<String>)
    requires r < e <= |path| && Written(path, r, done) && !IsDot(path, r) && !IsDotDot(path, r)
    requires (forall i :: r <= i < e ==> !IsSeparator(path[i])) && (e < |path| ==> IsSeparator(path[e]))
    ensures Written(path, e, done + [path[r..e]])
  {
    NextComponent(path, r, e);
    DotTests(path, r, e);
    OneMore(path, r, e, done, path[r..e]);
  }

  lemma OneMore(path: String, r: nat, e: nat, done: seq<String>, c: String)
    requires r <= e <= |path| && Written(path, r, done) && c != [DOT, DOT]
    requires Components(path[r..]) == [c] + Components(path[e..])
    ensures Written(path, e, done + [c])
  {
    assert done + ([c] + Components(path[e..])) == (done + [c]) + Components(path[e..]);
  }

  /** What is written, and how much room that leaves: before `path[r]` at most one byte more than
      was read has been written, and only right after a component. */
  ghost predicate Room(path: String, r: nat, w: nat) {
    && r <= |path|
    && w <= r + 4
    && (w == r + 4 ==> r == |path| || IsSeparator(path[r]))
  }

  /** The function that fixLongPath computes. */
  function Fixed(path: String, volume: nat): String
    requires volume <= |path|
  {
    if Converts(path, volume) then Extended(path) else path
  }

  method FixLongPath(path: String, volume: nat) returns (result: String)
    requires volume <= |path|
    ensures result == Fixed(path, volume)
  {
    if |path| < LONG {
      return path;
    }
    if path[0] == BACKSLASH && path[1] == BACKSLASH {
      return path;
    }
    if !IsAbs(path, volume) {
      return path;
    }
    var pathbuf := new byte[|PREFIX| + |path| + 1];
    pathbuf[0], pathbuf[1], pathbuf[2] := 92, 92, 63;
    assert pathbuf[..3] == PREFIX;
    var ok, w := Rewrite(path, pathbuf);
    if !ok {
      return path;
    }
    if w == 6 {
      pathbuf[w] := BACKSLASH;
      w := w + 1;
    }
    return pathbuf[..w];
  }

  /** The loop: writes the components after the prefix, or gives up at a "..". */
  method Rewrite(path: String, pathbuf: array<byte>) returns (ok: bool, w: nat)
    requires pathbuf.Length == |path| + 4 && pathbuf[..3] == PREFIX
    modifies pathbuf
    ensures ok <==> !HasDotDot(path)
    ensures ok ==> w <= pathbuf.Length && pathbuf[..w] == PREFIX + Joined(Components(path))
  {
    var n := |path|;
    var r: nat := 0;
    w := 3;
    ghost var done: seq<String> := [];
    NothingWritten(path);
    assert PREFIX + Joined(done) == PREFIX;
    while r < n
      invariant Room(path, r, w) && 3 <= w <= pathbuf.Length
      invariant Written(path, r, done)
      invariant pathbuf[..w] == PREFIX + Joined(done)
    {
      if IsSeparator(path[r]) {
        SkipSeparator(path, r, done);
        r := r + 1;
      } else if path[r] == DOT && (r + 1 == n || IsSeparator(path[r + 1])) {
        SkipDot(path, r, done);
        r := r + 1;
      } else if r + 1 < n && path[r] == DOT && path[r + 1] == DOT && (r + 2 == n || IsSeparator(path[r + 2])) {
        FoundDotDot(path, r, done);
        return false, w;
      } else {
        r, w, done := WriteNext(path, r, pathbuf, w, done);
      }
    }
    AllWritten(path, done);
    return true, w;
  }

  lemma AllWritten(path: String, done: seq<String>)
    requires Written(path, |path|, done)
    ensures Components(path) == done && !HasDotDot(path)
  {
    assert path[|path|..] == [] && done + [] == done;
  }

  lemma NothingWritten(path: String)
    ensures Written(path, 0, [])
  {
    assert path[0..] == path && [] + Components(path) == Components(path);
  }

  /** The default case of the loop: copies the component at `r0`. */
  method WriteNext(path: String, r0: nat, pathbuf: array<byte>, w0: nat, ghost done: seq<String>)
    returns (r: nat, w: nat, ghost done': seq<String>)
    requires r0 < |path| && !IsSeparator(path[r0]) && !IsDot(path, r0) && !IsDotDot(path, r0)
    requires Room(path, r0, w0) && 3 <= w0 && pathbuf.Length == |path| + 4
    requires Written(path, r0, done) && pathbuf[..w0] == PREFIX + Joined(done)
    modifies pathbuf
    ensures r0 < r && Room(path, r, w) && 3 <= w <= pathbuf.Length
    ensures Written(path, r, done') && pathbuf[..w] == PREFIX + Joined(done')
  {
    r, w := CopyComponent(path, r0, pathbuf, w0);
    WriteComponent(path, r0, r, done);
    JoinedLast(done, path[r0..r]);
    done' := done + [path[r0..r]];
    assert PREFIX + Joined(done) + [BACKSLASH] + path[r0..r] == PREFIX + (Joined(done) + [BACKSLASH] + path[r0..r]);
  }

  /** Writes a backslash and the component at `r0`. */
  method CopyComponent(path: String, r0: nat, pathbuf: array<byte>, w0: nat) returns (r: nat, w: nat)
    requires r0 < |path| && !IsSeparator(path[r0]) && w0 <= r0 + 3 && pathbuf.Length == |path| + 4
    modifies pathbuf
    ensures r0 < r <= |path| && (forall i :: r0 <= i < r ==> !IsSeparator(path[i]))
    ensures r < |path| ==> IsSeparator(path[r])
    ensures w == w0 + 1 + (r - r0) <= pathbuf.Length
    ensures pathbuf[..w] == old(pathbuf[..w0]) + [BACKSLASH] + path[r0..r]
  {
    r, w := r0, w0;
    pathbuf[w] := BACKSLASH;
    w := w + 1;
    while r < |path| && !IsSeparator(path[r])
      invariant r0 <= r <= |path| && w == w0 + 1 + (r - r0)
      invariant forall i :: r0 <= i < r ==> !IsSeparator(path[i])
      invariant pathbuf[..w] == old(pathbuf[..w0]) + [BACKSLASH] + path[r0..r]
      invariant r > r0 || !IsSeparator(path[r])
    {
      pathbuf[w] := path[r];
      assert path[r0..r + 1] == path[r0..r] + [path[r]];
      r := r + 1;
      w := w + 1;
    }
  }

  // ----- what the conversion means

  lemma {:induction false} ComponentsProper(path: String)
    ensures forall c :: c in Components(path) ==> ProperComponent(c)
    decreases |path|
  {
    if path == [] {
    } else {
      var n := ComponentLength(path);
      ComponentsProper(if n == 0 then path[1..] else path[n..]);
    }
  }

  lemma ComponentThen(c: String, s: String)
    requires ProperComponent(c) && (s != [] ==> IsSeparator(s[0]))
    ensures Components(c + s) == [c] + Components(s)
  {
    NextComponent(c + s, 0, |c|);
    assert (c + s)[0..] == c + s && (c + s)[0..|c|] == c && (c + s)[|c|..] == s;
  }

  /** Splitting what was joined gives the components back, with or without a trailing backslash. */
  lemma {:induction false} ComponentsOfJoined(cs: seq<String>, tail: String)
    requires forall i :: 0 <= i < |cs| ==> ProperComponent(cs[i])
    requires tail == [] || tail == [BACKSLASH]
    ensures Components(Joined(cs) + tail) == cs
  {
    if cs == [] {
      assert Joined(cs) + tail == tail;
      assert tail != [] ==> tail[1..] == [];
    } else {
      ComponentsOfJoined(cs[1..], tail);
      FirstOfJoined(cs[0], cs[1..], tail);
      assert cs == [cs[0]] + cs[1..];
    }
  }

  lemma FirstOfJoined(c: String, cs: seq<String>, tail: String)
    requires ProperComponent(c) && (tail == [] || tail == [BACKSLASH])
    ensures Components(Joined([c] + cs) + tail) == [c] + Components(Joined(cs) + tail)
  {
    var rest := Joined(cs) + tail;
    JoinedStart(cs, tail);
    ComponentThen(c, rest);
    JoinedFirst(c, cs, tail);
    AfterSeparator(c + rest);
  }

  lemma JoinedFirst(c: String, cs: seq<String>, tail: String)
    ensures Joined([c] + cs) + tail == [BACKSLASH] + (c + (Joined(cs) + tail))
  {
    assert ([c] + cs)[1..] == cs;
  }

  lemma JoinedStart(cs: seq<String>, tail: String)
    requires tail == [] || tail == [BACKSLASH]
    ensures Joined(cs) + tail != [] ==> (Joined(cs) + tail)[0] == BACKSLASH
  {
  }

  lemma AfterSeparator(s: String)
    ensures Components([BACKSLASH] + s) == Components(s)
  {
    assert ([BACKSLASH] + s)[1..] == s;
  }

  /** The extended form starts with \\?, has the components of the path behind it and no others, and
      is converted no further. */
  lemma ExtendedKeepsComponents(path: String)
    ensures IsPrefix(PREFIX, Extended(path))
    ensures Components(Extended(path)[3..]) == Components(path)
    ensures forall volume: nat :: volume <= |Extended(path)| ==> !Converts(Extended(path), volume)
  {
    ComponentsProper(path);
    var cs := Components(path);
    ComponentsOfJoined(cs, []);
    ComponentsOfJoined(cs, [BACKSLASH]);
    var j := Joined(cs);
    assert j + [] == j && (PREFIX + j)[3..] == j;
    assert (PREFIX + j + [BACKSLASH])[3..] == j + [BACKSLASH];
  }

  /** The separators are backslashes, one before each component: nothing is left to rewrite. */
  lemma {:induction false} JoinedHasNoSlash(cs: seq<String>)
    requires forall i :: 0 <= i < |cs| ==> ProperComponent(cs[i])
    ensures forall i :: 0 <= i < |Joined(cs)| && IsSeparator(Joined(cs)[i]) ==> Joined(cs)[i] == BACKSLASH
  {
    if cs == [] {
    } else {
      JoinedHasNoSlash(cs[1..]);
    }
  }

  /** fixLongPath is idempotent, whatever the volume name of the result is taken to be. */
  lemma FixedIsIdempotent(path: String, volume: nat, volume': nat)
    requires volume <= |path| && volume' <= |Fixed(path, volume)|
    requires Fixed(path, volume) == path ==> volume' == volume
    ensures Fixed(Fixed(path, volume), volume') == Fixed(path, volume)
  {
    ExtendedKeepsComponents(path);
  }

  // ----- in plain bytes

  predicate NoSlash(c: String) {
    92 !in c && 47 !in c
  }

  lemma SlashAhead(s: String)
    requires s != [] && IsSeparator(s[0])
    ensures Components(s) == Components(s[1..])
  {
  }

  lemma EmptyAhead(slash: byte, b: String)
    requires IsSeparator(slash)
    ensures Components([] + [slash] + b) == Components([]) + Components(b)
  {
    var s := [] + [slash] + b;
    SlashAhead(s);
    assert s[1..] == b;
  }

  lemma BothSlashAhead(a: String, slash: byte, b: String)
    requires a != [] && IsSeparator(a[0])
    ensures Components(a) == Components(a[1..])
    ensures Components(a + [slash] + b) == Components(a[1..] + [slash] + b)
  {
    var s := a + [slash] + b;
    SlashAhead(s);
    SlashAhead(a);
    assert s[1..] == a[1..] + [slash] + b;
  }

  /** The first component of `a`, before a slash that follows. */
  lemma ComponentAhead(a: String, slash: byte, b: String) returns (n: nat, first: seq<String>)
    requires a != [] && !IsSeparator(a[0]) && IsSeparator(slash)
    ensures 0 < n <= |a|
    ensures Components(a) == first + Components(a[n..])
    ensures Components(a + [slash] + b) == first + Components(a[n..] + [slash] + b)
  {
    n := ComponentLength(a);
    first := if a[..n] == [DOT] then [] else [a[..n]];
    var s := a + [slash] + b;
    ComponentLengthIs(s, n);
    assert s[..n] == a[..n] && s[n..] == a[n..] + [slash] + b;
  }

  lemma Regroup(x: seq<String>, y: seq<String>, z: seq<String>)
    ensures x + (y + z) == (x + y) + z
  {
  }

  /** What the components are: at each slash of either kind the path is split, and what is empty or "."
      is left out. */
  lemma {:induction false} ComponentsSplit(a: String, slash: byte, b: String)
    requires slash == 92 || slash == 47
    ensures Components(a + [slash] + b) == Components(a) + Components(b)
    decreases |a|
  {
    if a == [] {
      EmptyAhead(slash, b);
    } else if IsSeparator(a[0]) {
      BothSlashAhead(a, slash, b);
      ComponentsSplit(a[1..], slash, b);
    } else {
      var n, first := ComponentAhead(a, slash, b);
      ComponentsSplit(a[n..], slash, b);
      Regroup(first, Components(a[n..]), Components(b));
    }
  }

  lemma OneComponent(c: String)
    requires NoSlash(c)
    ensures Components(c) == if c == [] || c == [46] then [] else [c]
  {
    if c != [] {
      ComponentLengthIs(c, |c|);
      assert c[..|c|] == c && c[|c|..] == [];
    }
  }

  /** A backslash before each component. */
  function BackslashNames(cs: seq<String>): String {
    if cs == [] then [] else [92] + cs[0] + BackslashNames(cs[1..])
  }

  lemma {:induction false} JoinedIs(cs: seq<String>)
    ensures Joined(cs) == BackslashNames(cs)
  {
    if cs != [] {
      JoinedIs(cs[1..]);
    }
  }

  /** A path is changed exactly if it is at least 248 bytes long, does not start with two backslashes, is
      absolute, that is has a slash behind its volume name, and has no component ".."; and then it becomes
      \\? followed by its components with a backslash before each, and by one more if that is six bytes. */
  lemma FixedExactly(path: String, volume: nat)
    requires volume <= |path|
    ensures var fixed := [92, 92, 63] + BackslashNames(Components(path));
            Fixed(path, volume)
            == if |path| >= 248 && !(path[0] == 92 && path[1] == 92)
                  && 0 < volume < |path| && (path[volume] == 92 || path[volume] == 47)
                  && [46, 46] !in Components(path)
               then fixed + (if |fixed| == 6 then [92] else [])
               else path
    ensures Fixed(path, volume) != path <==>
              && |path| >= 248 && !(path[0] == 92 && path[1] == 92)
              && 0 < volume < |path| && (path[volume] == 92 || path[volume] == 47)
              && [46, 46] !in Components(path)
  {
    JoinedIs(Components(path));
  }
}
