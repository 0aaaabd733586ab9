/** sortDirents: the three comparators, what sorting by them means, and why the result does not
    depend on the order the entries come in nor on the sorting algorithm. */
module Sorting {
  import opened Entries

  datatype SortMode = SortNone | SortLexical | SortFilesFirst | SortDirsFirst | SortUnknown(n: nat)

  /** Go's `<` on strings. */
  predicate NameLess(a: Name, b: Name) {
    b != [] && (a == [] || a[0] < b[0] || (a[0] == b[0] && NameLess(a[1..], b[1..])))
  }

  /** The comparators, branch by branch; the modes without one do not sort. */
  predicate Less(mode: SortMode, a: DirEnt, b: DirEnt) {
    match mode
    case SortLexical => NameLess(a.name, b.name)
    case SortFilesFirst =>
      var r1, r2 := a.typ == Regular, b.typ == Regular;
      var d1, d2 := a.typ == Directory, b.typ == Directory;
      if r1 && !r2 then true
      else if !r1 && r2 then false
      else if !r1 && !r2 && !d1 && d2 then true
      else if !r1 && !r2 && d1 && !d2 then false
      else NameLess(a.name, b.name)
    case SortDirsFirst =>
      var r1, r2 := a.typ == Regular, b.typ == Regular;
      var d1, d2 := a.typ == Directory, b.typ == Directory;
      if d1 && !d2 then true
      else if !d1 && d2 then false
      else if !d1 && !d2 && r1 && !r2 then true
      else if !d1 && !d2 && !r1 && r2 then false
      else NameLess(a.name, b.name)
    case _ => false
  }

  predicate Sorts(mode: SortMode) {
    mode.SortLexical? || mode.SortFilesFirst? || mode.SortDirsFirst?
  }

  /** The class an entry is put in. */
  function Rank(mode: SortMode, typ: FileType): nat {
    match mode
    case SortFilesFirst => if typ == Regular then 0 else if typ == Directory then 2 else 1
    case SortDirsFirst => if typ == Directory then 0 else if typ == Regular then 1 else 2
    case _ => 0
  }

  /** Each comparator orders by class and then by name. */
  lemma LessIsRankThenName(mode: SortMode, a: DirEnt, b: DirEnt)
    requires Sorts(mode)
    ensures Less(mode, a, b) <==>
            || Rank(mode, a.typ) < Rank(mode, b.typ)
            || (Rank(mode, a.typ) == Rank(mode, b.typ) && NameLess(a.name, b.name))
  {
  }

  /** Names are in byte order: the first byte in which they differ decides, and a name comes before the
      longer ones that it starts. */
  lemma {:induction false} NamesInByteOrder(p: Name, x: byte, s: Name, y: byte, t: Name)
    ensures NameLess(p + [x] + s, p + [y] + t) <==> x < y || (x == y && NameLess(s, t))
    ensures NameLess(p, p + [y] + t) && !NameLess(p + [x] + s, p)
  {
    if p == [] {
      assert p + [x] + s == [x] + s && p + [y] + t == [y] + t;
      assert ([x] + s)[1..] == s && ([y] + t)[1..] == t;
    } else {
      NamesInByteOrder(p[1..], x, s, y, t);
      assert (p + [x] + s)[1..] == p[1..] + [x] + s && (p + [y] + t)[1..] == p[1..] + [y] + t;
    }
  }

  // ----- a strict total order

  lemma {:induction false} NameIrreflexive(a: Name)
    ensures !NameLess(a, a)
  {
    if a == [] {
    } else {
      NameIrreflexive(a[1..]);
    }
  }

  lemma {:induction false} NameTransitive(a: Name, b: Name, c: Name)
    requires NameLess(a, b) && NameLess(b, c)
    ensures NameLess(a, c)
  {
    if a != [] && a[0] == b[0] == c[0] {
      NameTransitive(a[1..], b[1..], c[1..]);
    }
  }

  lemma {:induction false} NameTotal(a: Name, b: Name)
    ensures a == b || NameLess(a, b) || NameLess(b, a)
  {
    if a != [] && b != [] && a[0] == b[0] {
      NameTotal(a[1..], b[1..]);
      if a[1..] == b[1..] {
        assert a == [a[0]] + a[1..] == b;
      }
    }
  }

  lemma LessTransitive(mode: SortMode, a: DirEnt, b: DirEnt, c: DirEnt)
    requires Sorts(mode) && Less(mode, a, b) && Less(mode, b, c)
    ensures Less(mode, a, c)
  {
    LessIsRankThenName(mode, a, b);
    LessIsRankThenName(mode, b, c);
    LessIsRankThenName(mode, a, c);
    if NameLess(a.name, b.name) && NameLess(b.name, c.name) {
      NameTransitive(a.name, b.name, c.name);
    }
  }

  /** No entry comes before itself, and of two entries of different names one comes first. */
  lemma LessTotal(mode: SortMode, a: DirEnt, b: DirEnt)
    requires Sorts(mode)
    ensures !(Less(mode, a, b) && Less(mode, b, a))
    ensures a.name != b.name ==> Less(mode, a, b) || Less(mode, b, a)
  {
    LessIsRankThenName(mode, a, b);
    LessIsRankThenName(mode, b, a);
    NameTotal(a.name, b.name);
    if NameLess(a.name, b.name) && NameLess(b.name, a.name) {
      NameTransitive(a.name, b.name, a.name);
      NameIrreflexive(a.name);
    }
  }

  // ----- sorted sequences

  /** No entry comes before one that precedes it. */
  ghost predicate Ordered(mode: SortMode, s: seq<DirEnt>) {
    forall i, j :: 0 <= i < j < |s| ==> !Less(mode, s[j], s[i])
  }

  ghost predicate DistinctNames(s: seq<DirEnt>) {
    forall i, j :: 0 <= i < j < |s| ==> s[i].name != s[j].name
  }

  /** What any sorting algorithm makes of `s`, stable or not. */
  ghost predicate SortedFrom(mode: SortMode, s: seq<DirEnt>, r: seq<DirEnt>) {
    multiset(r) == multiset(s) && Ordered(mode, r)
  }

  lemma CountTwice(t: seq<DirEnt>, i: nat, j: nat)
    requires i < j < |t| && t[i] == t[j]
    ensures multiset(t)[t[i]] >= 2
  {
    assert t == t[..j] + t[j..];
    assert t[i] in t[..j] && t[j] in t[j..];
    assert multiset(t) == multiset(t[..j]) + multiset(t[j..]);
  }

  lemma {:induction false} CountOnce(s: seq<DirEnt>, x: DirEnt)
    requires DistinctNames(s)
    ensures multiset(s)[x] <= 1
  {
    if s == [] {
    } else {
      assert s == [s[0]] + s[1..];
      CountOnce(s[1..], x);
      if x == s[0] {
        assert x !in s[1..];
      }
    }
  }

  lemma SameElement(s: seq<DirEnt>, a: DirEnt, b: DirEnt)
    requires DistinctNames(s) && a in multiset(s) && b in multiset(s) && a.name == b.name
    ensures a == b
  {
    var m :| 0 <= m < |s| && s[m] == a;
    var n :| 0 <= n < |s| && s[n] == b;
  }

  lemma DistinctByCount(s: seq<DirEnt>, t: seq<DirEnt>)
    requires DistinctNames(s) && multiset(s) == multiset(t)
    ensures DistinctNames(t)
  {
    forall i, j | 0 <= i < j < |t|
      ensures t[i].name != t[j].name
    {
      assert t[i] in multiset(t) && t[j] in multiset(t);
      if t[i].name == t[j].name {
        SameElement(s, t[i], t[j]);
        CountOnce(s, t[i]);
        CountTwice(t, i, j);
      }
    }
  }

  lemma SameFirst(mode: SortMode, s: seq<DirEnt>, t: seq<DirEnt>)
    requires Sorts(mode) && multiset(s) == multiset(t) && s != [] && t != []
    requires Ordered(mode, s) && Ordered(mode, t) && DistinctNames(s)
    ensures s[0] == t[0]
  {
    assert s[0] in multiset(t) && t[0] in multiset(s);
    var i :| 0 <= i < |t| && t[i] == s[0];
    var j :| 0 <= j < |s| && s[j] == t[0];
    LessTotal(mode, s[0], t[0]);
    if s[0].name == t[0].name {
      SameElement(s, s[0], t[0]);
    }
  }

  lemma SameLength(s: seq<DirEnt>, t: seq<DirEnt>)
    requires multiset(s) == multiset(t)
    ensures |s| == |t|
  {
    assert |multiset(s)| == |s| && |multiset(t)| == |t|;
  }

  lemma SameRest(s: seq<DirEnt>, t: seq<DirEnt>)
    requires multiset(s) == multiset(t) && s != [] && t != [] && s[0] == t[0]
    ensures multiset(s[1..]) == multiset(t[1..])
  {
    assert s == [s[0]] + s[1..] && t == [t[0]] + t[1..];
    assert multiset(s[1..]) == multiset(s) - multiset{s[0]};
    assert multiset(t[1..]) == multiset(t) - multiset{t[0]};
  }

  /** Two orderings of the same uniquely named entries are equal. */
  lemma {:induction false} OrderedIsUnique(mode: SortMode, s: seq<DirEnt>, t: seq<DirEnt>)
    requires Sorts(mode) && multiset(s) == multiset(t)
    requires Ordered(mode, s) && Ordered(mode, t) && DistinctNames(s) && DistinctNames(t)
    ensures s == t
    decreases |s|
  {
    SameLength(s, t);
    if s == [] {
    } else {
      SameFirst(mode, s, t);
      SameRest(s, t);
      OrderedIsUnique(mode, s[1..], t[1..]);
      assert s == [s[0]] + s[1..] && t == [t[0]] + t[1..];
    }
  }

  /** The result of sorting depends on neither the order of the entries nor the algorithm. */
  lemma SortIsDeterministic(mode: SortMode, s: seq<DirEnt>, s': seq<DirEnt>, r: seq<DirEnt>, r': seq<DirEnt>)
    requires Sorts(mode) && DistinctNames(s) && multiset(s) == multiset(s')
    requires SortedFrom(mode, s, r) && SortedFrom(mode, s', r')
    ensures r == r'
  {
    DistinctByCount(s, r);
    DistinctByCount(s, r');
    OrderedIsUnique(mode, r, r');
  }

  /** Entries of one class are contiguous. */
  lemma ClassesAreContiguous(mode: SortMode, r: seq<DirEnt>, i: nat, j: nat, k: nat)
    requires Sorts(mode) && Ordered(mode, r) && i <= j <= k < |r|
    ensures Rank(mode, r[i].typ) <= Rank(mode, r[j].typ) <= Rank(mode, r[k].typ)
  {
    if i < j {
      LessIsRankThenName(mode, r[j], r[i]);
    }
    if j < k {
      LessIsRankThenName(mode, r[k], r[j]);
    }
  }

  /** SortDirsFirst: directories, then regular files, then the rest. SortFilesFirst: regular files, then the
      rest, then directories. Within each of these, and under SortLexical altogether, by name. */
  lemma OrderOfClasses(mode: SortMode, r: seq<DirEnt>, i: nat, j: nat)
    requires Ordered(mode, r) && i < j < |r|
    ensures mode.SortDirsFirst? ==>
              && (r[j].typ == Directory ==> r[i].typ == Directory)
              && (r[j].typ == Regular ==> r[i].typ == Directory || r[i].typ == Regular)
    ensures mode.SortFilesFirst? ==>
              && (r[j].typ == Regular ==> r[i].typ == Regular)
              && (r[j].typ != Directory ==> r[i].typ != Directory)
    ensures mode.SortLexical? || ((mode.SortDirsFirst? || mode.SortFilesFirst?) && r[i].typ == r[j].typ) ==>
              !NameLess(r[j].name, r[i].name)
  {
    assert !Less(mode, r[j], r[i]);
  }

  // ----- sorting

  /** sortDirents on the array it is given. The loop stands for sort.Slice, an algorithm of the
      library that is known only by what it promises: by `SortIsDeterministic` any other one
      leaves the same entries in the same order. A mode without comparator changes nothing. */
  method SortDirents(mode: SortMode, dents: array<DirEnt>)
    modifies dents
    ensures if mode.SortLexical? || mode.SortFilesFirst? || mode.SortDirsFirst?
            then SortedFrom(mode, old(dents[..]), dents[..])
            else dents[..] == old(dents[..])
  {
    if dents.Length <= 1 || !Sorts(mode) {
      return;
    }
    var n := 1;
    while n < dents.Length
      invariant 1 <= n <= dents.Length
      invariant multiset(dents[..]) == multiset(old(dents[..]))
      invariant Ordered(mode, dents[..n])
    {
      SinkLast(mode, dents, n);
      n := n + 1;
    }
    assert dents[..n] == dents[..];
  }

  /** Moves entry `n` down to its place among the ordered entries before it. */
  method SinkLast(mode: SortMode, dents: array<DirEnt>, n: nat)
    requires Sorts(mode) && n < dents.Length && Ordered(mode, dents[..n])
    modifies dents
    ensures multiset(dents[..]) == multiset(old(dents[..]))
    ensures Ordered(mode, dents[..n + 1])
  {
    var i := n;
    while i > 0 && Less(mode, dents[i], dents[i - 1])
      invariant 0 <= i <= n
      invariant multiset(dents[..]) == multiset(old(dents[..]))
      invariant OrderedBut(mode, dents[..n + 1], i)
    {
      SwapKeepsOrder(mode, dents[..n + 1], i);
      Swap(dents, i, n + 1);
      i := i - 1;
    }
    PlacedIsOrdered(mode, dents[..n + 1], i);
  }

  method Swap(dents: array<DirEnt>, i: nat, n: nat)
    requires 0 < i < n <= dents.Length
    modifies dents
    ensures multiset(dents[..]) == multiset(old(dents[..]))
    ensures dents[..n] == Swapped(old(dents[..n]), i)
  {
    dents[i - 1], dents[i] := dents[i], dents[i - 1];
  }

  function Swapped(s: seq<DirEnt>, i: nat): seq<DirEnt>
    requires 0 < i < |s|
  {
    s[i - 1 := s[i]][i := s[i - 1]]
  }

  /** Ordered except that entry `i` may have to come before entries that precede it. */
  ghost predicate OrderedBut(mode: SortMode, s: seq<DirEnt>, i: nat) {
    && i < |s|
    && (forall j, k :: 0 <= j < k < |s| && k != i ==> !Less(mode, s[k], s[j]))
  }

  lemma SwapKeepsOrder(mode: SortMode, s: seq<DirEnt>, i: nat)
    requires Sorts(mode) && OrderedBut(mode, s, i) && i > 0 && Less(mode, s[i], s[i - 1])
    ensures OrderedBut(mode, Swapped(s, i), i - 1)
  {
    LessTotal(mode, s[i], s[i - 1]);
  }

  lemma PlacedIsOrdered(mode: SortMode, s: seq<DirEnt>, i: nat)
    requires Sorts(mode) && OrderedBut(mode, s, i) && (i > 0 ==> !Less(mode, s[i], s[i - 1]))
    ensures Ordered(mode, s)
  {
    forall j, k | 0 <= j < k < |s|
      ensures !Less(mode, s[k], s[j])
    {
      if k == i && j < i - 1 {
        NotLessTransitive(mode, s[j], s[i - 1], s[i]);
      }
    }
  }

  /** If neither `b` comes before `a` nor `c` before `b`, then `c` does not come before `a`. */
  lemma NotLessTransitive(mode: SortMode, a: DirEnt, b: DirEnt, c: DirEnt)
    requires Sorts(mode) && !Less(mode, b, a) && !Less(mode, c, b)
    ensures !Less(mode, c, a)
  {
    LessIsRankThenName(mode, b, a);
    LessIsRankThenName(mode, c, b);
    LessIsRankThenName(mode, c, a);
    NameTotal(a.name, b.name);
    NameTotal(b.name, c.name);
    if NameLess(c.name, a.name) {
      if NameLess(a.name, b.name) {
        NameTransitive(c.name, a.name, b.name);
      }
      if NameLess(b.name, c.name) {
        NameTransitive(b.name, c.name, a.name);
      }
    }
  }

  // ----- every sequence can be sorted

  lemma {:induction false} Sunk(mode: SortMode, s: seq<DirEnt>, i: nat) returns (r: seq<DirEnt>)
    requires Sorts(mode) && OrderedBut(mode, s, i)
    ensures multiset(r) == multiset(s) && Ordered(mode, r)
    decreases i
  {
    if i > 0 && Less(mode, s[i], s[i - 1]) {
      SwapKeepsOrder(mode, s, i);
      assert multiset(Swapped(s, i)) == multiset(s);
      r := Sunk(mode, Swapped(s, i), i - 1);
    } else {
      PlacedIsOrdered(mode, s, i);
      r := s;
    }
  }

  lemma {:induction false} SomeSorted(mode: SortMode, s: seq<DirEnt>) returns (r: seq<DirEnt>)
    requires Sorts(mode)
    ensures SortedFrom(mode, s, r)
  {
    if s == [] {
      r := [];
    } else {
      var n := |s| - 1;
      var t := SomeSorted(mode, s[..n]);
      assert s == s[..n] + [s[n]];
      r := Sunk(mode, t + [s[n]], |t|);
    }
  }
}
