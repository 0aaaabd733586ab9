/** The reference the parallel walk is measured against: one goroutine that walks a directory to
    its end and then, recursively, each item the walk produced. */
module SequentialWalk {
  import opened Entries
  import opened Protocol
  import opened Ledger

  /** The callback is a function of its arguments. */
  ghost predicate Pure(cfg: Config) {
    forall log, c :: cfg.fn(log, c) == cfg.fn([], c)
  }

  function Answer(cfg: Config, c: Call): Error {
    cfg.fn([], c)
  }

  /** One call of walk: the events it causes, the items it enqueues, what it returns. */
  datatype Outcome = Outcome(events: seq<Event>, kids: seq<Item>, res: Error)

  function Finish(cfg: Config, it: Item, err: Error): Outcome {
    if err == Nil then Outcome([], [], Nil)
    else Outcome([Called(ItemCall(it, err))], [], Answer(cfg, ItemCall(it, err)))
  }

  function ReadEntries(cfg: Config, it: Item, rest: seq<DirEnt>, skipFiles: bool): Outcome
    decreases |rest|
  {
    if rest == [] then Finish(cfg, it, cfg.fs.list(it.dir).err)
    else
      var e, tail := rest[0], rest[1..];
      if skipFiles && e.typ == Regular then ReadEntries(cfg, it, tail, skipFiles)
      else if e.typ == Directory then
        var o := ReadEntries(cfg, it, tail, skipFiles);
        o.(kids := [ChildItem(it, e)] + o.kids)
      else
        var c := EntryCall(it, e);
        var d := Decide(cfg, e.typ, c.path, Answer(cfg, c));
        var o :=
          if d.enqueue then
            var o := ReadEntries(cfg, it, tail, skipFiles);
            o.(kids := [ChildItem(it, e)] + o.kids)
          else if d.err == Nil || d.err == SkipFiles then
            ReadEntries(cfg, it, tail, skipFiles || d.err == SkipFiles)
          else Finish(cfg, it, d.err);
        o.(events := [Called(c)] + o.events)
  }

  function ReadDir(cfg: Config, it: Item): Outcome {
    if DepthLimited(cfg, it) then Outcome([], [], Nil)
    else
      var o := ReadEntries(cfg, it, cfg.fs.list(it.dir).entries, false);
      o.(events := [Opened(it.dir)] + o.events)
  }

  function Visit(cfg: Config, it: Item): Outcome {
    if it.callbackDone then ReadDir(cfg, it)
    else
      var c := ItemCall(it, Nil);
      var r := Answer(cfg, c);
      if r == SkipDir then Outcome([Called(c)], [], Nil)
      else if r != Nil then Outcome([Called(c)], [], r)
      else
        var o := ReadDir(cfg, it);
        o.(events := [Called(c)] + o.events)
  }

  // ----- trees of items

  /** Below `it` the tree of items spanned by `kids` is at most `k` deep. */
  ghost predicate Complete(kids: Item -> seq<Item>, it: Item, k: nat)
    decreases k
  {
    k > 0 && forall i :: 0 <= i < |kids(it)| ==> Complete(kids, kids(it)[i], k - 1)
  }

  /** What the items of the tree below `it` own, in the order of a recursive walk. */
  ghost function Gather<T>(kids: Item -> seq<Item>, own: Item -> seq<T>, it: Item, k: nat): seq<T>
    decreases k, 0
  {
    if k == 0 then [] else own(it) + GatherAll(kids, own, kids(it), k - 1)
  }

  ghost function GatherAll<T>(kids: Item -> seq<Item>, own: Item -> seq<T>, items: seq<Item>, k: nat): seq<T>
    decreases k, |items| + 1
  {
    if items == [] then [] else Gather(kids, own, items[0], k) + GatherAll(kids, own, items[1..], k)
  }

  ghost predicate AllComplete(kids: Item -> seq<Item>, items: seq<Item>, k: nat) {
    forall i :: 0 <= i < |items| ==> Complete(kids, items[i], k)
  }

  /** Once a tree is complete, allowing more depth changes nothing. */
  lemma {:induction false} MoreDepth<T>(kids: Item -> seq<Item>, own: Item -> seq<T>, it: Item, k: nat, k': nat)
    requires Complete(kids, it, k) && k <= k'
    ensures Complete(kids, it, k')
    ensures Gather(kids, own, it, k') == Gather(kids, own, it, k)
    decreases k, 0
  {
    MoreDepthAll(kids, own, kids(it), k - 1, k' - 1);
  }

  lemma {:induction false} MoreDepthAll<T>(kids: Item -> seq<Item>, own: Item -> seq<T>, items: seq<Item>, k: nat,
                                           k': nat)
    requires AllComplete(kids, items, k) && k <= k'
    ensures AllComplete(kids, items, k')
    ensures GatherAll(kids, own, items, k') == GatherAll(kids, own, items, k)
    decreases k, |items| + 1
  {
    if items == [] {
    } else {
      MoreDepth(kids, own, items[0], k, k');
      MoreDepthAll(kids, own, items[1..], k, k');
      assert forall i :: 1 <= i < |items| ==> items[i] == items[1..][i - 1];
    }
  }

  /** ... so at a fixed sufficient depth a tree is its root and the trees of its children. */
  lemma Unfold<T>(kids: Item -> seq<Item>, own: Item -> seq<T>, it: Item, k: nat)
    requires Complete(kids, it, k)
    ensures AllComplete(kids, kids(it), k)
    ensures Gather(kids, own, it, k) == own(it) + GatherAll(kids, own, kids(it), k)
  {
    MoreDepthAll(kids, own, kids(it), k - 1, k);
  }

  /** What occurs in a tree is owned by some item in it. Whatever holds of the root item and passes
      to children holds of that item, and the other things it owns occur in the tree, too. */
  lemma {:induction false} GatherOwner<T, U>(kids: Item -> seq<Item>, own: Item -> seq<T>, other: Item -> seq<U>,
                                             it: Item, k: nat, x: T, holds: Item -> bool) returns (owner: Item)
    requires x in Gather(kids, own, it, k) && holds(it)
    requires forall j, i :: holds(j) && 0 <= i < |kids(j)| ==> holds(kids(j)[i])
    ensures holds(owner) && x in own(owner) && forall y :: y in other(owner) ==> y in Gather(kids, other, it, k)
    decreases k, 0
  {
    if x in own(it) {
      owner := it;
    } else {
      owner := GatherAllOwner(kids, own, other, kids(it), k - 1, x, holds);
    }
  }

  lemma {:induction false} GatherAllOwner<T, U>(kids: Item -> seq<Item>, own: Item -> seq<T>, other: Item -> seq<U>,
                                                items: seq<Item>, k: nat, x: T, holds: Item -> bool)
    returns (owner: Item)
    requires x in GatherAll(kids, own, items, k)
    requires forall i :: 0 <= i < |items| ==> holds(items[i])
    requires forall j, i :: holds(j) && 0 <= i < |kids(j)| ==> holds(kids(j)[i])
    ensures holds(owner) && x in own(owner) && forall y :: y in other(owner) ==> y in GatherAll(kids, other, items, k)
    decreases k, |items| + 1
  {
    if x in Gather(kids, own, items[0], k) {
      owner := GatherOwner(kids, own, other, items[0], k, x, holds);
    } else {
      owner := GatherAllOwner(kids, own, other, items[1..], k, x, holds);
    }
  }

  /** How often `x` occurs in the tree below an item. */
  ghost function Count<T>(kids: Item -> seq<Item>, own: Item -> seq<T>, k: nat, x: T): Item -> nat {
    (it: Item) => multiset(Gather(kids, own, it, k))[x]
  }

  ghost function Size<T>(kids: Item -> seq<Item>, own: Item -> seq<T>, k: nat): Item -> nat {
    (it: Item) => |Gather(kids, own, it, k)|
  }

  lemma {:induction false} GatherAllCount<T(!new)>(kids: Item -> seq<Item>, own: Item -> seq<T>, items: seq<Item>,
                                            k: nat, x: T)
    ensures multiset(GatherAll(kids, own, items, k))[x] == Sum(items, Count(kids, own, k, x))
    ensures |GatherAll(kids, own, items, k)| == Sum(items, Size(kids, own, k))
  {
    if items == [] {
    } else {
      GatherAllCount(kids, own, items[1..], k, x);
    }
  }

  /** An item whose tree is deeper than `k` counts as one. */
  ghost function TooDeep(kids: Item -> seq<Item>, k: nat): Item -> nat {
    (it: Item) => if Complete(kids, it, k) then 0 else 1
  }

  lemma AllCompleteSum(kids: Item -> seq<Item>, items: seq<Item>, k: nat)
    ensures AllComplete(kids, items, k) <==> Sum(items, TooDeep(kids, k)) == 0
  {
    if AllComplete(kids, items, k) {
      SumZero(items, TooDeep(kids, k));
    } else {
      var i :| 0 <= i < |items| && !Complete(kids, items[i], k);
      SumAtLeast(items, i, TooDeep(kids, k));
    }
  }

  /** A tree counts what its root owns and what its children's trees count. */
  lemma UnfoldCount<T(!new)>(kids: Item -> seq<Item>, own: Item -> seq<T>, it: Item, k: nat, x: T)
    requires Complete(kids, it, k)
    ensures Count(kids, own, k, x)(it) == multiset(own(it))[x] + Sum(kids(it), Count(kids, own, k, x))
    ensures Size(kids, own, k)(it) == |own(it)| + Sum(kids(it), Size(kids, own, k))
    ensures Sum(kids(it), TooDeep(kids, k)) == 0
  {
    Unfold(kids, own, it, k);
    GatherAllCount(kids, own, kids(it), k, x);
    AllCompleteSum(kids, kids(it), k);
  }

  // ----- the sequential walk

  ghost function Kids(cfg: Config): Item -> seq<Item> {
    (it: Item) => Visit(cfg, it).kids
  }

  ghost function OwnEvents(cfg: Config): Item -> seq<Event> {
    (it: Item) => [Picked(it)] + Visit(cfg, it).events
  }

  ghost function OwnResult(cfg: Config): Item -> seq<Error> {
    (it: Item) => [Visit(cfg, it).res]
  }

  /** Everything a recursive walk of `it` does; `k` bounds the depth of the recursion. */
  ghost function SeqWalk(cfg: Config, it: Item, k: nat): seq<Event> {
    Gather(Kids(cfg), OwnEvents(cfg), it, k)
  }

  /** The results of all its calls of walk. */
  ghost function SeqResults(cfg: Config, it: Item, k: nat): seq<Error> {
    Gather(Kids(cfg), OwnResult(cfg), it, k)
  }

  ghost predicate SeqTerminates(cfg: Config, it: Item, k: nat) {
    Complete(Kids(cfg), it, k)
  }
}
