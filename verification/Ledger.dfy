/** Sums over everything a state holds: each queued item counts `g`, each worker counts `h`. */
module Ledger {
  import opened Entries
  import opened Protocol

  ghost function Sum<T(!new)>(q: seq<T>, g: T -> nat): nat {
    if q == [] then 0 else g(q[0]) + Sum(q[1..], g)
  }

  lemma {:induction false} SumAppend<T(!new)>(p: seq<T>, q: seq<T>, g: T -> nat)
    ensures Sum(p + q, g) == Sum(p, g) + Sum(q, g)
  {
    if p == [] {
      assert p + q == q;
    } else {
      assert (p + q)[1..] == p[1..] + q;
      SumAppend(p[1..], q, g);
    }
  }

  lemma SumLast<T(!new)>(q: seq<T>, x: T, g: T -> nat)
    ensures Sum(q + [x], g) == Sum(q, g) + g(x)
  {
    SumAppend(q, [x], g);
    assert [x][1..] == [];
  }

  lemma SumFirst<T(!new)>(x: T, q: seq<T>, g: T -> nat)
    ensures Sum([x] + q, g) == g(x) + Sum(q, g)
  {
    assert ([x] + q)[1..] == q;
  }

  lemma SumOfTwo<T(!new)>(a: T, b: T, g: T -> nat)
    ensures Sum([a, b], g) == g(a) + g(b) && Sum([a], g) == g(a) && Sum([], g) == 0
  {
    SumLast([], a, g);
    SumLast([a], b, g);
    assert [] + [a] == [a] && [a] + [b] == [a, b];
  }

  lemma SumUpdate<T(!new)>(q: seq<T>, i: nat, x: T, g: T -> nat)
    requires i < |q|
    ensures Sum(q[i := x], g) + g(q[i]) == Sum(q, g) + g(x)
  {
    assert q == q[..i] + ([q[i]] + q[i + 1..]);
    assert q[i := x] == q[..i] + ([x] + q[i + 1..]);
    SumAppend(q[..i], [q[i]] + q[i + 1..], g);
    SumAppend(q[..i], [x] + q[i + 1..], g);
    SumAppend([q[i]], q[i + 1..], g);
    SumAppend([x], q[i + 1..], g);
    assert [x][1..] == [] && [q[i]][1..] == [];
  }

  /** A sum is at least each of its terms, and is zero only if every term is. */
  lemma {:induction false} SumAtLeast<T(!new)>(q: seq<T>, i: nat, g: T -> nat)
    requires i < |q|
    ensures g(q[i]) <= Sum(q, g)
  {
    if i == 0 {
    } else {
      assert q[1..][i - 1] == q[i];
      SumAtLeast(q[1..], i - 1, g);
    }
  }

  lemma {:induction false} SumWitness<T(!new)>(q: seq<T>, g: T -> nat) returns (i: nat)
    requires Sum(q, g) > 0
    ensures i < |q| && g(q[i]) > 0
  {
    if g(q[0]) > 0 {
      i := 0;
    } else {
      var j := SumWitness(q[1..], g);
      i := j + 1;
    }
  }

  lemma {:induction false} SumZero<T(!new)>(q: seq<T>, g: T -> nat)
    requires forall i :: 0 <= i < |q| ==> g(q[i]) == 0
    ensures Sum(q, g) == 0
  {
    if q == [] {
    } else {
      SumZero(q[1..], g);
    }
  }

  /** A sum over a log in which each event counts in the light of those before it. */
  ghost function Tally(log: seq<Event>, f: (seq<Event>, Event) -> nat): nat
    decreases |log|
  {
    if log == [] then 0 else Tally(log[..|log| - 1], f) + f(log[..|log| - 1], log[|log| - 1])
  }

  lemma TallyLast(log: seq<Event>, e: Event, f: (seq<Event>, Event) -> nat)
    ensures Tally(log + [e], f) == Tally(log, f) + f(log, e)
  {
    assert (log + [e])[..|log|] == log;
  }

  ghost function Total(s: State, g: Item -> nat, h: Worker -> nat): nat {
    Sum(s.todo, g) + Sum(s.workc, g) + Sum(s.enqueuec, g) + Sum(s.workers, h)
  }

  /** At the start there is only the root, and the idle workers. */
  lemma InitTotal(cfg: Config, root: Item, g: Item -> nat, h: Worker -> nat)
    requires Starts(cfg, root)
    ensures Total(Init(cfg), g, h) == g(root) + Sum(Init(cfg).workers, h)
    ensures h(Idle) == 0 ==> Sum(Init(cfg).workers, h) == 0
  {
    var s := Init(cfg);
    assert s.todo == [] + [root];
    SumLast([], root, g);
    if h(Idle) == 0 {
      SumZero(s.workers, h);
    }
  }

  /** The part of the total that an action uses up: what the one worker it moves, and the one item
      it consumes or produces, account for. The coordinator only passes items on. */
  ghost function Spent(cfg: Config, s: State, a: Action, g: Item -> nat, h: Worker -> nat): int
    requires Enabled(cfg, s, a)
  {
    match a
    case Take(i) => g(s.workc[0]) + h(Idle) - h(Entering(s.workc[0]))
    case Push(i) =>
      var w := s.workers[i];
      h(w) - h(Reading(w.it, w.rest, w.skipFiles)) - g(w.pending)
    case Drop(i) =>
      var w := s.workers[i];
      h(w) - h(Reading(w.it, w.rest, w.skipFiles))
    case Quit(i) => h(s.workers[i]) - h(Exited)
    case Go(i) => h(s.workers[i]) - h(Advance(cfg, s.workers[i], s.log).next)
    case Deliver(i) => h(s.workers[i]) - h(Idle)
    case _ => 0
  }

  lemma TotalStep(cfg: Config, s: State, a: Action, g: Item -> nat, h: Worker -> nat)
    requires Enabled(cfg, s, a)
    ensures Total(Apply(cfg, s, a), g, h) == Total(s, g, h) - Spent(cfg, s, a, g, h)
  {
    var s' := Apply(cfg, s, a);
    match a {
      case Feed =>
        var n := |s.todo| - 1;
        assert s.todo == s.todo[..n] + [s.todo[n]];
        SumLast(s.todo[..n], s.todo[n], g);
        SumLast(s.workc, s.todo[n], g);
      case Collect => SumLast(s.todo, s.enqueuec[0], g);
      case Receive =>
      case Recheck =>
        if s.enqueuec != [] {
          SumLast(s.todo, s.enqueuec[0], g);
        }
      case Join =>
      case Push(i) =>
        SumLast(s.enqueuec, s.workers[i].pending, g);
        SumUpdate(s.workers, i, s'.workers[i], h);
      case Take(i) => SumUpdate(s.workers, i, s'.workers[i], h);
      case Quit(i) => SumUpdate(s.workers, i, s'.workers[i], h);
      case Go(i) => SumUpdate(s.workers, i, s'.workers[i], h);
      case Drop(i) => SumUpdate(s.workers, i, s'.workers[i], h);
      case Deliver(i) => SumUpdate(s.workers, i, s'.workers[i], h);
    }
  }

  /** The accounts `g` and `h` go with an item from the worker that enqueues it. */
  ghost predicate HandedOver(g: Item -> nat, h: Worker -> nat) {
    && h(Idle) == 0 && h(Exited) == 0
    && (forall res :: h(Sending(res)) == 0)
    && (forall it, rest, skipFiles, pending ::
          h(Enqueueing(it, rest, skipFiles, pending)) == h(Reading(it, rest, skipFiles)) + g(pending))
  }

  /** Then only the steps of workers use them up, and the receiving and the dropping of an item. */
  lemma HandOverSpends(cfg: Config, s: State, a: Action, g: Item -> nat, h: Worker -> nat)
    requires HandedOver(g, h) && Enabled(cfg, s, a) && !a.Go? && !a.Take?
    ensures Spent(cfg, s, a, g, h) == if a.Drop? then g(s.workers[a.i].pending) else 0
  {
  }

  /** ... and to the worker that receives it. */
  ghost predicate PassedOn(g: Item -> nat, h: Worker -> nat) {
    HandedOver(g, h) && forall it :: h(Entering(it)) == g(it)
  }

  lemma ChannelSpends(cfg: Config, s: State, a: Action, g: Item -> nat, h: Worker -> nat)
    requires PassedOn(g, h) && Enabled(cfg, s, a) && !a.Go?
    ensures Spent(cfg, s, a, g, h) == if a.Drop? then g(s.workers[a.i].pending) else 0
  {
  }

  function NewEvents(cfg: Config, s: State, a: Action): seq<Event>
    requires Enabled(cfg, s, a)
  {
    match a
    case Take(i) => [Picked(s.workc[0])]
    case Go(i) => Advance(cfg, s.workers[i], s.log).events
    case _ => []
  }

  lemma LogGrows(cfg: Config, s: State, a: Action)
    requires Enabled(cfg, s, a)
    ensures Apply(cfg, s, a).log == s.log + NewEvents(cfg, s, a)
  {
  }

  /** Only receiving an item logs a pick-up. */
  lemma AdvanceEvents(cfg: Config, w: Worker, log: seq<Event>)
    requires Active(w)
    ensures var evs := Advance(cfg, w, log).events;
            |evs| <= 2 && forall i :: 0 <= i < |evs| ==> !evs[i].Picked?
  {
  }

  /** Apart from its call, an entry is dropped, or becomes an item, or ends the loop. */
  ghost predicate EntryMove(cfg: Config, w: Worker, log: seq<Event>, m: Move)
    requires w.Reading? && w.rest != []
  {
    var e, c := w.rest[0], EntryCall(w.it, w.rest[0]);
    var r := cfg.fn(log, c);
    && (m.events == [Called(c)] || (m.events == [] && e.typ != Symlink))
    && (e.typ == Directory ==> m.events == [])
    && (|| (m.next.Reporting? && m.next.it == w.it && m.next.err != Nil)
        || (m.next.Reading? && m.next.it == w.it && m.next.rest == w.rest[1..])
        || (m.next.Enqueueing? && m.next.it == w.it && m.next.rest == w.rest[1..]
            && m.next.pending == ChildItem(w.it, e)
            && (e.typ == Directory || (e.typ == Symlink && (r == Nil || r == TraverseLink)))))
  }

  lemma EntryMoves(cfg: Config, w: Worker, log: seq<Event>)
    requires w.Reading? && w.rest != []
    ensures EntryMove(cfg, w, log, Advance(cfg, w, log))
  {
  }

  /** After its call, an item is opened or its result sent. */
  ghost predicate EnterMove(cfg: Config, it: Item, log: seq<Event>, m: Move) {
    var c := ItemCall(it, Nil);
    && (m.next.Reading? || m.next.Sending?)
    && (it.callbackDone ==> m == Move(Open(cfg, it), OpenEvents(cfg, it)))
    && (!it.callbackDone && cfg.fn(log, c) == Nil ==>
          m == Move(Open(cfg, it), [Called(c)] + OpenEvents(cfg, it)))
    && (!it.callbackDone && cfg.fn(log, c) != Nil ==> m.next.Sending? && m.events == [Called(c)])
  }

  lemma EnterMoves(cfg: Config, it: Item, log: seq<Event>)
    ensures EnterMove(cfg, it, log, Advance(cfg, Entering(it), log))
  {
  }

  /** After the last entry, an error of the directory is reported, and the result sent. */
  ghost predicate EndMove(cfg: Config, w: Worker, m: Move) {
    && (w.Reporting? ==> m.next.Sending? && m.events == [Called(ItemCall(w.it, w.err))])
    && (w.Reading? ==>
          && m.events == []
          && (m.next.Sending? || (m.next.Reporting? && m.next.it == w.it && m.next.err != Nil)))
  }

  lemma EndMoves(cfg: Config, w: Worker, log: seq<Event>)
    requires w.Reporting? || (w.Reading? && w.rest == [])
    ensures EndMove(cfg, w, Advance(cfg, w, log))
  {
  }

  /** All items that are queued are `p`, and all workers `q`. */
  ghost predicate Everywhere(s: State, p: Item -> bool, q: Worker -> bool) {
    && (forall x :: x in s.todo ==> p(x))
    && (forall x :: x in s.workc ==> p(x))
    && (forall x :: x in s.enqueuec ==> p(x))
    && (forall i :: 0 <= i < |s.workers| ==> q(s.workers[i]))
  }

  /** ... and that goes with an item as it is passed on. */
  ghost predicate GoesAlong(p: Item -> bool, q: Worker -> bool) {
    && q(Idle) && q(Exited)
    && (forall it :: p(it) ==> q(Entering(it)))
    && (forall it, rest, skipFiles, pending ::
          q(Enqueueing(it, rest, skipFiles, pending)) ==> q(Reading(it, rest, skipFiles)) && p(pending))
  }

  lemma ChannelKeeps(cfg: Config, s: State, a: Action, p: Item -> bool, q: Worker -> bool)
    requires GoesAlong(p, q) && Everywhere(s, p, q) && Enabled(cfg, s, a) && !a.Go?
    ensures Everywhere(Apply(cfg, s, a), p, q)
  {
    if IsWorkerAction(a) {
      assert q(s.workers[a.i]);
      assert a.Take? ==> s.workc[0] in s.workc;
      WorkerKeeps(cfg, s, a, p, q);
    } else {
      CoordinatorKeeps(cfg, s, a, p, q);
    }
  }

  /** The coordinator only passes items on. */
  lemma CoordinatorKeeps(cfg: Config, s: State, a: Action, p: Item -> bool, q: Worker -> bool)
    requires Everywhere(s, p, q) && Enabled(cfg, s, a) && !IsWorkerAction(a)
    ensures Everywhere(Apply(cfg, s, a), p, q)
  {
  }

  /** A worker changes itself, and what it takes or enqueues. */
  lemma WorkerKeeps(cfg: Config, s: State, a: Action, p: Item -> bool, q: Worker -> bool)
    requires Everywhere(s, p, q) && Enabled(cfg, s, a) && IsWorkerAction(a)
    requires q(Apply(cfg, s, a).workers[a.i]) && (a.Push? ==> p(s.workers[a.i].pending))
    ensures Everywhere(Apply(cfg, s, a), p, q)
  {
    if a.Take? {
      assert forall x :: x in s.workc[1..] ==> x in s.workc;
    }
  }

  // ----- how far items and results have got

  function Rank(c: Coordinator): nat {
    match c
    case Selecting => 2
    case Rechecking => 3
    case Returning(_) => 1
    case Returned(_) => 0
  }

  /** Falls as the coordinator moves items and results. */
  function Progress(s: State): int {
    2 * |s.resc| - |s.enqueuec| - 2 * |s.todo| - 3 * |s.workc| + Rank(s.coord)
  }

  lemma CountsDescend(cfg: Config, s: State, a: Action)
    requires Enabled(cfg, s, a)
    ensures Progress(Apply(cfg, s, a))
         < Progress(s) + if a.Take? then 4 else if a.Deliver? then 3 else if IsWorkerAction(a) then 1 else 0
  {
  }
}
