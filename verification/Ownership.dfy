/** No path gets two callbacks without an error: in every run of every callback, each path has at
    most one owner among the queued items, the workers and the calls already made. */
module Ownership {
  import opened Entries
  import opened Protocol
  import opened Ledger

  ghost predicate UniqueNames(entries: seq<DirEnt>) {
    forall i, j :: 0 <= i < j < |entries| ==> entries[i].name != entries[j].name
  }

  ghost predicate UniquelyNamed(fs: FileSystem) {
    forall p :: UniqueNames(fs.list(p).entries)
  }

  ghost predicate StrictPrefix(p: Path, q: Path) {
    IsPrefix(p, q) && |p| < |q|
  }

  /** The item may still lead to the call for `p`. */
  ghost function Owns(p: Path): Item -> nat {
    (it: Item) => if StrictPrefix(it.dir, p) || (it.dir == p && !it.callbackDone) then 1 else 0
  }

  ghost function OwnsEntry(dir: Path, p: Path): DirEnt -> nat {
    (e: DirEnt) => if IsPrefix(dir + [e.name], p) then 1 else 0
  }

  ghost function OwnedBy(w: Worker, p: Path): nat {
    match w
    case Entering(it) => Owns(p)(it)
    case Reading(it, rest, _) => Sum(rest, OwnsEntry(it.dir, p))
    case Enqueueing(it, rest, _, pending) => Sum(rest, OwnsEntry(it.dir, p)) + Owns(p)(pending)
    case Reporting(it, err) => if err == Nil && it.dir == p then 1 else 0
    case _ => 0
  }

  ghost function WorkerOwns(p: Path): Worker -> nat {
    (w: Worker) => OwnedBy(w, p)
  }

  ghost function IsCallFor(p: Path): Event -> nat {
    (e: Event) => if e.Called? && e.call.path == p && e.call.err == Nil then 1 else 0
  }

  ghost function Owners(s: State, p: Path): nat {
    Sum(s.log, IsCallFor(p)) + Total(s, Owns(p), WorkerOwns(p))
  }

  lemma NameAfter(dir: Path, name: Name, p: Path)
    ensures IsPrefix(dir + [name], p) <==> StrictPrefix(dir, p) && p[|dir|] == name
  {
    if IsPrefix(dir + [name], p) {
      assert p[..|dir|] == (dir + [name])[..|dir|] == dir;
      assert p[|dir|] == p[..|dir| + 1][|dir|];
    }
    if StrictPrefix(dir, p) {
      assert p[..|dir| + 1] == p[..|dir|] + [p[|dir|]];
    }
  }

  /** Distinct names lead to disjoint subtrees. */
  lemma {:induction false} OneEntryOwns(dir: Path, entries: seq<DirEnt>, p: Path)
    requires UniqueNames(entries)
    ensures Sum(entries, OwnsEntry(dir, p)) <= if StrictPrefix(dir, p) then 1 else 0
  {
    if entries == [] {
    } else {
      NameAfter(dir, entries[0].name, p);
      if OwnsEntry(dir, p)(entries[0]) == 0 {
        OneEntryOwns(dir, entries[1..], p);
      } else {
        forall i | 0 <= i < |entries[1..]|
          ensures OwnsEntry(dir, p)(entries[1..][i]) == 0
        {
          NameAfter(dir, entries[1..][i].name, p);
        }
        SumZero(entries[1..], OwnsEntry(dir, p));
      }
    }
  }

  lemma OpenOwns(cfg: Config, it: Item, p: Path)
    requires UniquelyNamed(cfg.fs)
    ensures OwnedBy(Open(cfg, it), p) <= if StrictPrefix(it.dir, p) then 1 else 0
    ensures Sum(OpenEvents(cfg, it), IsCallFor(p)) == 0
  {
    OneEntryOwns(it.dir, cfg.fs.list(it.dir).entries, p);
    SumZero(OpenEvents(cfg, it), IsCallFor(p));
  }

  lemma CallOwns(c: Call, more: seq<Event>, p: Path)
    ensures Sum([Called(c)] + more, IsCallFor(p)) == IsCallFor(p)(Called(c)) + Sum(more, IsCallFor(p))
  {
    assert ([Called(c)] + more)[1..] == more;
  }

  /** One entry: the call it gets and the item it becomes do not own more than the entry did. */
  lemma EntryOwns(it: Item, e: DirEnt, p: Path)
    ensures Owns(p)(ChildItem(it, e)) + IsCallFor(p)(Called(EntryCall(it, e)))
         <= OwnsEntry(it.dir, p)(e) + if e.typ == Directory then 1 else 0
    ensures Owns(p)(ChildItem(it, e)) <= OwnsEntry(it.dir, p)(e)
  {
    NameAfter(it.dir, e.name, p);
    if it.dir + [e.name] == p {
      assert p[..|p|] == p;
    }
  }

  lemma EnterOwns(cfg: Config, it: Item, log: seq<Event>, p: Path)
    requires UniquelyNamed(cfg.fs)
    ensures var m := Advance(cfg, Entering(it), log);
            OwnedBy(m.next, p) + Sum(m.events, IsCallFor(p)) <= OwnedBy(Entering(it), p)
  {
    EnterMoves(cfg, it, log);
    OpenOwns(cfg, it, p);
    CallOwns(ItemCall(it, Nil), OpenEvents(cfg, it), p);
    CallOwns(ItemCall(it, Nil), [], p);
    assert [Called(ItemCall(it, Nil))] + [] == [Called(ItemCall(it, Nil))];
  }

  lemma ReadOwns(cfg: Config, w: Worker, log: seq<Event>, p: Path)
    requires w.Reading?
    ensures var m := Advance(cfg, w, log);
            OwnedBy(m.next, p) + Sum(m.events, IsCallFor(p)) <= OwnedBy(w, p)
  {
    if w.rest != [] {
      var c := EntryCall(w.it, w.rest[0]);
      EntryMoves(cfg, w, log);
      EntryOwns(w.it, w.rest[0], p);
      CallOwns(c, [], p);
      assert [Called(c)] + [] == [Called(c)];
    }
  }

  lemma GoOwns(cfg: Config, w: Worker, log: seq<Event>, p: Path)
    requires UniquelyNamed(cfg.fs) && Active(w)
    ensures var m := Advance(cfg, w, log);
            OwnedBy(m.next, p) + Sum(m.events, IsCallFor(p)) <= OwnedBy(w, p)
  {
    match w {
      case Entering(it) => EnterOwns(cfg, it, log, p);
      case Reading(_, _, _) => ReadOwns(cfg, w, log, p);
      case Reporting(it, err) =>
        CallOwns(ItemCall(it, err), [], p);
        assert [Called(ItemCall(it, err))] + [] == [Called(ItemCall(it, err))];
    }
  }

  lemma OwnersPassedOn(p: Path)
    ensures PassedOn(Owns(p), WorkerOwns(p))
  {
  }

  lemma SpendsOwners(cfg: Config, s: State, a: Action, p: Path)
    requires UniquelyNamed(cfg.fs) && Enabled(cfg, s, a)
    ensures Sum(NewEvents(cfg, s, a), IsCallFor(p)) <= Spent(cfg, s, a, Owns(p), WorkerOwns(p))
  {
    if a.Go? {
      GoOwns(cfg, s.workers[a.i], s.log, p);
    } else {
      SumZero(NewEvents(cfg, s, a), IsCallFor(p));
      OwnersPassedOn(p);
      ChannelSpends(cfg, s, a, Owns(p), WorkerOwns(p));
    }
  }

  lemma {:induction false} RunOwners(cfg: Config, s: State, acts: seq<Action>, t: State, p: Path)
    requires UniquelyNamed(cfg.fs) && Run(cfg, s, acts, t)
    ensures Owners(t, p) <= Owners(s, p)
    decreases |acts|
  {
    if acts == [] {
    } else {
      var a := acts[0];
      TotalStep(cfg, s, a, Owns(p), WorkerOwns(p));
      SpendsOwners(cfg, s, a, p);
      LogGrows(cfg, s, a);
      SumAppend(s.log, NewEvents(cfg, s, a), IsCallFor(p));
      RunOwners(cfg, Apply(cfg, s, a), acts[1..], t, p);
    }
  }

  /** Whatever the callback answers and the scheduler does, with Follow on or off, on cyclic and on
      infinite file systems: a path is passed to the callback without an error at most once. */
  lemma CalledOnce(cfg: Config, acts: seq<Action>, s: State, p: Path)
    requires UniquelyNamed(cfg.fs) && Run(cfg, Init(cfg), acts, s)
    ensures Sum(s.log, IsCallFor(p)) <= 1
  {
    var s0 := Init(cfg);
    RunOwners(cfg, s0, acts, s, p);
    SumZero(s0.workers, WorkerOwns(p));
    if s0.todo != [] {
      assert s0.todo == [] + [s0.todo[0]];
      SumLast([], s0.todo[0], Owns(p));
    }
  }

  /** ... so two such calls for one path are one and the same entry of the log. */
  lemma CallsAreDistinct(cfg: Config, acts: seq<Action>, s: State, i: nat, j: nat)
    requires UniquelyNamed(cfg.fs) && Run(cfg, Init(cfg), acts, s)
    requires i < j < |s.log| && s.log[i].Called? && s.log[j].Called?
    requires s.log[i].call.err == Nil && s.log[j].call.err == Nil
    ensures s.log[i].call.path != s.log[j].call.path
  {
    var p := s.log[i].call.path;
    assert s.log == s.log[..j] + s.log[j..];
    SumAppend(s.log[..j], s.log[j..], IsCallFor(p));
    SumAtLeast(s.log[..j], i, IsCallFor(p));
    SumAtLeast(s.log[j..], 0, IsCallFor(p));
    CalledOnce(cfg, acts, s, p);
  }
}
