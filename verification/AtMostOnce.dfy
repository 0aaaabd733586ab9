/** How often the adapters have a directory read: in every run of every walk, whatever the inner callback
    answers, Follow on or off, with or without a depth limit, with read errors or without. It is at most
    once, and once more for each time that the inner callback itself asks for it. */
module AtMostOnce {
  import opened Entries
  import opened Protocol
  import opened Ledger
  import opened Safety
  import opened Graph
  import opened GraphSearch
  import Paths

  // ----- who has claimed a directory

  /** Queued links carry the claim on their directory. */
  ghost function Claims(g: Graph, k: FileKey): Item -> nat {
    (it: Item) => if it.callbackDone && Names(g, it.dir, k) then 1 else 0
  }

  ghost function ClaimedBy(g: Graph, k: FileKey, w: Worker): nat {
    match w
    case Entering(it) => Claims(g, k)(it)
    case Enqueueing(_, _, _, pending) => Claims(g, k)(pending)
    case _ => 0
  }

  ghost function WorkerClaims(g: Graph, k: FileKey): Worker -> nat {
    (w: Worker) => ClaimedBy(g, k, w)
  }

  ghost function OpensKey(g: Graph, k: FileKey): Event -> nat {
    (e: Event) => if e.Opened? && Names(g, e.dir, k) then 1 else 0
  }

  ghost function InFilter(t: Search, log: seq<Event>, k: FileKey): nat {
    if k in SeenKeys(t, log) then 1 else 0
  }

  ghost function EntersNow(t: Search, k: FileKey): (seq<Event>, Event) -> nat {
    (log: seq<Event>, e: Event) => if e.Called? && Enters(t, log, e.call, k) then 1 else 0
  }

  ghost function AsksNow(t: Search, k: FileKey): (seq<Event>, Event) -> nat {
    (log: seq<Event>, e: Event) => if e.Called? && Asks(t, log, e.call, k) then 1 else 0
  }

  /** How often the first call for `k` let it pass: once at most. */
  ghost function Entered(t: Search, log: seq<Event>, k: FileKey): nat {
    Tally(log, EntersNow(t, k))
  }

  /** How often the inner callback itself asked for a link to `k` to be traversed. */
  ghost function Asked(t: Search, log: seq<Event>, k: FileKey): nat {
    Tally(log, AsksNow(t, k))
  }

  ghost function Granted(t: Search, log: seq<Event>, k: FileKey): nat {
    Entered(t, log, k) + Asked(t, log, k)
  }

  /** Nothing stands between an answer and the reading. */
  predicate Unlimited(cfg: Config) {
    !cfg.follow && cfg.maxDepth <= 0
  }

  /** The readings of `k` that were granted and have not taken place. */
  ghost function Due(t: Search, log: seq<Event>, k: FileKey): int {
    Granted(t, log, k) - Sum(log, OpensKey(t.g, k))
  }

  /** No claim on a directory has not been granted, and the first call for it let it pass at most once. */
  ghost predicate ClaimsCovered(t: Search, s: State, k: FileKey) {
    && Total(s, Claims(t.g, k), WorkerClaims(t.g, k)) <= Due(t, s.log, k)
    && Entered(t, s.log, k) <= InFilter(t, s.log, k)
  }

  /** Until the walk fails, no grant is lost if nothing limits it. */
  ghost predicate GrantsUsed(t: Search, s: State, k: FileKey) {
    Unlimited(t.cfg) && !Failed(s) ==> Total(s, Claims(t.g, k), WorkerClaims(t.g, k)) == Due(t, s.log, k)
  }

  // ----- the steps of one worker

  /** One more event. */
  lemma GrantedNext(t: Search, log: seq<Event>, e: Event, k: FileKey)
    ensures Entered(t, log + [e], k) == Entered(t, log, k) + EntersNow(t, k)(log, e)
    ensures Asked(t, log + [e], k) == Asked(t, log, k) + AsksNow(t, k)(log, e)
    ensures !e.Called? ==> SeenKeys(t, log + [e]) == SeenKeys(t, log)
  {
    TallyLast(log, e, EntersNow(t, k));
    TallyLast(log, e, AsksNow(t, k));
    if !e.Called? {
      OtherEventsClaimNothing(t, log, e);
    }
  }

  /** From `log` to `log'` the claims on `k` go from `x` to `y`: no claim is made that is not granted, and
      if nothing limits the walk, none that is granted is lost. */
  ghost predicate Pays(t: Search, log: seq<Event>, log': seq<Event>, k: FileKey, x: nat, y: nat) {
    && y + Due(t, log, k) <= x + Due(t, log', k)
    && (Unlimited(t.cfg) ==> y + Due(t, log, k) == x + Due(t, log', k))
    && Entered(t, log', k) - Entered(t, log, k) <= InFilter(t, log', k) - InFilter(t, log, k)
  }

  ghost predicate PaysClaims(t: Search, w: Worker, m: Move, log: seq<Event>, k: FileKey) {
    Pays(t, log, log + m.events, k, ClaimedBy(t.g, k, w), ClaimedBy(t.g, k, m.next))
  }

  lemma PaysBoth(t: Search, log: seq<Event>, log1: seq<Event>, log2: seq<Event>, k: FileKey, x: nat, y: nat, z: nat)
    requires Pays(t, log, log1, k, x, y) && Pays(t, log1, log2, k, y, z)
    ensures Pays(t, log, log2, k, x, z)
  {
  }

  lemma PaysNothing(t: Search, log: seq<Event>, k: FileKey, x: nat)
    ensures Pays(t, log, log + [], k, x, x)
  {
    assert log + [] == log;
  }

  ghost function Once(b: bool): nat {
    if b then 1 else 0
  }

  /** A call grants a reading of `k` exactly if its answer has it read. */
  lemma CallGrants(t: Search, log: seq<Event>, c: Call, k: FileKey)
    requires Wraps(t) && WellTyped(t.g, c.path, c.typ) && IsDir(t.g, k)
    ensures Granted(t, log + [Called(c)], k)
         == Granted(t, log, k) + Once(Names(t.g, c.path, k) && HasRead(c, t.cfg.fn(log, c)))
    ensures Entered(t, log + [Called(c)], k) - Entered(t, log, k)
         <= InFilter(t, log + [Called(c)], k) - InFilter(t, log, k)
  {
    GrantedNext(t, log, Called(c), k);
    GrantsRead(t, log, c, k);
    EntersFilter(t, log, c, k);
  }

  lemma GrantsRead(t: Search, log: seq<Event>, c: Call, k: FileKey)
    requires Wraps(t) && WellTyped(t.g, c.path, c.typ) && IsDir(t.g, k)
    ensures EntersNow(t, k)(log, Called(c)) + AsksNow(t, k)(log, Called(c))
         == Once(Names(t.g, c.path, k) && HasRead(c, t.cfg.fn(log, c)))
  {
    CallClaims(t, log, c);
  }

  lemma EntersFilter(t: Search, log: seq<Event>, c: Call, k: FileKey)
    requires Wraps(t) && WellTyped(t.g, c.path, c.typ) && IsDir(t.g, k)
    ensures EntersNow(t, k)(log, Called(c)) <= InFilter(t, log + [Called(c)], k) - InFilter(t, log, k)
  {
    CallClaims(t, log, c);
  }

  /** ... and then leaves a claim on it. */
  lemma CallPays(t: Search, log: seq<Event>, c: Call, k: FileKey)
    requires Wraps(t) && WellTyped(t.g, c.path, c.typ) && IsDir(t.g, k)
    ensures Pays(t, log, log + [Called(c)], k, 0, Once(Names(t.g, c.path, k) && HasRead(c, t.cfg.fn(log, c))))
  {
    CallGrants(t, log, c, k);
    SumLast(log, Called(c), OpensKey(t.g, k));
  }

  /** Opening a directory uses the claim on it up. */
  lemma OpenPays(t: Search, it: Item, log: seq<Event>, k: FileKey)
    ensures Pays(t, log, log + OpenEvents(t.cfg, it), k, Once(Names(t.g, it.dir, k)), 0)
  {
    if DepthLimited(t.cfg, it) {
      PaysNothing(t, log, k, 0);
    } else {
      GrantedNext(t, log, Opened(it.dir), k);
      SumLast(log, Opened(it.dir), OpensKey(t.g, k));
    }
  }

  lemma NewPays(t: Search, it: Item, log: seq<Event>, k: FileKey)
    requires Wraps(t) && GoodItem(t.g, it) && IsDir(t.g, k) && !it.callbackDone
    requires t.cfg.fn(log, ItemCall(it, Nil)) == Nil
    ensures Pays(t, log, log + ([Called(ItemCall(it, Nil))] + OpenEvents(t.cfg, it)), k, 0, 0)
  {
    var c := ItemCall(it, Nil);
    CallPays(t, log, c, k);
    OpenPays(t, it, log + [Called(c)], k);
    assert log + [Called(c)] + OpenEvents(t.cfg, it) == log + ([Called(c)] + OpenEvents(t.cfg, it));
    PaysBoth(t, log, log + [Called(c)], log + [Called(c)] + OpenEvents(t.cfg, it), k,
             0, Once(Names(t.g, it.dir, k)), 0);
  }

  lemma EnterPays(t: Search, it: Item, log: seq<Event>, m: Move, k: FileKey)
    requires Wraps(t) && GoodItem(t.g, it) && IsDir(t.g, k) && EnterMove(t.cfg, it, log, m)
    ensures PaysClaims(t, Entering(it), m, log, k)
  {
    assert ClaimedBy(t.g, k, m.next) == 0;
    if it.callbackDone {
      OpenPays(t, it, log, k);
    } else if t.cfg.fn(log, ItemCall(it, Nil)) == Nil {
      NewPays(t, it, log, k);
    } else {
      CallPays(t, log, ItemCall(it, Nil), k);
    }
  }

  /** A link is queued only if its answer has it read, and without Follow exactly then. */
  ghost predicate LinkMove(t: Search, w: Worker, log: seq<Event>, m: Move)
    requires w.Reading? && w.rest != []
  {
    var c := EntryCall(w.it, w.rest[0]);
    && m.events == [Called(c)]
    && (m.next.Enqueueing? ==> m.next.pending == ChildItem(w.it, w.rest[0]) && w.rest[0].typ == Symlink)
    && (m.next.Enqueueing? && t.cfg.fn(log, c) != Nil ==> t.cfg.fn(log, c) == TraverseLink)
    && (Unlimited(t.cfg) ==> (m.next.Enqueueing? <==> t.cfg.fn(log, c) == TraverseLink))
    && !m.next.Entering?
  }

  lemma LinkMoves(t: Search, w: Worker, log: seq<Event>)
    requires w.Reading? && w.rest != [] && w.rest[0].typ == Symlink
    ensures LinkMove(t, w, log, Advance(t.cfg, w, log))
  {
  }

  /** What a link that may be queued leaves is at most the claim of its call. */
  lemma LinkClaims(t: Search, w: Worker, log: seq<Event>, m: Move, k: FileKey)
    requires Wraps(t) && w.Reading? && w.rest != [] && w.rest[0].typ == Symlink && LinkMove(t, w, log, m)
    requires IsDir(t.g, k)
    ensures var c := EntryCall(w.it, w.rest[0]);
            var most := Once(Names(t.g, c.path, k) && HasRead(c, t.cfg.fn(log, c)));
            ClaimedBy(t.g, k, m.next) <= most && (Unlimited(t.cfg) ==> ClaimedBy(t.g, k, m.next) == most)
  {
    CallClaims(t, log, EntryCall(w.it, w.rest[0]));
  }

  lemma PaysLess(t: Search, log: seq<Event>, log': seq<Event>, k: FileKey, x: nat, y: nat, z: nat)
    requires Pays(t, log, log', k, x, y) && z <= y && (Unlimited(t.cfg) ==> z == y)
    ensures Pays(t, log, log', k, x, z)
  {
  }

  lemma LinkPays(t: Search, w: Worker, log: seq<Event>, m: Move, k: FileKey)
    requires Wraps(t) && w.Reading? && w.rest != [] && w.rest[0].typ == Symlink && LinkMove(t, w, log, m)
    requires IsDir(t.g, k)
    ensures PaysClaims(t, w, m, log, k)
  {
    var c := EntryCall(w.it, w.rest[0]);
    LinkClaims(t, w, log, m, k);
    CallPays(t, log, c, k);
    PaysLess(t, log, log + [Called(c)], k, 0, Once(Names(t.g, c.path, k) && HasRead(c, t.cfg.fn(log, c))),
             ClaimedBy(t.g, k, m.next));
  }

  /** Directories are queued without a claim, and files are not opened. */
  lemma NoLinkPays(t: Search, w: Worker, log: seq<Event>, m: Move, k: FileKey)
    requires Wraps(t) && w.Reading? && w.rest != [] && GoodWorker(t.g, w) && IsDir(t.g, k)
    requires w.rest[0].typ != Symlink && EntryMove(t.cfg, w, log, m)
    ensures PaysClaims(t, w, m, log, k)
  {
    assert ClaimedBy(t.g, k, m.next) == 0;
    if m.events == [] {
      PaysNothing(t, log, k, 0);
    } else {
      FirstEntry(t.g, w.it.dir, w.rest);
      CallPays(t, log, EntryCall(w.it, w.rest[0]), k);
    }
  }

  /** A report of an error has nothing read. */
  lemma ReportPays(t: Search, it: Item, err: Error, log: seq<Event>, k: FileKey)
    requires Wraps(t) && GoodItem(t.g, it) && IsDir(t.g, k) && err != Nil
    ensures Pays(t, log, log + [Called(ItemCall(it, err))], k, 0, 0)
  {
    CallPays(t, log, ItemCall(it, err), k);
  }

  lemma ReportingPays(t: Search, w: Worker, log: seq<Event>, m: Move, k: FileKey)
    requires Wraps(t) && IsDir(t.g, k) && w.Reporting? && GoodItem(t.g, w.it) && w.err != Nil
    requires m.next.Sending? && m.events == [Called(ItemCall(w.it, w.err))]
    ensures PaysClaims(t, w, m, log, k)
  {
    ReportPays(t, w.it, w.err, log, k);
  }

  lemma FinishingPays(t: Search, w: Worker, log: seq<Event>, m: Move, k: FileKey)
    requires w.Reading? && !m.next.Entering? && !m.next.Enqueueing? && m.events == []
    ensures PaysClaims(t, w, m, log, k)
  {
    PaysNothing(t, log, k, 0);
  }

  lemma GoPays(t: Search, w: Worker, log: seq<Event>, k: FileKey)
    requires Wraps(t) && Active(w) && GoodWorker(t.g, w) && IsDir(t.g, k)
    ensures PaysClaims(t, w, Advance(t.cfg, w, log), log, k)
  {
    var m := Advance(t.cfg, w, log);
    if w.Entering? {
      EnterMoves(t.cfg, w.it, log);
      EnterPays(t, w.it, log, m, k);
    } else if w.Reporting? {
      EndMoves(t.cfg, w, log);
      ReportingPays(t, w, log, m, k);
    } else if w.rest == [] {
      EndMoves(t.cfg, w, log);
      FinishingPays(t, w, log, m, k);
    } else if w.rest[0].typ == Symlink {
      LinkMoves(t, w, log);
      LinkPays(t, w, log, m, k);
    } else {
      EntryMoves(t.cfg, w, log);
      NoLinkPays(t, w, log, m, k);
    }
  }

  // ----- the steps of the system

  lemma ClaimsPassedOn(g: Graph, k: FileKey)
    ensures PassedOn(Claims(g, k), WorkerClaims(g, k))
  {
  }

  /** Only a worker's own step opens, or calls. */
  lemma NoOpening(t: Search, s: State, a: Action, k: FileKey)
    requires Enabled(t.cfg, s, a) && !a.Go?
    ensures var log' := s.log + NewEvents(t.cfg, s, a);
            && Due(t, log', k) == Due(t, s.log, k)
            && SeenKeys(t, log') == SeenKeys(t, s.log)
            && Entered(t, log', k) == Entered(t, s.log, k)
            && Asked(t, log', k) == Asked(t, s.log, k)
  {
    if a.Take? {
      GrantedNext(t, s.log, Picked(s.workc[0]), k);
      SumLast(s.log, Picked(s.workc[0]), OpensKey(t.g, k));
    } else {
      assert s.log + [] == s.log;
    }
  }

  /** ... and only a failed walk drops items. */
  lemma NothingClaimed(t: Search, s: State, a: Action, k: FileKey)
    requires Enabled(t.cfg, s, a) && !a.Go?
    ensures var spent := Spent(t.cfg, s, a, Claims(t.g, k), WorkerClaims(t.g, k));
            spent >= 0 && (!a.Drop? ==> spent == 0)
  {
    ClaimsPassedOn(t.g, k);
    Ledger.ChannelSpends(t.cfg, s, a, Claims(t.g, k), WorkerClaims(t.g, k));
  }

  lemma SpendsClaims(t: Search, s: State, a: Action, k: FileKey)
    requires Wraps(t) && GoodState(t.g, s) && Enabled(t.cfg, s, a) && IsDir(t.g, k)
    ensures var log' := s.log + NewEvents(t.cfg, s, a);
            var spent := Spent(t.cfg, s, a, Claims(t.g, k), WorkerClaims(t.g, k));
            && Due(t, s.log, k) <= spent + Due(t, log', k)
            && (Unlimited(t.cfg) && !a.Drop? ==> Due(t, s.log, k) == spent + Due(t, log', k))
            && Entered(t, log', k) - Entered(t, s.log, k) <= InFilter(t, log', k) - InFilter(t, s.log, k)
  {
    if a.Go? {
      assert GoodWorkers(t.g)(s.workers[a.i]);
      GoPays(t, s.workers[a.i], s.log, k);
    } else {
      NoOpening(t, s, a, k);
      NothingClaimed(t, s, a, k);
    }
  }

  lemma StepClaims(t: Search, s: State, a: Action, k: FileKey)
    requires Wraps(t) && GoodState(t.g, s) && Enabled(t.cfg, s, a) && IsDir(t.g, k) && ClaimsCovered(t, s, k)
    ensures ClaimsCovered(t, Apply(t.cfg, s, a), k)
  {
    TotalStep(t.cfg, s, a, Claims(t.g, k), WorkerClaims(t.g, k));
    SpendsClaims(t, s, a, k);
    LogGrows(t.cfg, s, a);
  }

  lemma {:induction false} RunClaims(t: Search, s: State, acts: seq<Action>, s': State, k: FileKey)
    requires Wraps(t) && GoodState(t.g, s) && Run(t.cfg, s, acts, s') && IsDir(t.g, k) && ClaimsCovered(t, s, k)
    ensures GoodState(t.g, s') && ClaimsCovered(t, s', k)
    decreases |acts|
  {
    if acts == [] {
    } else {
      StepGood(t, s, acts[0]);
      StepClaims(t, s, acts[0], k);
      RunClaims(t, Apply(t.cfg, s, acts[0]), acts[1..], s', k);
    }
  }

  lemma InitClaims(t: Search, k: FileKey)
    ensures ClaimsCovered(t, Init(t.cfg), k) && GrantsUsed(t, Init(t.cfg), k)
  {
    var s := Init(t.cfg);
    SumZero(s.todo, Claims(t.g, k));
    SumZero(s.workers, WorkerClaims(t.g, k));
  }

  // ----- the bound

  /** Some path below the root, through any directories and links, leads to `k`. */
  ghost predicate Reachable(t: Search, k: FileKey) {
    exists p :: IsPrefix(t.cfg.root, p) && Names(t.g, p, k)
  }

  /** In every run, also one that fails, each directory is opened only if it is reachable from the root,
      and at most once, and once more for each time that the inner callback asked for it. Under
      IgnoreDuplicateFiles it cannot. */
  lemma OpenedAtMostOnce(t: Search, acts: seq<Action>, s: State, k: FileKey)
    requires Wraps(t) && Run(t.cfg, Init(t.cfg), acts, s) && IsDir(t.g, k)
    ensures Sum(s.log, OpensKey(t.g, k)) <= Entered(t, s.log, k) + Asked(t, s.log, k)
    ensures Entered(t, s.log, k) <= InFilter(t, s.log, k) <= 1
    ensures Sum(s.log, OpensKey(t.g, k)) > 0 ==> Reachable(t, k)
    ensures t.kind.Files? ==> Asked(t, s.log, k) == 0
  {
    InitGood(t);
    InitClaims(t, k);
    RunClaims(t, Init(t.cfg), acts, s, k);
    if t.kind.Files? {
      FilesAskNothing(t, s.log, k);
    }
    if Sum(s.log, OpensKey(t.g, k)) > 0 {
      var i := SumWitness(s.log, OpensKey(t.g, k));
      Paths.BelowRoot(t.cfg, acts, s, s.log[i].dir);
    }
  }

  lemma {:induction false} FilesAskNothing(t: Search, log: seq<Event>, k: FileKey)
    requires t.kind.Files?
    ensures Asked(t, log, k) == 0
    decreases |log|
  {
    if log == [] {
    } else {
      FilesAskNothing(t, log[..|log| - 1], k);
    }
  }

  // ----- the exact number

  lemma StepGrants(t: Search, s: State, a: Action, k: FileKey)
    requires Wraps(t) && Inv(t.cfg, s) && GoodState(t.g, s) && Enabled(t.cfg, s, a) && IsDir(t.g, k)
    requires GrantsUsed(t, s, k)
    ensures GrantsUsed(t, Apply(t.cfg, s, a), k)
  {
    if Failed(s) {
      FailedStays(t.cfg, s, a);
    } else {
      NoDropWhileIdle(t.cfg, s, a);
      TotalStep(t.cfg, s, a, Claims(t.g, k), WorkerClaims(t.g, k));
      SpendsClaims(t, s, a, k);
      LogGrows(t.cfg, s, a);
    }
  }

  lemma {:induction false} RunGrants(t: Search, s: State, acts: seq<Action>, s': State, k: FileKey)
    requires Wraps(t) && t.cfg.numWorkers >= 1 && Inv(t.cfg, s) && GoodState(t.g, s) && IsDir(t.g, k)
    requires Run(t.cfg, s, acts, s') && GrantsUsed(t, s, k)
    ensures GrantsUsed(t, s', k)
    decreases |acts|
  {
    if acts == [] {
    } else {
      StepInv(t.cfg, s, acts[0]);
      StepGood(t, s, acts[0]);
      StepGrants(t, s, acts[0], k);
      RunGrants(t, Apply(t.cfg, s, acts[0]), acts[1..], s', k);
    }
  }

  /** If Walk returns nil, Follow off and without a depth limit, each directory has been opened exactly as
      often as the first call for it let it pass and the inner callback asked for it. */
  lemma OpenedAsGranted(t: Search, acts: seq<Action>, s: State, k: FileKey)
    requires Wraps(t) && Unlimited(t.cfg) && t.cfg.numWorkers >= 1 && IsDir(t.g, k)
    requires Run(t.cfg, Init(t.cfg), acts, s) && s.coord == Returned(Nil)
    ensures Sum(s.log, OpensKey(t.g, k)) == Entered(t, s.log, k) + Asked(t, s.log, k)
  {
    InitInv(t.cfg);
    RunInv(t.cfg, Init(t.cfg), acts, s);
    GrantsStayUsed(t, acts, s, k);
    SumZero(s.workers, WorkerClaims(t.g, k));
  }

  lemma GrantsStayUsed(t: Search, acts: seq<Action>, s: State, k: FileKey)
    requires Wraps(t) && t.cfg.numWorkers >= 1 && IsDir(t.g, k) && Run(t.cfg, Init(t.cfg), acts, s)
    ensures GrantsUsed(t, s, k)
  {
    InitInv(t.cfg);
    InitGood(t);
    InitClaims(t, k);
    RunGrants(t, Init(t.cfg), acts, s, k);
  }
}
