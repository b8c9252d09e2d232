/**
 * The system calls of one worker of the dedup phase. Between them the other workers and other processes do whatever
 * they like; what happens, altogether, is a run of DedupSteps.
 */
module SystemCalls {
  import opened Base
  import opened RunPlanner
  import opened BlockStore
  import opened DedupSteps
  import opened Safety
  import opened Accounting

  // A run of the phase: what is carried out, where it began, and all that happened.
  datatype History = History(cfg: Config, start: State, trace: seq<Event>)

  ghost predicate Reaches(p: History, t: State): (r: bool)
    ensures r ==> Wf(t.store)
  {
    Initial(p.cfg, p.start) && After(p.cfg, p.start, p.trace) == Some(t)
  }

  lemma ReachesNext(p: History, t: State, e: Event, u: State)
    requires Reaches(p, t) && Next(p.cfg, t, e) == Some(u)
    ensures Reaches(p.(trace := p.trace + [e]), u)
  {
    AfterNext(p.cfg, p.start, p.trace, t, e, u, p.trace + [e]);
  }

  lemma AfterNext(cfg: Config, s: State, trace: seq<Event>, t: State, e: Event, u: State, more: seq<Event>)
    requires Wf(s.store) && After(cfg, s, trace) == Some(t) && Next(cfg, t, e) == Some(u)
    requires |more| == |trace| + 1 && more[..|trace|] == trace && more[|trace|] == e
    ensures After(cfg, s, more) == Some(u)
  {
  }

  lemma ReachedIsTidy(p: History, t: State)
    requires Reaches(p, t)
    ensures Tidy(p.cfg, t)
  {
    RunStaysTidy(p.cfg, p.start, p.trace);
  }

  lemma WorksAreBounded(p: History, t: State)
    requires Reaches(p, t)
    ensures Works(p.trace) <= 4 * |Slots(p.cfg.plan)| + 3 * |t.workers|
  {
    RunAdvances(p.cfg, p.start, p.trace);
    RunIsBounded(p.cfg, p.start, p.trace);
  }

  // `n` workers, none of which has begun.
  function Fresh(cfg: Config, st: Store, n: nat): State {
    State(st, cfg.plan.Keys, seq(n, _ => Thread(Idle, ZERO)), map[])
  }

  lemma FreshReaches(cfg: Config, st: Store, n: nat)
    requires Wf(st)
    ensures Reaches(History(cfg, Fresh(cfg, st, n), []), Fresh(cfg, st, n))
  {
  }

  // What this worker asked for, and the answer.
  datatype Call =
    | OpenCall(file: nat, write: bool, fd: Result<nat, IoErr>)
    | ReadCall(range: Range, data: Result<seq<byte>, IoErr>)
    | CloneCall(src: Range, dst: Range, err: Option<IoErr>)
    | DedupeCall(src: Range, dst: Range, res: DedupeResult)

  /** What was settled stays settled. */
  ghost predicate Grows(log: SlotLog, log': SlotLog) {
    forall slot :: slot in log ==> slot in log' && log'[slot] == log[slot]
  }

  lemma NextGrows(h: History, s: State, e: Event)
    requires Reaches(h, s) && Next(h.cfg, s, e).Some?
    ensures Grows(s.log, Next(h.cfg, s, e).value.log)
  {
    ReachedIsTidy(h, s);
    if e.Work? {
      EffectLeads(h.cfg, s.store, s.workers[e.w].pc, e.a);
      SlotIsFresh(h.cfg, s, e.w, e.a, Do(h.cfg, s.store, s.workers[e.w].pc, e.a).value);
    }
  }

  // ---- what others do -------------------------------------------------------------------

  /** An event of another worker or another process. Pairs handed to this worker are not taken by others. */
  predicate OfOthers(e: Event, me: nat, mine: set<PairKey>) {
    e.Work? ==> e.w != me && (e.a.Open? ==> e.a.k !in mine)
  }

  /** What this worker can rely on while others go on. */
  ghost predicate Waited(s: State, t: State, me: nat, mine: set<PairKey>) {
    && |t.workers| == |s.workers| && me < |s.workers| && t.workers[me] == s.workers[me]
    && t.pending <= s.pending && (mine <= s.pending ==> mine <= t.pending) && Grows(s.log, t.log)
    && (s.pending == {} ==> forall w :: 0 <= w < |s.workers| && s.workers[w].pc.Idle? ==> t.workers[w].pc.Idle?)
  }

  lemma OthersStep(cfg: Config, s: State, e: Event, me: nat, mine: set<PairKey>)
    requires Wf(s.store) && me < |s.workers| && OfOthers(e, me, mine) && Next(cfg, s, e).Some?
    requires Grows(s.log, Next(cfg, s, e).value.log)
    ensures Waited(s, Next(cfg, s, e).value, me, mine)
  {
  }

  lemma WaitedOn(s: State, t: State, u: State, me: nat, mine: set<PairKey>)
    requires Waited(s, t, me, mine) && Waited(t, u, me, mine)
    ensures Waited(s, u, me, mine)
  {
  }

  ghost predicate IdleUpTo(s: State, n: nat) {
    n <= |s.workers| && forall w :: 0 <= w < n ==> s.workers[w].pc.Idle?
  }

  lemma OneMoreIdle(s: State, t: State, me: nat, mine: set<PairKey>, w: nat)
    requires Waited(s, t, me, mine) && s.pending == {} && IdleUpTo(s, w)
    requires w < |t.workers| && t.workers[w].pc.Idle?
    ensures IdleUpTo(t, w + 1)
  {
  }

  lemma OneMoreWork(trace: seq<Event>, e: Event)
    ensures Works(trace + [e]) == Works(trace) + (if e.Work? then 1 else 0)
  {
    assert (trace + [e])[..|trace|] == trace;
  }

  /** The current run of worker `me` was settled as `o`, and `added` counted for it. */
  ghost predicate Settles(s: State, t: State, me: nat, o: Outcome, added: Stats) {
    && me < |s.workers| == |t.workers| && t.pending <= s.pending && Grows(s.log, t.log) && s.workers[me].pc.In?
    && var pc := s.workers[me].pc;
       && t.workers[me] == Thread(pc.(i := pc.i + 1, phase := Start), Add(s.workers[me].stats, added))
       && RunSlot(pc.k, pc.i) in t.log && t.log[RunSlot(pc.k, pc.i)] == o
  }

  lemma SettledAfter(cfg: Config, s: State, t: State, me: nat, mine: set<PairKey>, a: Act, st: Store, o: Outcome)
    requires Waited(s, t, me, mine) && s.workers[me].pc.In? && !a.Open?
    requires RunSlot(s.workers[me].pc.k, s.workers[me].pc.i) !in t.log
    ensures var pc := s.workers[me].pc;
            && Settles(s, Applied(t, me, a, Settled(cfg, pc, st, true, o)), me, o, Settle(cfg.opts, o))
            && Settles(s, Applied(t, me, a, Settled(cfg, pc, st, false, o)), me, o,
                       Tally(cfg.opts, RunSlot(pc.k, pc.i), o))
  {
  }

  function Clones(failed: Option<IoErr>, len: nat): Outcome {
    if failed.Some? then Failed(failed.value) else Verified(len)
  }

  function Dedupes(res: DedupeResult): Outcome {
    match res
    case Same(m) => Verified(m)
    case Differs => Mismatch
    case DedupeErr(e) => Failed(e)
  }

  /** The step is possible and settles the current run as `o`. */
  ghost predicate Concludes(cfg: Config, pc: Pc, st: Store, a: Act, o: Outcome)
    requires Wf(st)
  {
    && pc.In? && Do(cfg, st, pc, a).Some?
    && Do(cfg, st, pc, a).value.logged == Some((RunSlot(pc.k, pc.i), o))
  }

  lemma CloneConcludes(cfg: Config, pc: Pc, st: Store, failed: Option<IoErr>)
    requires Wf(st) && DoClone(cfg, pc, st, failed).Some?
    ensures Concludes(cfg, pc, st, Clone(failed), Clones(failed, LenOn(cfg, pc, true)))
  {
  }

  lemma DedupeIsStep(cfg: Config, pc: Pc, st: Store, a: Act, eff: Effect)
    requires Wf(st) && a.Dedupe? && DoDedupe(cfg, pc, st, a.res) == Some(eff)
    ensures Do(cfg, st, pc, a) == Some(eff)
  {
    match a
    case Dedupe(res) =>
  }

  lemma DedupeLogs(cfg: Config, pc: Pc, st: Store, res: DedupeResult)
    requires Wf(st) && DoDedupe(cfg, pc, st, res).Some?
    ensures pc.In? && DoDedupe(cfg, pc, st, res).value.logged == Some((RunSlot(pc.k, pc.i), Dedupes(res)))
  {
  }

  lemma ErrorIsReply(cfg: Config, pc: Pc, st: Store, e: IoErr)
    requires Wf(st) && Ready(cfg, pc) && !cfg.opts.Compare()
    ensures DoDedupe(cfg, pc, st, DedupeErr(e)).Some?
  {
  }

  /** What a reply says of the store: a shared prefix is equal and on the same blocks, or the ranges differ. */
  ghost predicate HoldsOf(st: Store, src: Range, dst: Range, res: DedupeResult)
    requires Wf(st)
  {
    match res
    case Same(m) =>
      && m <= src.len && Inside(st, src.(len := m)) && Inside(st, dst.(len := m))
      && Bytes(st, src.(len := m)) == Bytes(st, dst.(len := m))
      && PointsAlike(st, src.f, src.off, dst.f, dst.off, m)
    case Differs => Inside(st, src) && Inside(st, dst) && Bytes(st, src) != Bytes(st, dst)
    case DedupeErr(_) => true
  }

  lemma ReplyIsTrue(cfg: Config, pc: Pc, st: Store, res: DedupeResult)
    requires Wf(st) && DoDedupe(cfg, pc, st, res).Some?
    ensures var t := DoDedupe(cfg, pc, st, res).value.store;
            Wf(t) && HoldsOf(t, SrcRange(cfg, pc), DstRange(cfg, pc), res)
  {
    DedupeKeepsContents(cfg, st, pc, res);
    if res.Same? {
      var src, dst := SrcRange(cfg, pc), DstRange(cfg, pc);
      CloneSharesBlocks(st, src.f, src.off, dst.f, dst.off, res.bytes);
    }
  }

  /** What the kernel replies if it means to reply `res`: that, if it is true of the store, or an error. */
  function Reply(cfg: Config, pc: Pc, st: Store, res: DedupeResult): DedupeResult
    requires Wf(st)
  {
    if DoDedupe(cfg, pc, st, res).Some? then res else DedupeErr(Other)
  }

  /** The reply is a step that settles the run, and is true when it is done. */
  ghost predicate IsReply(cfg: Config, pc: Pc, st: Store, a: Act)
    requires Wf(st) && a.Dedupe?
  {
    && Concludes(cfg, pc, st, a, Dedupes(a.res)) && Current(cfg, pc)
    && var t := Do(cfg, st, pc, a).value.store;
       Wf(t) && HoldsOf(t, SrcRange(cfg, pc), DstRange(cfg, pc), a.res)
  }

  lemma StepIsReply(cfg: Config, pc: Pc, st: Store, a: Act, eff: Effect)
    requires Wf(st) && a.Dedupe? && DoDedupe(cfg, pc, st, a.res) == Some(eff)
    ensures IsReply(cfg, pc, st, a)
  {
    DedupeIsStep(cfg, pc, st, a, eff);
    DedupeLogs(cfg, pc, st, a.res);
    ReplyIsTrue(cfg, pc, st, a.res);
  }

  lemma ReplyIsStep(cfg: Config, pc: Pc, st: Store, res: DedupeResult)
    requires Wf(st) && Ready(cfg, pc) && !cfg.opts.Compare()
    ensures IsReply(cfg, pc, st, Dedupe(Reply(cfg, pc, st, res)))
  {
    var r := Reply(cfg, pc, st, res);
    ErrorIsReply(cfg, pc, st, Other);
    StepIsReply(cfg, pc, st, Dedupe(r), DoDedupe(cfg, pc, st, r).value);
  }

  // ---- reading and comparing -------------------------------------------------------------

  /** Worker `me` is still at its run, now in phase `phase`, and counted `added`. */
  ghost predicate Advanced(s: State, t: State, me: nat, phase: Phase, added: Stats) {
    && me < |s.workers| == |t.workers| && t.pending <= s.pending && Grows(s.log, t.log) && s.workers[me].pc.In?
    && t.workers[me] == Thread(s.workers[me].pc.(phase := phase), Add(s.workers[me].stats, added))
  }

  ghost predicate Advances(cfg: Config, pc: Pc, st: Store, a: Act, phase: Phase, added: Stats)
    requires Wf(st)
  {
    && pc.In? && Do(cfg, st, pc, a).Some?
    && var eff := Do(cfg, st, pc, a).value; eff.pc == pc.(phase := phase) && eff.add == added && eff.logged.None?
  }

  lemma AdvancedAfter(cfg: Config, s: State, t: State, me: nat, mine: set<PairKey>, a: Act, phase: Phase, added: Stats)
    requires Wf(t.store) && Waited(s, t, me, mine) && !a.Open?
    requires Advances(cfg, t.workers[me].pc, t.store, a, phase, added)
    ensures Advanced(s, Applied(t, me, a, Do(cfg, t.store, t.workers[me].pc, a).value), me, phase, added)
  {
  }

  lemma SourceRead(cfg: Config, pc: Pc, st: Store, a: Act)
    requires Wf(st) && a.ReadSrc? && Ready(cfg, pc) && cfg.opts.Compare()
    ensures a.failed.Some? ==> Concludes(cfg, pc, st, a, Failed(a.failed.value))
    ensures a.failed.None? && Inside(st, SrcRange(cfg, pc)) ==>
              Advances(cfg, pc, st, a, HaveSrc(Bytes(st, SrcRange(cfg, pc))), CANDIDATE)
  {
    match a
    case ReadSrc(failed) =>
  }

  lemma DestRead(cfg: Config, pc: Pc, st: Store, a: Act)
    requires Wf(st) && a.ReadDst? && Current(cfg, pc) && pc.phase.HaveSrc?
    ensures a.failed.Some? ==> Concludes(cfg, pc, st, a, Failed(a.failed.value))
    ensures a.failed.None? && Inside(st, DstRange(cfg, pc)) ==>
              Advances(cfg, pc, st, a, HaveBoth(pc.phase.bufA, Bytes(st, DstRange(cfg, pc))), ZERO)
  {
    match a
    case ReadDst(failed) =>
  }

  lemma BuffersCompared(cfg: Config, pc: Pc, st: Store, a: Act)
    requires Wf(st) && a.Compare? && Current(cfg, pc) && pc.phase.HaveBoth?
    ensures pc.phase.bufA != pc.phase.bufB ==> Concludes(cfg, pc, st, a, Mismatch)
    ensures pc.phase.bufA == pc.phase.bufB && cfg.opts.dryRun ==>
              Concludes(cfg, pc, st, a, Verified(LenOn(cfg, pc, true)))
    ensures pc.phase.bufA == pc.phase.bufB && !cfg.opts.dryRun ==> Advances(cfg, pc, st, a, Equal, ZERO)
  {
    match a
    case Compare =>
  }

  /** What an advance counted and what the rest of the run counts. */
  lemma AdvancedSettles(s: State, t: State, u: State, me: nat, phase: Phase, a: Stats, o: Outcome, b: Stats)
    requires Advanced(s, t, me, phase, a) && Settles(t, u, me, o, b)
    ensures Settles(s, u, me, o, Add(a, b))
  {
  }

  // ---- opening, skipping, closing ----------------------------------------------------------

  /** Worker `me`, idle before, took pair `k` and opened it, or failed to. */
  ghost predicate TookPair(s: State, t: State, me: nat, k: PairKey, fds: Result<(nat, nat), IoErr>) {
    && me < |s.workers| == |t.workers| && t.pending <= s.pending - {k} && Grows(s.log, t.log) && OpenSlot(k) in t.log
    && match fds
       case Ok(both) =>
         t.workers[me] == Thread(In(k, both.0, both.1, 0, Start), s.workers[me].stats) && t.log[OpenSlot(k)] == Opened
       case Err(e) =>
         t.workers[me] == Thread(Idle, Add(s.workers[me].stats, OfError(e))) && t.log[OpenSlot(k)] == Failed(e)
  }

  lemma OpenIsStep(cfg: Config, st: Store, a: Act)
    requires Wf(st) && a.Open?
    ensures Do(cfg, st, Idle, a).Some? && Do(cfg, st, Idle, a) == DoOpen(Idle, a.k, a.fds, st)
  {
    match a
    case Open(k, fds) =>
  }

  lemma OpenTakes(cfg: Config, s: State, t: State, me: nat, mine: set<PairKey>, a: Act)
    requires Wf(t.store) && Waited(s, t, me, mine) && a.Open? && s.workers[me].pc == Idle && OpenSlot(a.k) !in t.log
    ensures Do(cfg, t.store, Idle, a).Some?
    ensures TookPair(s, Applied(t, me, a, Do(cfg, t.store, Idle, a).value), me, a.k, a.fds)
  {
    OpenIsStep(cfg, t.store, a);
    AddAssociates(s.workers[me].stats, ZERO, ZERO);
  }

  lemma SkipConcludes(cfg: Config, pc: Pc, st: Store, a: Act)
    requires Wf(st) && a.Skip? && Current(cfg, pc) && pc.phase.Start? && !LensOk(cfg, pc)
    ensures Concludes(cfg, pc, st, a, Skipped)
  {
    match a
    case Skip =>
  }

  lemma CloseIsStep(cfg: Config, pc: Pc, st: Store, a: Act)
    requires Wf(st) && a.Close? && pc.In? && pc.k in cfg.plan && pc.i == |cfg.plan[pc.k]| && pc.phase.Start?
    ensures Do(cfg, st, pc, a).Some?
    ensures var eff := Do(cfg, st, pc, a).value;
            eff.pc == Idle && eff.add == ZERO && eff.logged == Some((CloseSlot(pc.k), Closed))
  {
    match a
    case Close =>
  }

  lemma CloseLeaves(cfg: Config, s: State, me: nat, a: Act)
    requires Wf(s.store) && me < |s.workers| && a.Close?
    requires var pc := s.workers[me].pc;
             pc.In? && pc.k in cfg.plan && pc.i == |cfg.plan[pc.k]| && pc.phase.Start?
    ensures Do(cfg, s.store, s.workers[me].pc, a).Some?
    ensures var t := Applied(s, me, a, Do(cfg, s.store, s.workers[me].pc, a).value);
            && t.pending == s.pending && |t.workers| == |s.workers| && CloseSlot(s.workers[me].pc.k) in t.log
            && t.workers[me] == Thread(Idle, s.workers[me].stats)
  {
    CloseIsStep(cfg, s.workers[me].pc, s.store, a);
    AddAssociates(s.workers[me].stats, ZERO, ZERO);
  }

  /** The run a worker is at is not settled yet, and a pair to be taken has not been opened. */
  lemma FreshRun(h: History, s: State, me: nat)
    requires Reaches(h, s) && me < |s.workers| && s.workers[me].pc.In?
    ensures RunSlot(s.workers[me].pc.k, s.workers[me].pc.i) !in s.log
  {
    ReachedIsTidy(h, s);
    assert WorkerOk(h.cfg, s, me);
  }

  lemma FreshPair(h: History, s: State, k: PairKey)
    requires Reaches(h, s) && k in s.pending
    ensures OpenSlot(k) !in s.log
  {
    ReachedIsTidy(h, s);
    assert PairOk(h.cfg, s, k);
  }

  /** A closed pair is over: its open succeeded, and all its runs are settled. */
  lemma ClosedIsOver(p: History, t: State, k: PairKey)
    requires Reaches(p, t) && k in p.cfg.plan && CloseSlot(k) in t.log
    ensures Over(p.cfg, t.log, k)
  {
    ReachedIsTidy(p, t);
    assert PairOk(p.cfg, t, k);
    forall w: nat ensures !HeldBy(t, k, w) {
      assert w < |t.workers| ==> WorkerOk(p.cfg, t, w);
    }
  }

  lemma AddAssociates(a: Stats, b: Stats, c: Stats)
    ensures Add(Add(a, b), c) == Add(a, Add(b, c))
    ensures Add(a, ZERO) == a && Add(ZERO, a) == a
  {
  }

  // ---- waiting for the others --------------------------------------------------------------

  /** Between the steps of a candidate a worker is at a run of the plan. */
  ghost predicate AtRuns(cfg: Config, s: State) {
    forall w :: 0 <= w < |s.workers| && s.workers[w].pc.In? && !s.workers[w].pc.phase.Start? ==>
      Current(cfg, s.workers[w].pc)
  }

  lemma StepStaysAtRuns(cfg: Config, st: Store, pc: Pc, a: Act)
    requires Wf(st) && Do(cfg, st, pc, a).Some?
    ensures var pc' := Do(cfg, st, pc, a).value.pc; pc'.In? && !pc'.phase.Start? ==> Current(cfg, pc')
  {
  }

  lemma {:induction false} RunStaysAtRuns(cfg: Config, s: State, trace: seq<Event>)
    requires Initial(cfg, s) && After(cfg, s, trace).Some?
    ensures AtRuns(cfg, After(cfg, s, trace).value)
  {
    if trace == [] {
    } else {
      var n := |trace| - 1;
      var t, e := After(cfg, s, trace[..n]).value, trace[n];
      RunStaysAtRuns(cfg, s, trace[..n]);
      if e.Work? {
        StepStaysAtRuns(cfg, t.store, t.workers[e.w].pc, e.a);
      }
    }
  }

  ghost predicate HasFiles(cfg: Config) {
    forall k :: k in cfg.plan ==> k.src < |cfg.files| && k.dst < |cfg.files|
  }

  /** A step that is always possible inside a pair: what is left fails. */
  function Halt(cfg: Config, pc: Pc): Act
    requires pc.In?
  {
    if !Current(cfg, pc) then Close
    else match pc.phase
         case Start =>
           if !LensOk(cfg, pc) then Skip
           else if cfg.opts.Compare() then ReadSrc(Some(Other)) else Dedupe(DedupeErr(Other))
         case HaveSrc(_) => ReadDst(Some(Other))
         case HaveBoth(_, _) => Compare
         case Equal => Clone(Some(Other))
  }

  lemma HaltIsStep(cfg: Config, st: Store, pc: Pc)
    requires Wf(st) && HasFiles(cfg) && pc.In? && pc.k in cfg.plan && pc.i <= |cfg.plan[pc.k]|
    requires !pc.phase.Start? ==> Current(cfg, pc)
    ensures Do(cfg, st, pc, Halt(cfg, pc)).Some?
  {
  }

  lemma CanHalt(h: History, t: State, w: nat)
    requires Reaches(h, t) && HasFiles(h.cfg) && w < |t.workers| && t.workers[w].pc.In?
    ensures Next(h.cfg, t, Work(w, Halt(h.cfg, t.workers[w].pc))).Some?
  {
    ReachedIsTidy(h, t);
    RunStaysAtRuns(h.cfg, h.start, h.trace);
    assert WorkerOk(h.cfg, t, w);
    HaltIsStep(h.cfg, t.store, t.workers[w].pc);
  }

  // The system calls of worker `me`. Any call may fail, and before any of them others may do anything.
  class Kernel {
    const cfg: Config
    const me: nat
    var now: State
    var mine: set<PairKey>               // handed to this worker, not yet opened
    ghost const start: State
    ghost var trace: seq<Event>
    ghost var calls: seq<Call>           // this worker's, in order, with their answers

    constructor (cfg: Config, st: Store, n: nat, me: nat)
      requires Wf(st) && me < n
      ensures Valid() && this.cfg == cfg && this.me == me && start == now == Fresh(cfg, st, n)
      ensures trace == [] && mine == {} && calls == []
    {
      this.cfg, this.me, this.now, this.mine := cfg, me, Fresh(cfg, st, n), {};
      this.start, this.trace, this.calls := Fresh(cfg, st, n), [], [];
      new;
      FreshReaches(cfg, st, n);
    }

    ghost predicate Valid()
      reads this
    {
      Reaches(History(cfg, start, trace), now) && me < |now.workers| && mine <= now.pending
    }

    function Place(): Pc
      requires me < |now.workers|
      reads this
    {
      now.workers[me].pc
    }

    method Others()
      requires Valid()
      modifies `now, `trace
      ensures Valid() && Waited(old(now), now, me, mine) && Works(trace) >= old(Works(trace))
    {
      var times: nat := *;
      while times > 0
        invariant Valid() && Waited(old(now), now, me, mine) && Works(trace) >= old(Works(trace))
      {
        var e: Event := *;
        if OfOthers(e, me, mine) {
          Happens(e);
        }
        times := times - 1;
      }
    }

    method Happens(e: Event)
      requires Valid() && OfOthers(e, me, mine)
      modifies `now, `trace
      ensures Valid() && Waited(old(now), now, me, mine) && Works(trace) >= old(Works(trace))
      ensures Next(cfg, old(now), e).Some? && e.Work? ==> Works(trace) > old(Works(trace))
    {
      var t := Next(cfg, now, e);
      if t.Some? {
        ReachesNext(History(cfg, start, trace), now, e, t.value);
        NextGrows(History(cfg, start, trace), now, e);
        OthersStep(cfg, now, e, me, mine);
        OneMoreWork(trace, e);
        now, trace := t.value, trace + [e];
      }
    }

    // A pair is handed to this worker.
    method Hand(k: PairKey)
      requires Valid() && k in now.pending
      modifies `mine
      ensures Valid() && mine == old(mine) + {k}
    {
      mine := mine + {k};
    }

    // Until worker `w` is done.
    method Await(w: nat)
      requires Valid() && now.pending == {} && w < |now.workers| && HasFiles(cfg) && Place() == Idle
      modifies `now, `trace
      ensures Valid() && Waited(old(now), now, me, mine) && now.workers[w].pc.Idle?
    {
      WorksAreBounded(History(cfg, start, trace), now);
      while now.workers[w].pc.In?
        invariant Valid() && Waited(old(now), now, me, mine)
        invariant Works(trace) <= 4 * |Slots(cfg.plan)| + 3 * |now.workers|
        decreases 4 * |Slots(cfg.plan)| + 3 * |now.workers| - Works(trace)
      {
        Others();
        if now.workers[w].pc.Idle? {
          break;
        }
        PushOn(w);
      }
    }

    // Worker `w` takes a step at last.
    method PushOn(w: nat)
      requires Valid() && now.pending == {} && w < |now.workers| && HasFiles(cfg)
      requires Place() == Idle && now.workers[w].pc.In?
      modifies `now, `trace
      ensures Valid() && Waited(old(now), now, me, mine)
      ensures old(Works(trace)) < Works(trace) <= 4 * |Slots(cfg.plan)| + 3 * |now.workers|
    {
      CanHalt(History(cfg, start, trace), now, w);
      Happens(Work(w, Halt(cfg, now.workers[w].pc)));
      WorksAreBounded(History(cfg, start, trace), now);
    }

    // Until everybody is.
    method Join()
      requires Valid() && now.pending == {} && HasFiles(cfg) && Place() == Idle
      modifies `now, `trace
      ensures Valid() && Waited(old(now), now, me, mine) && Finished(now)
    {
      var w := 0;
      while w < |now.workers|
        invariant w <= |now.workers| && Valid() && Waited(old(now), now, me, mine)
        invariant IdleUpTo(now, w)
        decreases |now.workers| - w
      {
        ghost var before := now;
        Await(w);
        OneMoreIdle(before, now, me, mine, w);
        WaitedOn(old(now), before, now, me, mine);
        w := w + 1;
      }
    }

    // This worker's own step.
    method Act(a: Act)
      requires Valid() && Do(cfg, now.store, Place(), a).Some? && (a.Open? ==> a.k in now.pending)
      modifies `now, `trace, `mine
      ensures Valid() && now == Applied(old(now), me, a, Do(cfg, old(now.store), old(Place()), a).value)
      ensures mine == if a.Open? then old(mine) - {a.k} else old(mine)
    {
      var t := Applied(now, me, a, Do(cfg, now.store, Place(), a).value);
      ReachesNext(History(cfg, start, trace), now, Work(me, a), t);
      now, trace := t, trace + [Work(me, a)];
      if a.Open? {
        mine := mine - {a.k};
      }
    }

    // The path may be gone or in use, or lead to another inode than the one hashed.
    method Open(i: nat, write: bool) returns (fd: Result<nat, IoErr>)
      requires Valid()
      modifies `now, `trace, `calls
      ensures Valid() && Waited(old(now), now, me, mine) && calls == old(calls) + [OpenCall(i, write, fd)]
    {
      Others();
      fd := *;
      calls := calls + [OpenCall(i, write, fd)];
    }

    // A read past the end fails as not found.
    method ReadExact(r: Range) returns (data: Result<seq<byte>, IoErr>)
      requires Valid()
      modifies `now, `trace, `calls
      ensures Valid() && Waited(old(now), now, me, mine) && calls == old(calls) + [ReadCall(r, data)]
      ensures data.Ok? ==> Inside(now.store, r) && data.value == Bytes(now.store, r)
    {
      Others();
      var err: Option<IoErr> := *;
      if err.Some? {
        data := Err(err.value);
      } else if !Inside(now.store, r) {
        data := Err(NotFound);
      } else {
        data := Ok(Bytes(now.store, r));
      }
      calls := calls + [ReadCall(r, data)];
    }

    // The step that settles the current run.
    method Conclude(a: Act, ghost s: State, ghost o: Outcome)
      requires Valid() && Waited(s, now, me, mine) && !a.Open?
      requires Concludes(cfg, Place(), now.store, a, o)
      modifies `now, `trace, `mine
      ensures Valid() && mine == old(mine) && now.store == Do(cfg, old(now.store), old(Place()), a).value.store
      ensures var pc := s.workers[me].pc;
              Settles(s, now, me, o,
                      if pc.phase.Start? then Tally(cfg.opts, RunSlot(pc.k, pc.i), o) else Settle(cfg.opts, o))
    {
      ghost var mid := now;
      EffectShape(cfg, now.store, Place(), a);
      FreshRun(History(cfg, start, trace), now, me);
      Act(a);
      SettledAfter(cfg, s, mid, me, mine, a, now.store, o);
    }

    // This worker's pair, with the result of its two opens.
    method Take(k: PairKey, fds: Result<(nat, nat), IoErr>, ghost s: State)
      requires Valid() && Waited(s, now, me, mine) && Place() == Idle && k in mine
      modifies `now, `trace, `mine
      ensures Valid() && mine == old(mine) - {k} && TookPair(s, now, me, k, fds)
    {
      FreshPair(History(cfg, start, trace), now, k);
      OpenTakes(cfg, s, now, me, mine, DedupSteps.Open(k, fds));
      Act(DedupSteps.Open(k, fds));
    }

    method Leave()
      requires Valid() && Place().In? && Place().k in cfg.plan && Place().i == |cfg.plan[Place().k]|
      requires Place().phase.Start?
      modifies `now, `trace, `mine
      ensures Valid() && mine == old(mine) && now.pending == old(now.pending) && |now.workers| == old(|now.workers|)
      ensures now.workers[me] == Thread(Idle, old(now.workers[me].stats)) && Over(cfg, now.log, old(Place()).k)
      ensures Grows(old(now.log), now.log)
    {
      ghost var k := Place().k;
      CloseLeaves(cfg, now, me, Close);
      NextGrows(History(cfg, start, trace), now, Work(me, Close));
      Act(Close);
      ClosedIsOver(History(cfg, start, trace), now, k);
    }

    // No call: the run is passed over.
    method Pass()
      requires Valid() && Current(cfg, Place()) && Place().phase.Start? && !LensOk(cfg, Place())
      modifies `now, `trace, `mine
      ensures Valid() && mine == old(mine) && Settles(old(now), now, me, Skipped, ZERO)
    {
      SkipConcludes(cfg, Place(), now.store, Skip);
      Conclude(Skip, now, Skipped);
    }

    method Advance(a: Act, ghost s: State, ghost phase: Phase, ghost added: Stats)
      requires Valid() && Waited(s, now, me, mine) && !a.Open?
      requires Advances(cfg, Place(), now.store, a, phase, added)
      modifies `now, `trace, `mine
      ensures Valid() && mine == old(mine) && Advanced(s, now, me, phase, added)
    {
      AdvancedAfter(cfg, s, now, me, mine, a, phase, added);
      Act(a);
    }

    // The first read of a candidate.
    method ReadSource(src: Range) returns (data: Result<seq<byte>, IoErr>)
      requires Valid() && Ready(cfg, Place()) && cfg.opts.Compare() && src == SrcRange(cfg, Place())
      modifies `now, `trace, `mine, `calls
      ensures Valid() && mine == old(mine) && calls == old(calls) + [ReadCall(src, data)]
      ensures data.Ok? ==> Advanced(old(now), now, me, HaveSrc(data.value), CANDIDATE)
      ensures data.Err? ==> Settles(old(now), now, me, Failed(data.error),
                                    Tally(cfg.opts, RunSlot(old(Place()).k, old(Place()).i), Failed(data.error)))
    {
      data := ReadExact(src);
      var a := ReadSrc(if data.Ok? then None else Some(data.error));
      SourceRead(cfg, Place(), now.store, a);
      if data.Ok? {
        Advance(a, old(now), HaveSrc(data.value), CANDIDATE);
      } else {
        Conclude(a, old(now), Failed(data.error));
      }
    }

    method ReadDest(dst: Range) returns (data: Result<seq<byte>, IoErr>)
      requires Valid() && Current(cfg, Place()) && Place().phase.HaveSrc? && dst == DstRange(cfg, Place())
      modifies `now, `trace, `mine, `calls
      ensures Valid() && mine == old(mine) && calls == old(calls) + [ReadCall(dst, data)]
      ensures data.Ok? ==> Advanced(old(now), now, me, HaveBoth(old(Place()).phase.bufA, data.value), ZERO)
      ensures data.Err? ==> Settles(old(now), now, me, Failed(data.error), Settle(cfg.opts, Failed(data.error)))
    {
      data := ReadExact(dst);
      var a := ReadDst(if data.Ok? then None else Some(data.error));
      DestRead(cfg, Place(), now.store, a);
      if data.Ok? {
        Advance(a, old(now), HaveBoth(old(Place()).phase.bufA, data.value), ZERO);
      } else {
        Conclude(a, old(now), Failed(data.error));
      }
    }

    // The comparison is the worker's own; it is a step, but no call.
    method Differ()
      requires Valid() && Current(cfg, Place()) && Place().phase.HaveBoth? && Place().phase.bufA != Place().phase.bufB
      modifies `now, `trace, `mine
      ensures Valid() && mine == old(mine) && Settles(old(now), now, me, Mismatch, Settle(cfg.opts, Mismatch))
    {
      BuffersCompared(cfg, Place(), now.store, Compare);
      Conclude(Compare, now, Mismatch);
    }

    method Agree(len: nat)
      requires Valid() && Current(cfg, Place()) && Place().phase.HaveBoth? && Place().phase.bufA == Place().phase.bufB
      requires len == LenOn(cfg, Place(), true)
      modifies `now, `trace, `mine
      ensures Valid() && mine == old(mine)
      ensures if cfg.opts.dryRun then Settles(old(now), now, me, Verified(len), Settle(cfg.opts, Verified(len)))
              else Advanced(old(now), now, me, Equal, ZERO)
    {
      BuffersCompared(cfg, Place(), now.store, Compare);
      if cfg.opts.dryRun {
        Conclude(Compare, now, Verified(len));
      } else {
        Advance(Compare, now, Equal, ZERO);
      }
    }

    // FICLONERANGE shares whatever the source holds by now.
    method CloneRange(src: Range, dst: Range) returns (err: Option<IoErr>)
      requires Valid() && Current(cfg, Place()) && Place().phase.Equal?
      requires src == SrcRange(cfg, Place()) && dst == DstRange(cfg, Place())
      modifies `now, `trace, `mine, `calls
      ensures Valid() && mine == old(mine) && calls == old(calls) + [CloneCall(src, dst, err)]
      ensures Settles(old(now), now, me, Clones(err, src.len), Settle(cfg.opts, Clones(err, src.len)))
    {
      Others();
      err := *;
      if DoClone(cfg, Place(), now.store, err).None? {
        err := Some(Other);
      }
      CloneConcludes(cfg, Place(), now.store, err);
      Conclude(Clone(err), old(now), Clones(err, src.len));
      calls := calls + [CloneCall(src, dst, err)];
    }

    // FIDEDUPERANGE compares and shares in one step, possibly less than asked.
    method DedupeRange(src: Range, dst: Range) returns (res: DedupeResult)
      requires Valid() && Ready(cfg, Place()) && !cfg.opts.Compare()
      requires src == SrcRange(cfg, Place()) && dst == DstRange(cfg, Place())
      modifies `now, `trace, `mine, `calls
      ensures Valid() && mine == old(mine) && calls == old(calls) + [DedupeCall(src, dst, res)]
      ensures HoldsOf(now.store, src, dst, res)
      ensures Settles(old(now), now, me, Dedupes(res),
                      Tally(cfg.opts, RunSlot(old(Place()).k, old(Place()).i), Dedupes(res)))
    {
      Others();
      var meant: DedupeResult := *;
      ReplyIsStep(cfg, Place(), now.store, meant);
      res := Reply(cfg, Place(), now.store, meant);
      Conclude(Dedupe(res), old(now), Dedupes(res));
      calls := calls + [DedupeCall(src, dst, res)];
    }
  }
}
