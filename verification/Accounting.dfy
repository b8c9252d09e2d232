/** The counters of the dedup phase: what is settled once is counted once, on whichever worker it ran. */
module Accounting {
  import opened Base
  import opened DupIndex
  import opened RunPlanner
  import opened PlanFacts
  import opened BlockStore
  import opened DedupSteps

  // ---- sums ----------------------------------------------------------------------

  datatype Counter = Candidates | Verifieds | Cloneds | ByteCount | Mismatches | Busy | Errors

  function Of(s: Stats, c: Counter): nat {
    match c
    case Candidates => s.candidates
    case Verifieds => s.verified
    case Cloneds => s.cloned
    case ByteCount => s.bytes
    case Mismatches => s.mismatches
    case Busy => s.busy
    case Errors => s.errors
  }

  lemma OfAdd(a: Stats, b: Stats, c: Counter)
    ensures Of(Add(a, b), c) == Of(a, c) + Of(b, c)
  {
  }

  lemma SameCounters(a: Stats, b: Stats)
    requires forall c: Counter :: Of(a, c) == Of(b, c)
    ensures a == b
  {
    assert Of(a, Candidates) == Of(b, Candidates) && Of(a, Verifieds) == Of(b, Verifieds);
    assert Of(a, Cloneds) == Of(b, Cloneds) && Of(a, ByteCount) == Of(b, ByteCount);
    assert Of(a, Mismatches) == Of(b, Mismatches) && Of(a, Busy) == Of(b, Busy) && Of(a, Errors) == Of(b, Errors);
  }

  // How the work was split: each task folds its contributions, the results are joined in any shape.
  datatype Split = Default | Fold(task: seq<Stats>) | Join(left: Split, right: Split)

  function FoldAll(task: seq<Stats>): Stats {
    if task == [] then ZERO else Add(FoldAll(task[..|task| - 1]), task[|task| - 1])
  }

  function Reduce(t: Split): Stats {
    match t
    case Default => ZERO
    case Fold(task) => FoldAll(task)
    case Join(a, b) => Add(Reduce(a), Reduce(b))
  }

  function Work(t: Split): multiset<Stats> {
    match t
    case Default => multiset{}
    case Fold(task) => multiset(task)
    case Join(a, b) => Work(a) + Work(b)
  }

  ghost function SumBag(m: multiset<Stats>, c: Counter): nat {
    if m == multiset{} then 0
    else
      var s :| s in m;
      Of(s, c) + SumBag(m - multiset{s}, c)
  }

  lemma BagRemoveTwo(m: multiset<Stats>, s: Stats, t: Stats)
    requires s in m && t in m && s != t
    ensures m - multiset{s} - multiset{t} == m - multiset{t} - multiset{s}
    ensures t in m - multiset{s} && s in m - multiset{t}
    ensures |m - multiset{s}| == |m| - 1 && |m - multiset{t}| == |m| - 1
  {
  }

  lemma {:induction false} SumBagRemove(m: multiset<Stats>, t: Stats, c: Counter)
    requires t in m
    ensures SumBag(m, c) == Of(t, c) + SumBag(m - multiset{t}, c)
    decreases |m|
  {
    var s :| s in m && SumBag(m, c) == Of(s, c) + SumBag(m - multiset{s}, c);
    if s == t {
    } else {
      BagRemoveTwo(m, s, t);
      SumBagRemove(m - multiset{s}, t, c);
      SumBagRemove(m - multiset{t}, s, c);
    }
  }

  lemma {:induction false} SumBagUnion(a: multiset<Stats>, b: multiset<Stats>, c: Counter)
    ensures SumBag(a + b, c) == SumBag(a, c) + SumBag(b, c)
    decreases |a|
  {
    if a == multiset{} {
      assert a + b == b;
    } else {
      var s :| s in a;
      SumBagRemove(a, s, c);
      SumBagRemove(a + b, s, c);
      assert (a + b) - multiset{s} == (a - multiset{s}) + b;
      SumBagUnion(a - multiset{s}, b, c);
    }
  }

  lemma SumBagSnoc(task: seq<Stats>, s: Stats, c: Counter)
    ensures SumBag(multiset(task + [s]), c) == SumBag(multiset(task), c) + Of(s, c)
  {
    SumBagRemove(multiset(task + [s]), s, c);
    assert multiset(task + [s]) - multiset{s} == multiset(task);
  }

  lemma {:induction false} FoldSums(task: seq<Stats>, c: Counter)
    ensures Of(FoldAll(task), c) == SumBag(multiset(task), c)
  {
    if task == [] {
    } else {
      var n := |task| - 1;
      FoldSums(task[..n], c);
      OfAdd(FoldAll(task[..n]), task[n], c);
      assert task == task[..n] + [task[n]];
      SumBagSnoc(task[..n], task[n], c);
    }
  }

  lemma {:induction false} ReduceSums(t: Split, c: Counter)
    ensures Of(Reduce(t), c) == SumBag(Work(t), c)
    decreases t
  {
    match t
    case Default =>
    case Fold(task) => FoldSums(task, c);
    case Join(a, b) =>
      ReduceSums(a, c);
      ReduceSums(b, c);
      OfAdd(Reduce(a), Reduce(b), c);
      SumBagUnion(Work(a), Work(b), c);
  }

  /** With the contributions fixed, every split and every order of joining gives the same totals. */
  lemma ReduceInAnySplit(t: Split, u: Split)
    requires Work(t) == Work(u)
    ensures Reduce(t) == Reduce(u)
  {
    forall c: Counter ensures Of(Reduce(t), c) == Of(Reduce(u), c) {
      ReduceSums(t, c);
      ReduceSums(u, c);
    }
    SameCounters(Reduce(t), Reduce(u));
  }

  /** The sum over the settled slots, in any order. */
  ghost function SumLog(opts: Opts, log: SlotLog, c: Counter): nat {
    if log == map[] then 0
    else
      var s :| s in log;
      Of(Tally(opts, s, log[s]), c) + SumLog(opts, log - {s}, c)
  }

  lemma {:induction false} SumLogRemove(opts: Opts, log: SlotLog, t: Slot, c: Counter)
    requires t in log
    ensures SumLog(opts, log, c) == Of(Tally(opts, t, log[t]), c) + SumLog(opts, log - {t}, c)
    decreases |log|
  {
    var s :| s in log && SumLog(opts, log, c) == Of(Tally(opts, s, log[s]), c) + SumLog(opts, log - {s}, c);
    if s == t {
    } else {
      assert (log - {s}) - {t} == (log - {t}) - {s};
      SumLogRemove(opts, log - {s}, t, c);
      SumLogRemove(opts, log - {t}, s, c);
    }
  }

  lemma SumLogInsert(opts: Opts, log: SlotLog, t: Slot, o: Outcome, c: Counter)
    requires t !in log
    ensures SumLog(opts, log[t := o], c) == Of(Tally(opts, t, o), c) + SumLog(opts, log, c)
  {
    assert log[t := o] - {t} == log;
    SumLogRemove(opts, log[t := o], t, c);
  }

  /** What a worker counted for a run it has not settled yet. */
  function InFlight(pc: Pc, c: Counter): nat {
    if pc.In? && !pc.phase.Start? && c.Candidates? then 1 else 0
  }

  /** The counters of the first `n` workers. */
  ghost function SumStats(ws: seq<Thread>, n: nat, c: Counter): nat
    requires n <= |ws|
  {
    if n == 0 then 0 else SumStats(ws, n - 1, c) + Of(ws[n - 1].stats, c)
  }

  ghost function SumInFlight(ws: seq<Thread>, n: nat, c: Counter): nat
    requires n <= |ws|
  {
    if n == 0 then 0 else SumInFlight(ws, n - 1, c) + InFlight(ws[n - 1].pc, c)
  }

  ghost function Total(ws: seq<Thread>, c: Counter): nat {
    SumStats(ws, |ws|, c)
  }

  /** What the workers hand to the reduction. */
  function Parts(ws: seq<Thread>): (parts: seq<Stats>)
    ensures |parts| == |ws|
  {
    if ws == [] then [] else Parts(ws[..|ws| - 1]) + [ws[|ws| - 1].stats]
  }

  lemma {:induction false} PartsSum(ws: seq<Thread>, c: Counter)
    ensures SumBag(multiset(Parts(ws)), c) == Total(ws, c)
  {
    if ws == [] {
      assert multiset(Parts(ws)) == multiset{};
    } else {
      var n := |ws| - 1;
      PartsSum(ws[..n], c);
      SumsPrefix(ws, n, n, c);
      SumBagRemove(multiset(Parts(ws)), ws[n].stats, c);
      assert multiset(Parts(ws)) - multiset{ws[n].stats} == multiset(Parts(ws[..n]));
    }
  }

  lemma {:induction false} SumsPrefix(ws: seq<Thread>, m: nat, n: nat, c: Counter)
    requires n <= m <= |ws|
    ensures SumStats(ws[..m], n, c) == SumStats(ws, n, c)
  {
    if n == 0 {
    } else {
      SumsPrefix(ws, m, n - 1, c);
    }
  }

  /** However the workers' results are folded and joined, each counter is the workers' total. */
  lemma ReduceIsTotal(t: Split, ws: seq<Thread>, c: Counter)
    requires Work(t) == multiset(Parts(ws))
    ensures Of(Reduce(t), c) == Total(ws, c)
  {
    ReduceSums(t, c);
    PartsSum(ws, c);
  }

  lemma {:induction false} SumsUpdate(ws: seq<Thread>, w: nat, x: Thread, n: nat, c: Counter)
    requires w < |ws| && n <= |ws|
    ensures SumStats(ws[w := x], n, c)
            == SumStats(ws, n, c) + (if w < n then Of(x.stats, c) - Of(ws[w].stats, c) else 0)
    ensures SumInFlight(ws[w := x], n, c)
            == SumInFlight(ws, n, c) + (if w < n then InFlight(x.pc, c) - InFlight(ws[w].pc, c) else 0)
  {
    if n == 0 {
    } else {
      SumsUpdate(ws, w, x, n - 1, c);
    }
  }

  // ---- each pair is worked on by one worker, each slot settled once -----------------

  ghost predicate Untouched(log: SlotLog, k: PairKey) {
    OpenSlot(k) !in log && CloseSlot(k) !in log && forall i: nat :: RunSlot(k, i) !in log
  }

  /** The pair is open and its runs before `i` are settled, no others. */
  ghost predicate UpTo(log: SlotLog, k: PairKey, i: nat) {
    OpenSlot(k) in log && CloseSlot(k) !in log && forall j: nat :: RunSlot(k, j) in log <==> j < i
  }

  /** The pair could not be opened, or all its runs are settled. */
  ghost predicate Over(cfg: Config, log: SlotLog, k: PairKey)
    requires k in cfg.plan
  {
    || (OpenSlot(k) in log && log[OpenSlot(k)].Failed?)
    || (OpenSlot(k) in log && CloseSlot(k) in log && forall j: nat :: j < |cfg.plan[k]| ==> RunSlot(k, j) in log)
  }

  ghost predicate HeldBy(s: State, k: PairKey, w: nat) {
    w < |s.workers| && s.workers[w].pc.In? && s.workers[w].pc.k == k
  }

  ghost predicate WorkerOk(cfg: Config, s: State, w: nat)
    requires w < |s.workers|
  {
    var pc := s.workers[w].pc;
    pc.In? ==>
      && pc.k in cfg.plan && pc.k !in s.pending && pc.i <= |cfg.plan[pc.k]|
      && UpTo(s.log, pc.k, pc.i)
      && forall v :: HeldBy(s, pc.k, v) ==> v == w
  }

  ghost predicate PairOk(cfg: Config, s: State, k: PairKey)
    requires k in cfg.plan
  {
    if k in s.pending then Untouched(s.log, k)
    else (exists w :: HeldBy(s, k, w)) || Over(cfg, s.log, k)
  }

  /** The counters are those of the settled slots plus the candidates in flight. */
  ghost predicate Balanced(cfg: Config, s: State, c: Counter) {
    Total(s.workers, c) == SumLog(cfg.opts, s.log, c) + SumInFlight(s.workers, |s.workers|, c)
  }

  /** Each kind of slot has its outcomes; a verified run in compare mode deduped its whole length. */
  ghost predicate SlotOk(cfg: Config, slot: Slot, o: Outcome) {
    match slot
    case OpenSlot(k) => k in cfg.plan && (o.Opened? || o.Failed?)
    case CloseSlot(k) => k in cfg.plan && o.Closed?
    case RunSlot(k, i) =>
      && HasRun(cfg.plan, k, i) && k.src < |cfg.files|
      && (o.Skipped? || o.Verified? || o.Mismatch? || o.Failed?)
      && (o.Verified? ==>
            var r := cfg.plan[k][i];
            var len := RunLen(cfg.files[k.src].size, r.src.chunk, r.chunks, k.blksz);
            o.bytes <= len && (cfg.opts.Compare() ==> o.bytes == len))
  }

  ghost predicate LogOk(cfg: Config, log: SlotLog) {
    forall slot :: slot in log ==> SlotOk(cfg, slot, log[slot])
  }

  ghost predicate Tidy(cfg: Config, s: State) {
    && s.pending <= cfg.plan.Keys
    && (forall w :: 0 <= w < |s.workers| ==> WorkerOk(cfg, s, w))
    && (forall k :: k in cfg.plan ==> PairOk(cfg, s, k))
    && (forall c: Counter :: Balanced(cfg, s, c))
    && LogOk(cfg, s.log)
  }

  lemma {:induction false} SumOfIdle(ws: seq<Thread>, n: nat, c: Counter)
    requires n <= |ws| && forall w :: 0 <= w < |ws| ==> ws[w].pc == Idle && ws[w].stats == ZERO
    ensures SumStats(ws, n, c) == 0 && SumInFlight(ws, n, c) == 0
  {
    if n == 0 {
    } else {
      SumOfIdle(ws, n - 1, c);
    }
  }

  lemma InitialIsTidy(cfg: Config, s: State)
    requires Initial(cfg, s)
    ensures Tidy(cfg, s)
  {
    forall c: Counter ensures Balanced(cfg, s, c) {
      SumOfIdle(s.workers, |s.workers|, c);
    }
    forall k | k in cfg.plan ensures PairOk(cfg, s, k) {
      assert Untouched(s.log, k);
    }
  }

  ghost function TallyOf(opts: Opts, logged: Option<(Slot, Outcome)>, c: Counter): nat {
    if logged.Some? then Of(Tally(opts, logged.value.0, logged.value.1), c) else 0
  }

  /** What a step adds is what it settles, up to the candidate it has in flight. */
  ghost predicate Counts(cfg: Config, pc: Pc, eff: Effect, c: Counter) {
    Of(eff.add, c) + InFlight(pc, c) == TallyOf(cfg.opts, eff.logged, c) + InFlight(eff.pc, c)
  }

  lemma OfTally(opts: Opts, slot: Slot, o: Outcome, c: Counter)
    requires slot.RunSlot? && !o.Skipped?
    ensures Of(Tally(opts, slot, o), c) == (if c.Candidates? then 1 else 0) + Of(Settle(opts, o), c)
  {
    assert Of(CANDIDATE, c) == if c.Candidates? then 1 else 0;
    OfAdd(CANDIDATE, Settle(opts, o), c);
  }

  lemma SettledCounts(cfg: Config, pc: Pc, st: Store, o: Outcome, c: Counter)
    requires pc.In? && (!pc.phase.Start? ==> !o.Skipped?)
    ensures Counts(cfg, pc, Settled(cfg, pc, st, !pc.phase.Start?, o), c)
  {
    if !pc.phase.Start? {
      OfTally(cfg.opts, RunSlot(pc.k, pc.i), o, c);
    }
  }

  /** A step settles the current run, or advances it, or opens or closes a pair. */
  ghost predicate Shape(cfg: Config, pc: Pc, eff: Effect) {
    match eff.logged
    case None => pc.In? && eff.pc.In? && !eff.pc.phase.Start?
      && eff.add == (if pc.phase.Start? then CANDIDATE else ZERO)
    case Some((RunSlot(_, _), o)) =>
      pc.In? && (!pc.phase.Start? ==> !o.Skipped?) && eff == Settled(cfg, pc, eff.store, !pc.phase.Start?, o)
    case Some((slot, o)) =>
      && (pc.In? ==> pc.phase.Start?) && (eff.pc.In? ==> eff.pc.phase.Start?)
      && eff.add == Tally(cfg.opts, slot, o)
  }

  lemma EffectShape(cfg: Config, st: Store, pc: Pc, a: Act)
    requires Wf(st) && Do(cfg, st, pc, a).Some?
    ensures Shape(cfg, pc, Do(cfg, st, pc, a).value)
  {
  }

  lemma ShapeCounts(cfg: Config, pc: Pc, eff: Effect, c: Counter)
    requires Shape(cfg, pc, eff)
    ensures Counts(cfg, pc, eff, c)
  {
    if eff.logged.Some? && eff.logged.value.0.RunSlot? {
      SettledCounts(cfg, pc, eff.store, eff.logged.value.1, c);
    }
  }

  /** Where a step leads: it opens a pair, settles or advances the current run, or closes the pair. */
  ghost predicate Leads(cfg: Config, pc: Pc, a: Act, eff: Effect) {
    match a
    case Open(k, fds) =>
      && pc.Idle?
      && (if fds.Ok? then
            eff.pc == In(k, fds.value.0, fds.value.1, 0, Start) && eff.logged == Some((OpenSlot(k), Opened))
          else eff.pc.Idle? && eff.logged == Some((OpenSlot(k), Failed(fds.error))))
    case Close =>
      && pc.In? && pc.k in cfg.plan && pc.i == |cfg.plan[pc.k]|
      && eff.pc.Idle? && eff.logged == Some((CloseSlot(pc.k), Closed))
    case _ =>
      && pc.In? && HasRun(cfg.plan, pc.k, pc.i) && eff.pc.In? && eff.pc.k == pc.k
      && (if eff.logged.Some? then eff.logged.value.0 == RunSlot(pc.k, pc.i) && eff.pc.i == pc.i + 1
          else eff.pc.i == pc.i)
  }

  lemma EffectLeads(cfg: Config, st: Store, pc: Pc, a: Act)
    requires Wf(st) && Do(cfg, st, pc, a).Some?
    ensures Leads(cfg, pc, a, Do(cfg, st, pc, a).value)
  {
  }

  lemma EffectSlotOk(cfg: Config, st: Store, pc: Pc, a: Act)
    requires Wf(st) && Do(cfg, st, pc, a).Some? && (a.Open? ==> a.k in cfg.plan)
    ensures var logged := Do(cfg, st, pc, a).value.logged;
            logged.Some? ==> SlotOk(cfg, logged.value.0, logged.value.1)
  {
  }

  lemma StaysBalanced(cfg: Config, s: State, w: nat, a: Act, eff: Effect, c: Counter)
    requires w < |s.workers| && Balanced(cfg, s, c) && Counts(cfg, s.workers[w].pc, eff, c)
    requires eff.logged.Some? ==> eff.logged.value.0 !in s.log
    ensures Balanced(cfg, Applied(s, w, a, eff), c)
  {
    var s' := Applied(s, w, a, eff);
    SumsUpdate(s.workers, w, s'.workers[w], |s.workers|, c);
    OfAdd(s.workers[w].stats, eff.add, c);
    if eff.logged.Some? {
      SumLogInsert(cfg.opts, s.log, eff.logged.value.0, eff.logged.value.1, c);
    }
  }

  // ---- every step keeps the books --------------------------------------------------

  lemma SlotIsFresh(cfg: Config, s: State, w: nat, a: Act, eff: Effect)
    requires Tidy(cfg, s) && w < |s.workers| && Leads(cfg, s.workers[w].pc, a, eff) && (a.Open? ==> a.k in s.pending)
    ensures eff.logged.Some? ==> eff.logged.value.0 !in s.log
  {
    assert WorkerOk(cfg, s, w);
    if a.Open? {
      assert PairOk(cfg, s, a.k);
    }
  }

  /** Once over, a pair stays over. */
  lemma OverStays(cfg: Config, log: SlotLog, k: PairKey, slot: Slot, o: Outcome)
    requires k in cfg.plan && Over(cfg, log, k) && slot !in log
    ensures Over(cfg, log[slot := o], k)
  {
  }

  lemma WorkerStaysOk(cfg: Config, s: State, w: nat, a: Act, eff: Effect, v: nat)
    requires Tidy(cfg, s) && w < |s.workers| && v < |s.workers|
    requires Leads(cfg, s.workers[w].pc, a, eff) && (a.Open? ==> a.k in s.pending)
    ensures WorkerOk(cfg, Applied(s, w, a, eff), v)
  {
    assert WorkerOk(cfg, s, w) && WorkerOk(cfg, s, v);
    var s' := Applied(s, w, a, eff);
    var pc' := s'.workers[v].pc;
    if a.Open? {
      assert PairOk(cfg, s, a.k);
    }
    if pc'.In? {
      assert v != w ==> HeldBy(s, pc'.k, v);
      assert s.workers[w].pc.In? && s.workers[w].pc.k == pc'.k ==> HeldBy(s, pc'.k, w);
      forall u | HeldBy(s', pc'.k, u) ensures u == v {
        assert WorkerOk(cfg, s, u);
        assert u != w ==> HeldBy(s, pc'.k, u);
      }
    }
  }

  lemma PairStaysOk(cfg: Config, s: State, w: nat, a: Act, eff: Effect, k: PairKey)
    requires Tidy(cfg, s) && w < |s.workers| && k in cfg.plan
    requires Leads(cfg, s.workers[w].pc, a, eff) && (a.Open? ==> a.k in s.pending)
    ensures PairOk(cfg, Applied(s, w, a, eff), k)
  {
    assert WorkerOk(cfg, s, w) && PairOk(cfg, s, k);
    SlotIsFresh(cfg, s, w, a, eff);
    var s' := Applied(s, w, a, eff);
    if k !in s'.pending {
      if a.Open? && a.k == k {
        assert eff.pc.In? ==> HeldBy(s', k, w);
      } else if v: nat :| HeldBy(s, k, v) {
        assert v != w || !a.Close? ==> HeldBy(s', k, v);
      } else {
        if eff.logged.Some? {
          OverStays(cfg, s.log, k, eff.logged.value.0, eff.logged.value.1);
        }
      }
    }
  }

  lemma WorkStaysTidy(cfg: Config, s: State, w: nat, a: Act, eff: Effect)
    requires Tidy(cfg, s) && w < |s.workers| && (a.Open? ==> a.k in s.pending)
    requires Leads(cfg, s.workers[w].pc, a, eff) && Shape(cfg, s.workers[w].pc, eff)
    requires eff.logged.Some? ==> SlotOk(cfg, eff.logged.value.0, eff.logged.value.1)
    ensures Tidy(cfg, Applied(s, w, a, eff))
  {
    SlotIsFresh(cfg, s, w, a, eff);
    forall v: nat | v < |s.workers| ensures WorkerOk(cfg, Applied(s, w, a, eff), v) {
      WorkerStaysOk(cfg, s, w, a, eff, v);
    }
    forall k | k in cfg.plan ensures PairOk(cfg, Applied(s, w, a, eff), k) {
      PairStaysOk(cfg, s, w, a, eff, k);
    }
    forall c: Counter ensures Balanced(cfg, Applied(s, w, a, eff), c) {
      ShapeCounts(cfg, s.workers[w].pc, eff, c);
      assert Balanced(cfg, s, c);
      StaysBalanced(cfg, s, w, a, eff, c);
    }
  }

  lemma WriteStaysTidy(cfg: Config, s: State, st: Store)
    requires Tidy(cfg, s)
    ensures Tidy(cfg, s.(store := st))
  {
    var s' := s.(store := st);
    forall v: nat | v < |s.workers| ensures WorkerOk(cfg, s', v) {
      assert WorkerOk(cfg, s, v);
      assert forall k, u :: HeldBy(s', k, u) <==> HeldBy(s, k, u);
    }
    forall k | k in cfg.plan ensures PairOk(cfg, s', k) {
      assert PairOk(cfg, s, k);
      assert forall u :: HeldBy(s', k, u) <==> HeldBy(s, k, u);
    }
    forall c: Counter ensures Balanced(cfg, s', c) {
      assert Balanced(cfg, s, c);
    }
  }

  lemma StepStaysTidy(cfg: Config, s: State, e: Event)
    requires Wf(s.store) && Tidy(cfg, s) && Next(cfg, s, e).Some?
    ensures Tidy(cfg, Next(cfg, s, e).value)
  {
    match e
    case Work(w, a) =>
      var pc := s.workers[w].pc;
      EffectLeads(cfg, s.store, pc, a);
      EffectShape(cfg, s.store, pc, a);
      EffectSlotOk(cfg, s.store, pc, a);
      WorkStaysTidy(cfg, s, w, a, Do(cfg, s.store, pc, a).value);
    case Write(f, g, fd, added) =>
      WriteStaysTidy(cfg, s, Written(s.store, f, fd, added));
  }

  /** Under every schedule, every failure and every writer, in every reachable state. */
  lemma {:induction false} RunStaysTidy(cfg: Config, s: State, trace: seq<Event>)
    requires Initial(cfg, s) && After(cfg, s, trace).Some?
    ensures Tidy(cfg, After(cfg, s, trace).value)
  {
    if trace == [] {
      InitialIsTidy(cfg, s);
    } else {
      var n := |trace| - 1;
      RunStaysTidy(cfg, s, trace[..n]);
      StepStaysTidy(cfg, After(cfg, s, trace[..n]).value, trace[n]);
    }
  }

  // ---- conservation ----------------------------------------------------------------

  datatype Kind = FailedRun | VerifiedRun | MismatchedRun | FailedWith(err: IoErr)

  predicate IsKind(kind: Kind, slot: Slot, o: Outcome) {
    match kind
    case FailedRun => slot.RunSlot? && o.Failed?
    case VerifiedRun => slot.RunSlot? && o.Verified?
    case MismatchedRun => slot.RunSlot? && o.Mismatch?
    case FailedWith(e) => o == Failed(e)
  }

  ghost function SlotsOf(log: SlotLog, kind: Kind): set<Slot> {
    set s | s in log && IsKind(kind, s, log[s])
  }

  lemma OneMoreSlot(all: set<Slot>, rest: set<Slot>, t: Slot, more: bool)
    requires t !in rest && forall s :: s in all <==> s in rest || (s == t && more)
    ensures |all| == |rest| + (if more then 1 else 0)
  {
    assert all == if more then rest + {t} else rest;
  }

  lemma CountRemove(log: SlotLog, t: Slot, kind: Kind)
    requires t in log
    ensures |SlotsOf(log, kind)| == |SlotsOf(log - {t}, kind)| + (if IsKind(kind, t, log[t]) then 1 else 0)
  {
    var all, rest := SlotsOf(log, kind), SlotsOf(log - {t}, kind);
    forall s ensures s in all <==> s in rest || (s == t && IsKind(kind, t, log[t])) {
    }
    OneMoreSlot(all, rest, t, IsKind(kind, t, log[t]));
  }

  /** The bytes of the destination chunks of the verified runs. */
  ghost function VerifiedChunkBytes(cfg: Config, log: SlotLog): nat {
    if log == map[] then 0
    else
      var s :| s in log;
      SlotChunkBytes(cfg, s, log[s]) + VerifiedChunkBytes(cfg, log - {s})
  }

  ghost function SlotChunkBytes(cfg: Config, slot: Slot, o: Outcome): nat {
    if slot.RunSlot? && o.Verified? && HasRun(cfg.plan, slot.k, slot.i) && slot.k.dst < |cfg.files| then
      var r := cfg.plan[slot.k][slot.i];
      SumLens(cfg.files[slot.k.dst].size, r.dst.chunk, r.chunks, slot.k.blksz)
    else 0
  }

  /** What counter `c` counts. */
  function Expected(opts: Opts, slot: Slot, o: Outcome, c: Counter): nat {
    match c
    case Candidates =>
      if IsKind(VerifiedRun, slot, o) || IsKind(MismatchedRun, slot, o) || IsKind(FailedRun, slot, o) then 1 else 0
    case Verifieds => if IsKind(VerifiedRun, slot, o) then 1 else 0
    case Cloneds => if IsKind(VerifiedRun, slot, o) && !opts.dryRun then 1 else 0
    case ByteCount => if o.Verified? then o.bytes else 0
    case Mismatches => if IsKind(MismatchedRun, slot, o) then 1 else 0
    case Busy => if IsKind(FailedWith(InUse), slot, o) then 1 else 0
    case Errors => if IsKind(FailedWith(Other), slot, o) then 1 else 0
  }

  lemma OfSettle(opts: Opts, slot: Slot, o: Outcome, c: Counter)
    requires slot.RunSlot? && (o.Verified? || o.Mismatch? || o.Failed?)
    ensures Of(Settle(opts, o), c) == Expected(opts, slot, o, c) - Of(CANDIDATE, c)
  {
    match o
    case Verified(_) =>
    case Mismatch =>
    case Failed(e) =>
      match e
      case NotFound =>
      case InUse =>
      case Other =>
  }

  lemma OneSlot(cfg: Config, slot: Slot, o: Outcome, c: Counter)
    requires SlotOk(cfg, slot, o)
    ensures Of(Tally(cfg.opts, slot, o), c) == Expected(cfg.opts, slot, o, c)
  {
    if slot.RunSlot? && !o.Skipped? {
      OfSettle(cfg.opts, slot, o, c);
      OfAdd(CANDIDATE, Settle(cfg.opts, o), c);
    }
  }

  ghost function ExpectedSum(opts: Opts, log: SlotLog, c: Counter): int {
    var verified := |SlotsOf(log, VerifiedRun)|;
    match c
    case Candidates => verified + |SlotsOf(log, MismatchedRun)| + |SlotsOf(log, FailedRun)|
    case Verifieds => verified
    case Cloneds => if opts.dryRun then 0 else verified
    case ByteCount => SumLog(opts, log, c)
    case Mismatches => |SlotsOf(log, MismatchedRun)|
    case Busy => |SlotsOf(log, FailedWith(InUse))|
    case Errors => |SlotsOf(log, FailedWith(Other))|
  }

  lemma ExpectedStep(opts: Opts, log: SlotLog, t: Slot, c: Counter)
    requires t in log && !c.ByteCount?
    ensures ExpectedSum(opts, log, c) == ExpectedSum(opts, log - {t}, c) + Expected(opts, t, log[t], c)
  {
    CountRemove(log, t, VerifiedRun);
    CountRemove(log, t, MismatchedRun);
    CountRemove(log, t, FailedRun);
    CountRemove(log, t, FailedWith(InUse));
    CountRemove(log, t, FailedWith(Other));
  }

  lemma {:induction false} CountersAreCounts(cfg: Config, log: SlotLog, c: Counter)
    requires LogOk(cfg, log)
    ensures SumLog(cfg.opts, log, c) == ExpectedSum(cfg.opts, log, c)
    decreases |log|
  {
    if c.ByteCount? {
    } else if log == map[] {
      forall kind ensures SlotsOf(log, kind) == {} {
      }
    } else {
      var s :| s in log;
      CountersAreCounts(cfg, log - {s}, c);
      SumLogRemove(cfg.opts, log, s, c);
      assert SlotOk(cfg, s, log[s]);
      OneSlot(cfg, s, log[s], c);
      ExpectedStep(cfg.opts, log, s, c);
    }
  }

  lemma VerifiedRunBytes(cfg: Config, idx: Index, k: PairKey, i: nat, o: Outcome)
    requires SlotOk(cfg, RunSlot(k, i), o) && o.Verified? && cfg.opts.Compare()
    requires Grouped(idx, cfg.files) && IsPlan(cfg.plan, idx, cfg.files)
    ensures o.bytes == SlotChunkBytes(cfg, RunSlot(k, i), o)
  {
    RunLensAgree(cfg.plan, idx, cfg.files, k, i);
  }

  lemma OneSlotBytes(cfg: Config, slot: Slot, o: Outcome)
    requires SlotOk(cfg, slot, o)
    requires slot.RunSlot? && o.Verified? ==> o.bytes == SlotChunkBytes(cfg, slot, o)
    ensures Of(Tally(cfg.opts, slot, o), ByteCount) == SlotChunkBytes(cfg, slot, o)
  {
    OneSlot(cfg, slot, o, ByteCount);
  }

  lemma {:induction false} BytesAreChunkBytes(cfg: Config, idx: Index, log: SlotLog)
    requires LogOk(cfg, log) && cfg.opts.Compare()
    requires Grouped(idx, cfg.files) && IsPlan(cfg.plan, idx, cfg.files)
    ensures SumLog(cfg.opts, log, ByteCount) == VerifiedChunkBytes(cfg, log)
    decreases |log|
  {
    if log == map[] {
    } else {
      var s :| s in log && VerifiedChunkBytes(cfg, log)
        == SlotChunkBytes(cfg, s, log[s]) + VerifiedChunkBytes(cfg, log - {s});
      BytesAreChunkBytes(cfg, idx, log - {s});
      SumLogRemove(cfg.opts, log, s, ByteCount);
      if s.RunSlot? && log[s].Verified? {
        VerifiedRunBytes(cfg, idx, s.k, s.i, log[s]);
      }
      OneSlotBytes(cfg, s, log[s]);
    }
  }

  function BytesOf(slot: Slot, o: Outcome): nat {
    if slot.RunSlot? && o.Verified? then o.bytes else 0
  }

  /** What the verified runs were verified for. */
  ghost function VerifiedBytes(log: SlotLog): nat {
    if log == map[] then 0
    else
      var s :| s in log;
      BytesOf(s, log[s]) + VerifiedBytes(log - {s})
  }

  lemma VerifiedIsRun(cfg: Config, slot: Slot, o: Outcome)
    requires SlotOk(cfg, slot, o)
    ensures Expected(cfg.opts, slot, o, ByteCount) == BytesOf(slot, o)
  {
    match slot
    case OpenSlot(k) =>
    case CloseSlot(k) =>
    case RunSlot(k, i) =>
  }

  lemma {:induction false} BytesAreVerified(cfg: Config, log: SlotLog)
    requires LogOk(cfg, log)
    ensures SumLog(cfg.opts, log, ByteCount) == VerifiedBytes(log)
    decreases |log|
  {
    if log == map[] {
    } else {
      var s :| s in log && VerifiedBytes(log) == BytesOf(s, log[s]) + VerifiedBytes(log - {s});
      BytesAreVerified(cfg, log - {s});
      SumLogRemove(cfg.opts, log, s, ByteCount);
      assert SlotOk(cfg, s, log[s]);
      OneSlot(cfg, s, log[s], ByteCount);
      VerifiedIsRun(cfg, s, log[s]);
    }
  }

  ghost predicate Finished(s: State) {
    s.pending == {} && forall w :: 0 <= w < |s.workers| ==> s.workers[w].pc.Idle?
  }

  lemma {:induction false} NothingInFlight(ws: seq<Thread>, n: nat, c: Counter)
    requires n <= |ws| && forall w :: 0 <= w < |ws| ==> ws[w].pc.Idle?
    ensures SumInFlight(ws, n, c) == 0
  {
    if n == 0 {
    } else {
      NothingInFlight(ws, n - 1, c);
    }
  }

  /** When the phase ends every pair is over, and the workers' counters add up to those of the settled slots. */
  lemma EndTotals(cfg: Config, s: State, trace: seq<Event>, c: Counter)
    requires Initial(cfg, s) && After(cfg, s, trace).Some? && Finished(After(cfg, s, trace).value)
    ensures var t := After(cfg, s, trace).value;
            && LogOk(cfg, t.log) && (forall k :: k in cfg.plan ==> Over(cfg, t.log, k))
            && Total(t.workers, c) == SumLog(cfg.opts, t.log, c)
  {
    var t := After(cfg, s, trace).value;
    RunStaysTidy(cfg, s, trace);
    forall k | k in cfg.plan ensures Over(cfg, t.log, k) {
      assert PairOk(cfg, t, k);
    }
    assert Balanced(cfg, t, c);
    NothingInFlight(t.workers, |t.workers|, c);
  }

  /**
   * When the phase ends, under any schedule, failures and writers, each counter is the number of the runs settled
   * that way, and every candidate was verified, mismatched, or failed; in a dry run nothing counts as cloned.
   */
  lemma StatsConserve(cfg: Config, s: State, trace: seq<Event>)
    requires Initial(cfg, s) && After(cfg, s, trace).Some? && Finished(After(cfg, s, trace).value)
    ensures var t := After(cfg, s, trace).value;
            && Total(t.workers, Candidates)
               == Total(t.workers, Verifieds) + Total(t.workers, Mismatches) + |SlotsOf(t.log, FailedRun)|
            && Total(t.workers, Verifieds) == |SlotsOf(t.log, VerifiedRun)|
            && Total(t.workers, Cloneds) == (if cfg.opts.dryRun then 0 else Total(t.workers, Verifieds))
            && Total(t.workers, Mismatches) == |SlotsOf(t.log, MismatchedRun)|
            && Total(t.workers, Busy) == |SlotsOf(t.log, FailedWith(InUse))|
            && Total(t.workers, Errors) == |SlotsOf(t.log, FailedWith(Other))|
  {
    var t := After(cfg, s, trace).value;
    forall c: Counter ensures Total(t.workers, c) == ExpectedSum(cfg.opts, t.log, c) {
      EndTotals(cfg, s, trace, c);
      CountersAreCounts(cfg, t.log, c);
    }
  }

  /** In every mode the byte counter is the sum of what the runs were verified for, short dedupes included. */
  lemma BytesAddUp(cfg: Config, s: State, trace: seq<Event>)
    requires Initial(cfg, s) && After(cfg, s, trace).Some? && Finished(After(cfg, s, trace).value)
    ensures var t := After(cfg, s, trace).value; Total(t.workers, ByteCount) == VerifiedBytes(t.log)
  {
    EndTotals(cfg, s, trace, ByteCount);
    BytesAreVerified(cfg, After(cfg, s, trace).value.log);
  }

  /** In compare mode the byte counter is the sum of the chunk lengths over the destinations of verified runs. */
  lemma BytesConserve(cfg: Config, idx: Index, s: State, trace: seq<Event>)
    requires Initial(cfg, s) && After(cfg, s, trace).Some? && Finished(After(cfg, s, trace).value)
    requires cfg.opts.Compare() && Grouped(idx, cfg.files) && IsPlan(cfg.plan, idx, cfg.files)
    ensures var t := After(cfg, s, trace).value; Total(t.workers, ByteCount) == VerifiedChunkBytes(cfg, t.log)
  {
    var t := After(cfg, s, trace).value;
    RunStaysTidy(cfg, s, trace);
    assert Balanced(cfg, t, ByteCount);
    NothingInFlight(t.workers, |t.workers|, ByteCount);
    BytesAreChunkBytes(cfg, idx, t.log);
  }

  // ---- termination -----------------------------------------------------------------

  ghost function Slots(plan: Pairs): set<Slot> {
    (set k | k in plan :: OpenSlot(k)) + (set k | k in plan :: CloseSlot(k))
    + (set k, i: nat | k in plan && i < |plan[k]| :: RunSlot(k, i))
  }

  function Works(trace: seq<Event>): nat {
    if trace == [] then 0 else Works(trace[..|trace| - 1]) + (if trace[|trace| - 1].Work? then 1 else 0)
  }

  /** How far a worker is inside its current run. */
  function Rank(pc: Pc): nat {
    if pc.Idle? then 0
    else match pc.phase
         case Start => 0
         case HaveSrc(_) => 1
         case HaveBoth(_, _) => 2
         case Equal => 3
  }

  ghost function SumRanks(ws: seq<Thread>, n: nat): (r: nat)
    requires n <= |ws|
    ensures r <= 3 * n
  {
    if n == 0 then 0 else SumRanks(ws, n - 1) + Rank(ws[n - 1].pc)
  }

  lemma {:induction false} SumRanksUpdate(ws: seq<Thread>, w: nat, x: Thread, n: nat)
    requires w < |ws| && n <= |ws|
    ensures SumRanks(ws[w := x], n) == SumRanks(ws, n) + (if w < n then Rank(x.pc) - Rank(ws[w].pc) else 0)
  {
    if n == 0 {
    } else {
      SumRanksUpdate(ws, w, x, n - 1);
    }
  }

  lemma EffectAdvances(cfg: Config, st: Store, pc: Pc, a: Act)
    requires Wf(st) && Do(cfg, st, pc, a).Some?
    ensures var eff := Do(cfg, st, pc, a).value;
            Rank(eff.pc) == if eff.logged.Some? then 0 else Rank(pc) + 1
  {
  }

  lemma StepAdvances(cfg: Config, s: State, e: Event)
    requires Wf(s.store) && Tidy(cfg, s) && Next(cfg, s, e).Some?
    ensures var t := Next(cfg, s, e).value;
            && |t.workers| == |s.workers|
            && 4 * |t.log| + SumRanks(t.workers, |t.workers|)
               >= 4 * |s.log| + SumRanks(s.workers, |s.workers|) + (if e.Work? then 1 else 0)
  {
    if e.Work? {
      var pc := s.workers[e.w].pc;
      var eff := Do(cfg, s.store, pc, e.a).value;
      EffectLeads(cfg, s.store, pc, e.a);
      EffectAdvances(cfg, s.store, pc, e.a);
      SlotIsFresh(cfg, s, e.w, e.a, eff);
      SumRanksUpdate(s.workers, e.w, Thread(eff.pc, Add(s.workers[e.w].stats, eff.add)), |s.workers|);
      if eff.logged.Some? {
        assert s.log[eff.logged.value.0 := eff.logged.value.1].Keys == s.log.Keys + {eff.logged.value.0};
      }
    }
  }

  lemma {:induction false} RunAdvances(cfg: Config, s: State, trace: seq<Event>)
    requires Initial(cfg, s) && After(cfg, s, trace).Some?
    ensures var t := After(cfg, s, trace).value;
            |t.workers| == |s.workers| && Works(trace) <= 4 * |t.log| + SumRanks(t.workers, |t.workers|)
  {
    if trace == [] {
    } else {
      var n := |trace| - 1;
      RunAdvances(cfg, s, trace[..n]);
      RunStaysTidy(cfg, s, trace[..n]);
      StepAdvances(cfg, After(cfg, s, trace[..n]).value, trace[n]);
    }
  }

  lemma {:induction false} SubsetSize<T>(a: set<T>, b: set<T>)
    requires a <= b
    ensures |a| <= |b|
    decreases |a|
  {
    if x :| x in a {
      SubsetSize(a - {x}, b - {x});
    }
  }

  /** The phase terminates: under any schedule, failures and writers, the workers take boundedly many steps. */
  lemma RunIsBounded(cfg: Config, s: State, trace: seq<Event>)
    requires Initial(cfg, s) && After(cfg, s, trace).Some?
    ensures Works(trace) <= 4 * |Slots(cfg.plan)| + 3 * |s.workers|
  {
    var t := After(cfg, s, trace).value;
    RunAdvances(cfg, s, trace);
    RunStaysTidy(cfg, s, trace);
    forall slot | slot in t.log ensures slot in Slots(cfg.plan) {
      assert SlotOk(cfg, slot, t.log[slot]);
    }
    SubsetSize(t.log.Keys, Slots(cfg.plan));
  }
}
