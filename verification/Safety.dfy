/** No run of the dedup phase changes what any reader sees, except by what other processes wrote. */
module Safety {
  import opened Base
  import opened BlockStore
  import opened DedupSteps

  type Seen = map<nat, seq<byte>>

  /** The writes of a trace alone, every dedup step erased. */
  ghost function Replay(view: Seen, trace: seq<Event>): Seen {
    if trace == [] then view
    else
      var before, e := Replay(view, trace[..|trace| - 1]), trace[|trace| - 1];
      if e.Write? then before[e.f := e.g(ContentsOf(before, e.f))] else before
  }

  ghost predicate NoWrites(trace: seq<Event>) {
    forall i :: 0 <= i < |trace| ==> trace[i].Work?
  }

  ghost predicate InView(view: Seen, r: Range) {
    r.f in view && r.off + r.len <= |view[r.f]|
  }

  ghost function Slice(view: Seen, r: Range): seq<byte>
    requires InView(view, r)
  {
    view[r.f][r.off..r.off + r.len]
  }

  /** What a worker holds in its buffers is still what readers see; nothing of that is needed in a dry run. */
  ghost predicate Faithful(cfg: Config, pc: Pc, view: Seen) {
    pc.In? && !pc.phase.Start? ==>
      && cfg.opts.Compare() && Current(cfg, pc)
      && (cfg.opts.dryRun ==> !pc.phase.Equal?)
      && (!cfg.opts.dryRun ==>
            var src, dst := SrcRange(cfg, pc), DstRange(cfg, pc);
            && InView(view, src)
            && (pc.phase.HaveSrc? ==> pc.phase.bufA == Slice(view, src))
            && (pc.phase.HaveBoth? ==>
                  InView(view, dst) && pc.phase.bufA == Slice(view, src) && pc.phase.bufB == Slice(view, dst))
            && (pc.phase.Equal? ==> InView(view, dst) && Slice(view, src) == Slice(view, dst)))
  }

  ghost predicate Safe(cfg: Config, s: State) {
    Wf(s.store) && forall w :: 0 <= w < |s.workers| ==> Faithful(cfg, s.workers[w].pc, View(s.store))
  }

  lemma ShareEqualBytes(st: Store, a: Range, b: Range, len: nat)
    requires Wf(st) && CanClone(st, a.f, a.off, b.f, b.off, len)
    requires View(st)[a.f][a.off..a.off + len] == View(st)[b.f][b.off..b.off + len]
    ensures Wf(Shared(st, a, b, len)) && View(Shared(st, a, b, len)) == View(st)
  {
    SharedIsWf(st, a, b, len);
    ClonePreservesView(st, a.f, a.off, b.f, b.off, len);
  }

  lemma DedupeKeepsContents(cfg: Config, st: Store, pc: Pc, res: DedupeResult)
    requires Wf(st) && DoDedupe(cfg, pc, st, res).Some?
    ensures var eff := DoDedupe(cfg, pc, st, res).value;
            Wf(eff.store) && View(eff.store) == View(st) && Faithful(cfg, eff.pc, View(st))
  {
    if res.Same? {
      ShareEqualBytes(st, SrcRange(cfg, pc), DstRange(cfg, pc), res.bytes);
    }
  }

  lemma CloneKeepsContents(cfg: Config, st: Store, pc: Pc, failed: Option<IoErr>)
    requires Wf(st) && Faithful(cfg, pc, View(st)) && DoClone(cfg, pc, st, failed).Some?
    ensures var eff := DoClone(cfg, pc, st, failed).value;
            Wf(eff.store) && View(eff.store) == View(st) && Faithful(cfg, eff.pc, View(st))
  {
    if failed.None? {
      ShareEqualBytes(st, SrcRange(cfg, pc), DstRange(cfg, pc), LenOn(cfg, pc, true));
    }
  }

  lemma ReadsStayFaithful(cfg: Config, st: Store, pc: Pc, a: Act)
    requires Wf(st) && Faithful(cfg, pc, View(st)) && Do(cfg, st, pc, a).Some?
    requires a.ReadSrc? || a.ReadDst? || a.Compare?
    ensures var eff := Do(cfg, st, pc, a).value; eff.store == st && Faithful(cfg, eff.pc, View(st))
  {
  }

  /** A worker's step keeps every file's bytes, and its own buffers faithful. */
  lemma WorkKeepsContents(cfg: Config, st: Store, pc: Pc, a: Act)
    requires Wf(st) && Faithful(cfg, pc, View(st)) && Do(cfg, st, pc, a).Some?
    ensures var eff := Do(cfg, st, pc, a).value;
            Wf(eff.store) && View(eff.store) == View(st) && Faithful(cfg, eff.pc, View(st))
  {
    if a.Dedupe? {
      DedupeKeepsContents(cfg, st, pc, a.res);
    } else if a.Clone? {
      CloneKeepsContents(cfg, st, pc, a.failed);
    } else if a.ReadSrc? || a.ReadDst? || a.Compare? {
      ReadsStayFaithful(cfg, st, pc, a);
    }
  }

  /** No worker between its reads and its clone has `f` open. */
  ghost predicate Quiet(s: State, f: nat) {
    forall w :: 0 <= w < |s.workers| ==> NotUsing(s.workers[w].pc, f)
  }

  predicate NotUsing(pc: Pc, f: nat) {
    pc.In? && !pc.phase.Start? ==> pc.sf != f && pc.df != f
  }

  ghost predicate QuietEvent(cfg: Config, s: State, e: Event) {
    e.Write? ==> cfg.opts.dryRun || Quiet(s, e.f)
  }

  /** Every write of the trace finds its file quiet. */
  ghost predicate QuietRun(cfg: Config, s: State, trace: seq<Event>)
    requires Wf(s.store)
  {
    trace == []
    || (var n := |trace| - 1;
        && QuietRun(cfg, s, trace[..n])
        && (After(cfg, s, trace[..n]).Some? ==> QuietEvent(cfg, After(cfg, s, trace[..n]).value, trace[n])))
  }

  /** A write to a file that is not in use leaves every buffer as good as it was. */
  lemma QuietWriteStaysFaithful(cfg: Config, pc: Pc, view: Seen, f: nat, bytes: seq<byte>)
    requires Faithful(cfg, pc, view) && (cfg.opts.dryRun || NotUsing(pc, f))
    ensures Faithful(cfg, pc, view[f := bytes])
  {
  }

  lemma StepKeepsContents(cfg: Config, s: State, e: Event)
    requires Safe(cfg, s) && Next(cfg, s, e).Some? && QuietEvent(cfg, s, e)
    ensures Safe(cfg, Next(cfg, s, e).value)
    ensures View(Next(cfg, s, e).value.store)
            == if e.Write? then View(s.store)[e.f := e.g(ContentsOf(View(s.store), e.f))] else View(s.store)
  {
    match e
    case Work(w, a) =>
      WorkKeepsContents(cfg, s.store, s.workers[w].pc, a);
    case Write(f, g, fd, added) =>
      WriteView(s.store, f, fd, added);
      forall w | 0 <= w < |s.workers|
        ensures Faithful(cfg, s.workers[w].pc, View(s.store)[f := g(ContentsOf(View(s.store), f))])
      {
        QuietWriteStaysFaithful(cfg, s.workers[w].pc, View(s.store), f, g(ContentsOf(View(s.store), f)));
      }
  }

  lemma {:induction false} RunKeepsContents(cfg: Config, s: State, trace: seq<Event>)
    requires Safe(cfg, s) && After(cfg, s, trace).Some? && QuietRun(cfg, s, trace)
    ensures Safe(cfg, After(cfg, s, trace).value)
    ensures View(After(cfg, s, trace).value.store) == Replay(View(s.store), trace)
  {
    if trace == [] {
    } else {
      var n := |trace| - 1;
      RunKeepsContents(cfg, s, trace[..n]);
      StepKeepsContents(cfg, After(cfg, s, trace[..n]).value, trace[n]);
    }
  }

  lemma InitialIsSafe(cfg: Config, s: State)
    requires Initial(cfg, s)
    ensures Safe(cfg, s)
  {
  }

  /**
   * What a writer must avoid: if every write to a file happens while no worker between its reads and its clone has
   * that file open, every state has the contents the writes alone would have produced, in every mode.
   */
  lemma QuietWritesAreKept(cfg: Config, s: State, trace: seq<Event>)
    requires Initial(cfg, s) && After(cfg, s, trace).Some? && QuietRun(cfg, s, trace)
    ensures View(After(cfg, s, trace).value.store) == Replay(View(s.store), trace)
  {
    InitialIsSafe(cfg, s);
    RunKeepsContents(cfg, s, trace);
  }

  // ---- runs that are quiet ---------------------------------------------------------------

  /** With FIDEDUPERANGE no worker is ever between a read and a clone, and a dry run does not clone. */
  lemma {:induction false} AtomicIsQuiet(cfg: Config, s: State, trace: seq<Event>)
    requires Safe(cfg, s) && After(cfg, s, trace).Some? && (cfg.opts.dryRun || !cfg.opts.Compare())
    ensures QuietRun(cfg, s, trace)
  {
    if trace == [] {
    } else {
      var n := |trace| - 1;
      AtomicIsQuiet(cfg, s, trace[..n]);
      RunKeepsContents(cfg, s, trace[..n]);
    }
  }

  lemma {:induction false} NoWritesIsQuiet(cfg: Config, s: State, trace: seq<Event>)
    requires Wf(s.store) && NoWrites(trace)
    ensures QuietRun(cfg, s, trace)
  {
    if trace == [] {
    } else {
      NoWritesIsQuiet(cfg, s, trace[..|trace| - 1]);
    }
  }

  /** The workers open only files of `used`, the other processes write only others. */
  ghost predicate KeptApart(trace: seq<Event>, used: set<nat>) {
    forall i :: 0 <= i < |trace| ==> EventApart(trace[i], used)
  }

  predicate EventApart(e: Event, used: set<nat>) {
    match e
    case Write(f, _, _, _) => f !in used
    case Work(_, Open(_, Ok(fds))) => fds.0 in used && fds.1 in used
    case _ => true
  }

  ghost predicate UsingOnly(s: State, used: set<nat>) {
    forall w :: 0 <= w < |s.workers| ==> PcUsingOnly(s.workers[w].pc, used)
  }

  predicate PcUsingOnly(pc: Pc, used: set<nat>) {
    pc.In? ==> pc.sf in used && pc.df in used
  }

  lemma StepUsesOnly(cfg: Config, s: State, e: Event, used: set<nat>)
    requires Wf(s.store) && UsingOnly(s, used) && EventApart(e, used) && Next(cfg, s, e).Some?
    ensures UsingOnly(Next(cfg, s, e).value, used)
  {
  }

  lemma {:induction false} ApartIsQuiet(cfg: Config, s: State, trace: seq<Event>, used: set<nat>)
    requires Wf(s.store) && UsingOnly(s, used) && KeptApart(trace, used) && After(cfg, s, trace).Some?
    ensures QuietRun(cfg, s, trace) && UsingOnly(After(cfg, s, trace).value, used)
  {
    if trace == [] {
    } else {
      var n := |trace| - 1;
      ApartIsQuiet(cfg, s, trace[..n], used);
      var t := After(cfg, s, trace[..n]).value;
      forall w | 0 <= w < |t.workers| && trace[n].Write? ensures NotUsing(t.workers[w].pc, trace[n].f) {
        assert PcUsingOnly(t.workers[w].pc, used) && EventApart(trace[n], used);
      }
      StepUsesOnly(cfg, t, trace[n], used);
    }
  }

  /** The fallback is safe, at every point, while nothing writes to the files it opens; others may be written freely. */
  lemma {:induction false} UnscannedWritesAreKept(cfg: Config, s: State, trace: seq<Event>, used: set<nat>)
    requires Initial(cfg, s) && KeptApart(trace, used) && After(cfg, s, trace).Some?
    ensures View(After(cfg, s, trace).value.store) == Replay(View(s.store), trace)
  {
    ApartIsQuiet(cfg, s, trace, used);
    QuietWritesAreKept(cfg, s, trace);
  }

  /**
   * With FIDEDUPERANGE, any number of workers interleaved with arbitrary writers: every state has the contents
   * the writers alone would have produced, whatever the plan, the hashes, and however little the kernel dedupes.
   */
  lemma {:induction false} AtomicDedupeIsInvisible(cfg: Config, s: State, trace: seq<Event>)
    requires Initial(cfg, s) && !cfg.opts.Compare() && After(cfg, s, trace).Some?
    ensures View(After(cfg, s, trace).value.store) == Replay(View(s.store), trace)
  {
    InitialIsSafe(cfg, s);
    AtomicIsQuiet(cfg, s, trace);
    QuietWritesAreKept(cfg, s, trace);
  }

  /**
   * In the userspace fallback without writers every reachable state has the initial contents, although other
   * workers clone between a worker's reads and its own clone.
   */
  lemma {:induction false} FallbackKeepsContents(cfg: Config, s: State, trace: seq<Event>)
    requires Initial(cfg, s) && NoWrites(trace) && After(cfg, s, trace).Some?
    ensures View(After(cfg, s, trace).value.store) == View(s.store)
  {
    NoWritesIsQuiet(cfg, s, trace);
    QuietWritesAreKept(cfg, s, trace);
    NothingReplayed(View(s.store), trace);
  }

  lemma {:induction false} NothingReplayed(view: Seen, trace: seq<Event>)
    requires NoWrites(trace)
    ensures Replay(view, trace) == view
  {
    if trace == [] {
    } else {
      NothingReplayed(view, trace[..|trace| - 1]);
    }
  }

  /** The block pointers the writes of a trace leave. */
  ghost function WrittenOnly(st: Store, trace: seq<Event>): Store {
    if trace == [] then st
    else
      var before, e := WrittenOnly(st, trace[..|trace| - 1]), trace[|trace| - 1];
      if e.Write? then Written(before, e.f, e.fd, e.added) else before
  }

  lemma DryStep(cfg: Config, s: State, e: Event)
    requires Safe(cfg, s) && cfg.opts.dryRun && Next(cfg, s, e).Some?
    ensures Next(cfg, s, e).value.store == if e.Write? then Written(s.store, e.f, e.fd, e.added) else s.store
  {
  }

  /** A dry run redirects no block pointer, under any writers. */
  lemma {:induction false} DryRunChangesNothing(cfg: Config, s: State, trace: seq<Event>)
    requires Safe(cfg, s) && cfg.opts.dryRun && After(cfg, s, trace).Some?
    ensures After(cfg, s, trace).value.store == WrittenOnly(s.store, trace)
    ensures View(After(cfg, s, trace).value.store) == Replay(View(s.store), trace)
  {
    AtomicIsQuiet(cfg, s, trace);
    RunKeepsContents(cfg, s, trace);
    if trace == [] {
    } else {
      var n := |trace| - 1;
      RunKeepsContents(cfg, s, trace[..n]);
      DryRunChangesNothing(cfg, s, trace[..n]);
      DryStep(cfg, After(cfg, s, trace[..n]).value, trace[n]);
    }
  }
}
