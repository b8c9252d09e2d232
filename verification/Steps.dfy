/** The dedup phase of src/dedup.rs as a step system: workers interleave system calls on one block store. */
module DedupSteps {
  import opened Base
  import opened Hashing
  import opened RunPlanner
  import opened PlanFacts
  import opened BlockStore

  datatype Opts = Opts(dryRun: bool, fideduperange: bool) {
    // Userspace compare; otherwise FIDEDUPERANGE compares and clones in one step.
    predicate Compare() { dryRun || !fideduperange }
  }

  datatype Config = Config(plan: Pairs, files: seq<Hashed>, opts: Opts)

  // How `is_not_found` and `is_busy` sort errors; a short read counts as not found.
  datatype IoErr = NotFound | InUse | Other

  // ---- counters ------------------------------------------------------------------

  datatype Stats = Stats(candidates: nat, verified: nat, cloned: nat, bytes: nat, mismatches: nat, busy: nat,
                         errors: nat)

  const ZERO := Stats(0, 0, 0, 0, 0, 0, 0)

  function Add(a: Stats, b: Stats): Stats {
    Stats(a.candidates + b.candidates, a.verified + b.verified, a.cloned + b.cloned, a.bytes + b.bytes,
          a.mismatches + b.mismatches, a.busy + b.busy, a.errors + b.errors)
  }

  // What there is to settle: opening a file pair, each of its runs, and leaving it.
  datatype Slot = OpenSlot(k: PairKey) | RunSlot(k: PairKey, i: nat) | CloseSlot(k: PairKey)

  datatype Outcome = Opened | Closed | Skipped | Verified(bytes: nat) | Mismatch | Failed(err: IoErr)

  // How each slot was settled.
  type SlotLog = map<Slot, Outcome>

  function OfError(e: IoErr): Stats {
    match e
    case NotFound => ZERO
    case InUse => Stats(0, 0, 0, 0, 0, 1, 0)
    case Other => Stats(0, 0, 0, 0, 0, 0, 1)
  }

  const CANDIDATE := Stats(1, 0, 0, 0, 0, 0, 0)

  /** What a run adds after it was counted as a candidate. */
  function Settle(opts: Opts, o: Outcome): Stats {
    match o
    case Verified(b) => Stats(0, 1, if opts.dryRun then 0 else 1, b, 0, 0, 0)
    case Mismatch => Stats(0, 0, 0, 0, 1, 0, 0)
    case Failed(e) => OfError(e)
    case _ => ZERO
  }

  /** A run settled so has had its ranges shared. */
  predicate Shares(opts: Opts, o: Outcome) {
    o.Verified? && !opts.dryRun
  }

  /** All a settled slot adds. */
  function Tally(opts: Opts, slot: Slot, o: Outcome): Stats {
    match slot
    case OpenSlot(_) => if o.Failed? then OfError(o.err) else ZERO
    case CloseSlot(_) => ZERO
    case RunSlot(_, _) => if o.Skipped? then ZERO else Add(CANDIDATE, Settle(opts, o))
  }

  // ---- one worker ----------------------------------------------------------------

  datatype Phase = Start | HaveSrc(bufA: seq<byte>) | HaveBoth(bufA: seq<byte>, bufB: seq<byte>) | Equal

  // Inside pair `k`, with source and destination open as `sf` and `df`, at run `i`.
  datatype Pc = Idle | In(k: PairKey, sf: nat, df: nat, i: nat, phase: Phase)

  datatype DedupeResult = Same(bytes: nat) | Differs | DedupeErr(err: IoErr)

  datatype Act =
    | Open(k: PairKey, fds: Result<(nat, nat), IoErr>)
    | Skip
    | ReadSrc(failed: Option<IoErr>)
    | ReadDst(failed: Option<IoErr>)
    | Compare
    | Clone(failed: Option<IoErr>)
    | Dedupe(res: DedupeResult)
    | Close

  datatype Effect = Effect(pc: Pc, add: Stats, logged: Option<(Slot, Outcome)>, store: Store)

  // A byte range of an open file.
  datatype Range = Range(f: nat, off: nat, len: nat)

  predicate Inside(st: Store, r: Range) {
    r.f in st.files && r.off + r.len <= st.files[r.f].size
  }

  function Bytes(st: Store, r: Range): seq<byte>
    requires Wf(st) && Inside(st, r)
  {
    View(st)[r.f][r.off..r.off + r.len]
  }

  predicate Current(cfg: Config, pc: Pc) {
    pc.In? && HasRun(cfg.plan, pc.k, pc.i) && pc.k.src < |cfg.files| && pc.k.dst < |cfg.files|
  }

  function LenOn(cfg: Config, pc: Pc, src: bool): nat
    requires Current(cfg, pc)
  {
    var r := cfg.plan[pc.k][pc.i];
    if src then RunLen(cfg.files[pc.k.src].size, r.src.chunk, r.chunks, pc.k.blksz)
    else RunLen(cfg.files[pc.k.dst].size, r.dst.chunk, r.chunks, pc.k.blksz)
  }

  /** The shrink check of `pair`. */
  predicate LensOk(cfg: Config, pc: Pc)
    requires Current(cfg, pc)
  {
    LenOn(cfg, pc, true) == LenOn(cfg, pc, false) != 0
  }

  function SrcRange(cfg: Config, pc: Pc): Range
    requires Current(cfg, pc)
  {
    Range(pc.sf, cfg.plan[pc.k][pc.i].src.chunk * pc.k.blksz, LenOn(cfg, pc, true))
  }

  function DstRange(cfg: Config, pc: Pc): Range
    requires Current(cfg, pc)
  {
    Range(pc.df, cfg.plan[pc.k][pc.i].dst.chunk * pc.k.blksz, LenOn(cfg, pc, true))
  }

  /** The store after the kernel shares the first `len` bytes of the two ranges. */
  function Shared(st: Store, a: Range, b: Range, len: nat): Store
    requires Wf(st) && CanClone(st, a.f, a.off, b.f, b.off, len)
  {
    CanCloneFits(st, a.f, a.off, b.f, b.off, len);
    CloneRange(st, a.f, a.off, b.f, b.off, len)
  }

  function Settled(cfg: Config, pc: Pc, store: Store, counted: bool, o: Outcome): Effect
    requires pc.In?
  {
    Effect(pc.(i := pc.i + 1, phase := Start),
           if counted then Settle(cfg.opts, o) else Tally(cfg.opts, RunSlot(pc.k, pc.i), o),
           Some((RunSlot(pc.k, pc.i), o)), store)
  }

  predicate Ready(cfg: Config, pc: Pc) {
    Current(cfg, pc) && pc.phase.Start? && LensOk(cfg, pc)
  }

  function DoOpen(pc: Pc, k: PairKey, fds: Result<(nat, nat), IoErr>, st: Store): Option<Effect> {
    if pc != Idle then None
    else if fds.Ok? then
      Some(Effect(In(k, fds.value.0, fds.value.1, 0, Start), ZERO, Some((OpenSlot(k), Opened)), st))
    else
      Some(Effect(Idle, OfError(fds.error), Some((OpenSlot(k), Failed(fds.error))), st))
  }

  function DoClose(cfg: Config, pc: Pc, st: Store): Option<Effect> {
    if pc.In? && pc.k in cfg.plan && pc.i == |cfg.plan[pc.k]| && pc.phase.Start?
    then Some(Effect(Idle, ZERO, Some((CloseSlot(pc.k), Closed)), st)) else None
  }

  function DoSkip(cfg: Config, pc: Pc, st: Store): Option<Effect> {
    if Current(cfg, pc) && pc.phase.Start? && !LensOk(cfg, pc)
    then Some(Settled(cfg, pc, st, false, Skipped)) else None
  }

  /** FIDEDUPERANGE: compares and shares under the inode locks, possibly less than asked. */
  function DoDedupe(cfg: Config, pc: Pc, st: Store, res: DedupeResult): Option<Effect>
    requires Wf(st)
  {
    if !Ready(cfg, pc) || cfg.opts.Compare() then None
    else
      var src, dst, len := SrcRange(cfg, pc), DstRange(cfg, pc), LenOn(cfg, pc, true);
      match res
      case DedupeErr(e) => Some(Settled(cfg, pc, st, false, Failed(e)))
      case Differs =>
        if Inside(st, src) && Inside(st, dst) && Bytes(st, src) != Bytes(st, dst)
        then Some(Settled(cfg, pc, st, false, Mismatch)) else None
      case Same(m) =>
        if m <= len && CanClone(st, src.f, src.off, dst.f, dst.off, m)
           && Bytes(st, src.(len := m)) == Bytes(st, dst.(len := m))
        then Some(Settled(cfg, pc, Shared(st, src, dst, m), false, Verified(m))) else None
  }

  function DoReadSrc(cfg: Config, pc: Pc, st: Store, failed: Option<IoErr>): Option<Effect>
    requires Wf(st)
  {
    if !Ready(cfg, pc) || !cfg.opts.Compare() then None
    else if failed.Some? then Some(Settled(cfg, pc, st, false, Failed(failed.value)))
    else if !Inside(st, SrcRange(cfg, pc)) then None
    else Some(Effect(pc.(phase := HaveSrc(Bytes(st, SrcRange(cfg, pc)))), CANDIDATE, None, st))
  }

  function DoReadDst(cfg: Config, pc: Pc, st: Store, failed: Option<IoErr>): Option<Effect>
    requires Wf(st)
  {
    if !Current(cfg, pc) || !pc.phase.HaveSrc? then None
    else if failed.Some? then Some(Settled(cfg, pc, st, true, Failed(failed.value)))
    else if !Inside(st, DstRange(cfg, pc)) then None
    else Some(Effect(pc.(phase := HaveBoth(pc.phase.bufA, Bytes(st, DstRange(cfg, pc)))), ZERO, None, st))
  }

  function DoCompare(cfg: Config, pc: Pc, st: Store): Option<Effect> {
    if !Current(cfg, pc) || !pc.phase.HaveBoth? then None
    else if pc.phase.bufA != pc.phase.bufB then Some(Settled(cfg, pc, st, true, Mismatch))
    else if cfg.opts.dryRun then Some(Settled(cfg, pc, st, true, Verified(LenOn(cfg, pc, true))))
    else Some(Effect(pc.(phase := Equal), ZERO, None, st))
  }

  /** FICLONERANGE: shares whatever the source range holds now. */
  function DoClone(cfg: Config, pc: Pc, st: Store, failed: Option<IoErr>): Option<Effect>
    requires Wf(st)
  {
    if !Current(cfg, pc) || !pc.phase.Equal? then None
    else
      var src, dst, len := SrcRange(cfg, pc), DstRange(cfg, pc), LenOn(cfg, pc, true);
      if failed.Some? then Some(Settled(cfg, pc, st, true, Failed(failed.value)))
      else if !CanClone(st, src.f, src.off, dst.f, dst.off, len) then None
      else Some(Settled(cfg, pc, Shared(st, src, dst, len), true, Verified(len)))
  }

  /** What one system call, or one local step, of a worker at `pc` does. */
  function Do(cfg: Config, st: Store, pc: Pc, a: Act): Option<Effect>
    requires Wf(st)
  {
    match a
    case Open(k, fds) => DoOpen(pc, k, fds, st)
    case Close => DoClose(cfg, pc, st)
    case Skip => DoSkip(cfg, pc, st)
    case Dedupe(res) => DoDedupe(cfg, pc, st, res)
    case ReadSrc(failed) => DoReadSrc(cfg, pc, st, failed)
    case ReadDst(failed) => DoReadDst(cfg, pc, st, failed)
    case Compare => DoCompare(cfg, pc, st)
    case Clone(failed) => DoClone(cfg, pc, st, failed)
  }

  // ---- all workers and the outside world -----------------------------------------

  datatype Thread = Thread(pc: Pc, stats: Stats)

  // `log` is history: how each slot was settled.
  datatype State = State(store: Store, pending: set<PairKey>, workers: seq<Thread>, log: SlotLog)

  datatype Event =
    | Work(w: nat, a: Act)
      // Another process turns the contents of `f` by `g`, allocating as it likes.
    | Write(f: nat, g: seq<byte> -> seq<byte>, fd: FileData, added: Log)

  function ContentsOf(view: map<nat, seq<byte>>, f: nat): seq<byte> {
    if f in view then view[f] else []
  }

  function Applied(s: State, w: nat, a: Act, eff: Effect): State
    requires w < |s.workers|
  {
    State(eff.store,
          if a.Open? then s.pending - {a.k} else s.pending,
          s.workers[w := Thread(eff.pc, Add(s.workers[w].stats, eff.add))],
          if eff.logged.Some? then s.log[eff.logged.value.0 := eff.logged.value.1] else s.log)
  }

  function Next(cfg: Config, s: State, e: Event): Option<State>
    requires Wf(s.store)
  {
    match e
    case Work(w, a) =>
      if w >= |s.workers| || (a.Open? && a.k !in s.pending) then None
      else (match Do(cfg, s.store, s.workers[w].pc, a)
            case None => None
            case Some(eff) => Some(Applied(s, w, a, eff)))
    case Write(f, g, fd, added) =>
      if WfFile(fd, s.store.data + added)
         && Contents(fd, s.store.data + added) == g(ContentsOf(View(s.store), f))
      then Some(s.(store := Written(s.store, f, fd, added))) else None
  }

  ghost predicate Initial(cfg: Config, s: State) {
    && Wf(s.store) && s.pending == cfg.plan.Keys && s.log == map[]
    && forall w :: 0 <= w < |s.workers| ==> s.workers[w].pc == Idle && s.workers[w].stats == ZERO
  }

  lemma SharedIsWf(st: Store, a: Range, b: Range, len: nat)
    requires Wf(st) && CanClone(st, a.f, a.off, b.f, b.off, len)
    ensures Wf(Shared(st, a, b, len))
  {
    CanCloneFits(st, a.f, a.off, b.f, b.off, len);
  }

  lemma DoKeepsWf(cfg: Config, st: Store, pc: Pc, a: Act)
    requires Wf(st) && Do(cfg, st, pc, a).Some?
    ensures Wf(Do(cfg, st, pc, a).value.store)
  {
    match a
    case Dedupe(Same(m)) =>
      SharedIsWf(st, SrcRange(cfg, pc), DstRange(cfg, pc), m);
    case Clone(None) =>
      SharedIsWf(st, SrcRange(cfg, pc), DstRange(cfg, pc), LenOn(cfg, pc, true));
    case _ =>
  }

  lemma NextKeepsWf(cfg: Config, s: State, e: Event)
    requires Wf(s.store) && Next(cfg, s, e).Some?
    ensures Wf(Next(cfg, s, e).value.store)
  {
    match e
    case Work(w, a) => DoKeepsWf(cfg, s.store, s.workers[w].pc, a);
    case Write(f, g, fd, added) => WriteView(s.store, f, fd, added);
  }

  /** The state after a sequence of events, if each was possible. */
  ghost function After(cfg: Config, s: State, trace: seq<Event>): (r: Option<State>)
    requires Wf(s.store)
    ensures r.Some? ==> Wf(r.value.store)
  {
    if trace == [] then Some(s)
    else
      match After(cfg, s, trace[..|trace| - 1])
      case None => None
      case Some(t) =>
        var e := trace[|trace| - 1];
        if Next(cfg, t, e).Some? then NextKeepsWf(cfg, t, e); Next(cfg, t, e) else None
  }
}
