/**
 * Runs of the dedup phase in which nothing fails and nobody writes: every schedule, with any number of workers,
 * ends with the same block pointers and the same counters.
 */
module Schedules {
  import opened Base
  import opened Hashing
  import opened DupIndex
  import opened Coalescing
  import opened RunPlanner
  import opened PlanFacts
  import opened BlockStore
  import opened DedupSteps
  import opened Requests
  import opened Safety
  import opened Accounting

  ghost predicate Good(cfg: Config, idx: Index) {
    Grouped(idx, cfg.files) && IsPlan(cfg.plan, idx, cfg.files)
  }

  /** The store holds the files of the list, with the sizes and block sizes they were hashed with. */
  ghost predicate Tree(cfg: Config, st: Store) {
    forall f: nat :: f < |cfg.files| ==> f in st.files && SeenAs(st.files[f], cfg.files[f])
  }

  // ---- the ranges of a run ---------------------------------------------------------

  // A worker about to start run `i` of pair `k`.
  function Begin(k: PairKey, i: nat): Pc {
    In(k, k.src, k.dst, i, Start)
  }

  lemma RunIsCurrent(cfg: Config, idx: Index, st: Store, k: PairKey, i: nat)
    requires Good(cfg, idx) && Wf(st) && Tree(cfg, st) && HasRun(cfg.plan, k, i)
    ensures Current(cfg, Begin(k, i)) && LensOk(cfg, Begin(k, i))
    ensures k.blksz > 0 && k.dst in st.files && st.files[k.dst].blksz == k.blksz
    ensures cfg.plan[k][i].src.file == k.src && cfg.plan[k][i].dst.file == k.dst && cfg.plan[k][i].chunks > 0
  {
    RunLensAgree(cfg.plan, idx, cfg.files, k, i);
    PlannedLens(cfg.plan, idx, cfg.files, k, i, 0);
    assert SeenAs(st.files[k.dst], cfg.files[k.dst]);
  }

  /** Whatever the blocks, the kernel accepts the request of every run, and both ranges can be read. */
  lemma RunIsClonable(cfg: Config, idx: Index, st: Store, k: PairKey, i: nat)
    requires Good(cfg, idx) && Wf(st) && Tree(cfg, st) && HasRun(cfg.plan, k, i)
    ensures Current(cfg, Begin(k, i))
    ensures var src, dst := SrcRange(cfg, Begin(k, i)), DstRange(cfg, Begin(k, i));
            && CanClone(st, src.f, src.off, dst.f, dst.off, src.len)
            && src.len == dst.len && Inside(st, src) && Inside(st, dst)
  {
    RunIsCurrent(cfg, idx, st, k, i);
    assert SeenAs(st.files[k.src], cfg.files[k.src]) && SeenAs(st.files[k.dst], cfg.files[k.dst]);
    RequestIsAccepted(cfg.plan, idx, cfg.files, k, i, st.files[k.src], st.files[k.dst]);
  }

  /** The two sides of a run hold the same bytes. */
  ghost predicate Matching(cfg: Config, view: map<nat, seq<byte>>, k: PairKey, i: nat) {
    && Current(cfg, Begin(k, i))
    && InView(view, SrcRange(cfg, Begin(k, i))) && InView(view, DstRange(cfg, Begin(k, i)))
    && Slice(view, SrcRange(cfg, Begin(k, i))) == Slice(view, DstRange(cfg, Begin(k, i)))
  }

  // ---- clean runs ------------------------------------------------------------------

  /** Opens reach the two files, reads, clones and compares succeed, and a dedupe is of the full length. */
  ghost predicate Clean(cfg: Config, pc: Pc, a: Act) {
    match a
    case Open(k, fds) => fds == Result<(nat, nat), IoErr>.Ok((k.src, k.dst))
    case ReadSrc(failed) => failed.None?
    case ReadDst(failed) => failed.None?
    case Clone(failed) => failed.None?
    case Dedupe(res) => res.Differs? || (res.Same? && Current(cfg, pc) && res.bytes == LenOn(cfg, pc, true))
    case _ => true
  }

  ghost predicate CleanEvent(cfg: Config, s: State, e: Event) {
    e.Work? && e.w < |s.workers| && Clean(cfg, s.workers[e.w].pc, e.a)
  }

  ghost predicate CleanRun(cfg: Config, s: State, trace: seq<Event>)
    requires Wf(s.store)
  {
    trace == []
    || (var n := |trace| - 1;
        CleanRun(cfg, s, trace[..n]) && After(cfg, s, trace[..n]).Some?
        && CleanEvent(cfg, After(cfg, s, trace[..n]).value, trace[n]))
  }

  /** How each slot of a clean run is settled, from the contents alone. */
  ghost function Decided(cfg: Config, view: map<nat, seq<byte>>, slot: Slot): Outcome {
    match slot
    case OpenSlot(_) => Opened
    case CloseSlot(_) => Closed
    case RunSlot(k, i) => if Matching(cfg, view, k, i) then Verified(LenOn(cfg, Begin(k, i), true)) else Mismatch
  }

  /** A worker has its own pair's files open, and its buffers hold what readers see. */
  ghost predicate Holding(cfg: Config, pc: Pc, view: map<nat, seq<byte>>) {
    pc.In? ==>
      && pc.sf == pc.k.src && pc.df == pc.k.dst
      && (!pc.phase.Start? ==>
            && cfg.opts.Compare() && Current(cfg, pc)
            && var src, dst := SrcRange(cfg, pc), DstRange(cfg, pc);
            && InView(view, src) && (!pc.phase.HaveSrc? ==> InView(view, dst))
            && (pc.phase.HaveSrc? ==> pc.phase.bufA == Slice(view, src))
            && (pc.phase.HaveBoth? ==> pc.phase.bufA == Slice(view, src) && pc.phase.bufB == Slice(view, dst))
            && (pc.phase.Equal? ==> !cfg.opts.dryRun && Slice(view, src) == Slice(view, dst)))
  }

  ghost predicate SharesRun(cfg: Config, slot: Slot, o: Outcome) {
    slot.RunSlot? && Shares(cfg.opts, o)
  }

  /** What a step does to the store: the verified prefix of a run is shared, and was equal; nothing else moves. */
  ghost predicate Moves(cfg: Config, st: Store, logged: Option<(Slot, Outcome)>, st': Store)
    requires Wf(st)
  {
    if logged.Some? && SharesRun(cfg, logged.value.0, logged.value.1) then
      CanShare(cfg, st, logged.value.0, logged.value.1.bytes)
      && st' == ShareRun(cfg, st, logged.value.0, logged.value.1.bytes)
    else st' == st
  }

  /** The kernel accepts the first `m` bytes of the run, and they are equal on both sides. */
  ghost predicate CanShare(cfg: Config, st: Store, slot: Slot, m: nat)
    requires Wf(st) && slot.RunSlot?
  {
    var pc := Begin(slot.k, slot.i);
    && Current(cfg, pc) && m <= LenOn(cfg, pc, true)
    && CanClone(st, SrcRange(cfg, pc).f, SrcRange(cfg, pc).off, DstRange(cfg, pc).f, DstRange(cfg, pc).off, m)
    && Bytes(st, SrcRange(cfg, pc).(len := m)) == Bytes(st, DstRange(cfg, pc).(len := m))
  }

  ghost function ShareRun(cfg: Config, st: Store, slot: Slot, m: nat): Store
    requires Wf(st) && slot.RunSlot? && CanShare(cfg, st, slot, m)
  {
    var pc := Begin(slot.k, slot.i);
    Shared(st, SrcRange(cfg, pc), DstRange(cfg, pc), m)
  }

  // ---- steps that may fail -----------------------------------------------------------

  /** An open fails or reaches the two files; nothing else is asked. */
  ghost predicate Fair(a: Act) {
    a.Open? && a.fds.Ok? ==> a.fds.value == (a.k.src, a.k.dst)
  }

  ghost predicate FairEffect(cfg: Config, st: Store, eff: Effect)
    requires Wf(st)
  {
    Holding(cfg, eff.pc, View(st)) && Moves(cfg, st, eff.logged, eff.store)
  }

  lemma SameRanges(cfg: Config, pc: Pc)
    requires Current(cfg, pc) && pc.sf == pc.k.src && pc.df == pc.k.dst
    ensures Current(cfg, Begin(pc.k, pc.i))
    ensures SrcRange(cfg, pc) == SrcRange(cfg, Begin(pc.k, pc.i))
            && DstRange(cfg, pc) == DstRange(cfg, Begin(pc.k, pc.i))
  {
  }

  lemma FairDedupe(cfg: Config, st: Store, pc: Pc, res: DedupeResult)
    requires Wf(st) && Holding(cfg, pc, View(st)) && DoDedupe(cfg, pc, st, res).Some?
    ensures FairEffect(cfg, st, DoDedupe(cfg, pc, st, res).value)
  {
    SameRanges(cfg, pc);
  }

  lemma FairClone(cfg: Config, st: Store, pc: Pc, failed: Option<IoErr>)
    requires Wf(st) && Holding(cfg, pc, View(st)) && DoClone(cfg, pc, st, failed).Some?
    ensures FairEffect(cfg, st, DoClone(cfg, pc, st, failed).value)
  {
    SameRanges(cfg, pc);
  }

  lemma FairReadSrc(cfg: Config, st: Store, pc: Pc, failed: Option<IoErr>)
    requires Wf(st) && Holding(cfg, pc, View(st)) && DoReadSrc(cfg, pc, st, failed).Some?
    ensures FairEffect(cfg, st, DoReadSrc(cfg, pc, st, failed).value)
  {
  }

  lemma FairReadDst(cfg: Config, st: Store, pc: Pc, failed: Option<IoErr>)
    requires Wf(st) && Holding(cfg, pc, View(st)) && DoReadDst(cfg, pc, st, failed).Some?
    ensures FairEffect(cfg, st, DoReadDst(cfg, pc, st, failed).value)
  {
  }

  lemma FairCompare(cfg: Config, st: Store, pc: Pc)
    requires Wf(st) && Holding(cfg, pc, View(st)) && DoCompare(cfg, pc, st).Some?
    ensures FairEffect(cfg, st, DoCompare(cfg, pc, st).value)
  {
  }

  /** Whatever fails or falls short, a step shares only prefixes that are equal. */
  lemma FairStep(cfg: Config, st: Store, pc: Pc, a: Act)
    requires Wf(st) && Holding(cfg, pc, View(st)) && Fair(a) && Do(cfg, st, pc, a).Some?
    ensures FairEffect(cfg, st, Do(cfg, st, pc, a).value)
  {
    match a
    case Dedupe(res) => FairDedupe(cfg, st, pc, res);
    case ReadSrc(failed) => FairReadSrc(cfg, st, pc, failed);
    case ReadDst(failed) => FairReadDst(cfg, st, pc, failed);
    case Compare => FairCompare(cfg, st, pc);
    case Clone(failed) => FairClone(cfg, st, pc, failed);
    case Open(_, _) =>
    case Skip =>
    case Close =>
  }

  // ---- steps in which nothing fails --------------------------------------------------

  /** What is settled is settled as the contents decide. */
  ghost predicate CleanEffect(cfg: Config, st: Store, eff: Effect)
    requires Wf(st)
  {
    eff.logged.Some? ==> eff.logged.value.1 == Decided(cfg, View(st), eff.logged.value.0)
  }

  lemma CleanDedupe(cfg: Config, idx: Index, st: Store, pc: Pc, res: DedupeResult)
    requires Good(cfg, idx) && Wf(st) && Tree(cfg, st) && Holding(cfg, pc, View(st))
    requires Clean(cfg, pc, Dedupe(res)) && DoDedupe(cfg, pc, st, res).Some?
    ensures CleanEffect(cfg, st, DoDedupe(cfg, pc, st, res).value)
  {
    SameRanges(cfg, pc);
    RunIsClonable(cfg, idx, st, pc.k, pc.i);
  }

  lemma CleanCompare(cfg: Config, idx: Index, st: Store, pc: Pc)
    requires Good(cfg, idx) && Wf(st) && Tree(cfg, st) && Holding(cfg, pc, View(st))
    requires DoCompare(cfg, pc, st).Some?
    ensures CleanEffect(cfg, st, DoCompare(cfg, pc, st).value)
  {
    SameRanges(cfg, pc);
    RunIsClonable(cfg, idx, st, pc.k, pc.i);
  }

  lemma CleanClone(cfg: Config, idx: Index, st: Store, pc: Pc)
    requires Good(cfg, idx) && Wf(st) && Tree(cfg, st) && Holding(cfg, pc, View(st))
    requires DoClone(cfg, pc, st, None).Some?
    ensures CleanEffect(cfg, st, DoClone(cfg, pc, st, None).value)
  {
    SameRanges(cfg, pc);
    RunIsClonable(cfg, idx, st, pc.k, pc.i);
  }

  /** The shrink check skips no planned run. */
  lemma NothingIsSkipped(cfg: Config, idx: Index, st: Store, pc: Pc)
    requires Good(cfg, idx) && Wf(st) && Tree(cfg, st)
    ensures DoSkip(cfg, pc, st).None?
  {
    if Current(cfg, pc) {
      RunIsCurrent(cfg, idx, st, pc.k, pc.i);
    }
  }

  lemma CleanStep(cfg: Config, idx: Index, st: Store, pc: Pc, a: Act)
    requires Good(cfg, idx) && Wf(st) && Tree(cfg, st) && Holding(cfg, pc, View(st))
    requires Clean(cfg, pc, a) && Do(cfg, st, pc, a).Some?
    ensures CleanEffect(cfg, st, Do(cfg, st, pc, a).value)
  {
    match a
    case Dedupe(res) => CleanDedupe(cfg, idx, st, pc, res);
    case ReadSrc(_) =>
    case ReadDst(_) =>
    case Compare => CleanCompare(cfg, idx, st, pc);
    case Clone(_) => CleanClone(cfg, idx, st, pc);
    case Skip => NothingIsSkipped(cfg, idx, st, pc);
    case Open(_, _) =>
    case Close =>
  }

  // ---- where blocks end up ---------------------------------------------------------

  function BlockAt(st: Store, l: Loc): Option<nat> {
    if l.file in st.files && l.chunk < |st.files[l.file].blocks| then Some(st.files[l.file].blocks[l.chunk]) else None
  }

  predicate Covers(r: Run, l: Loc) {
    l.file == r.dst.file && r.dst.chunk <= l.chunk < r.dst.chunk + r.chunks
  }

  function SourceOf(r: Run, l: Loc): Loc
    requires Covers(r, l)
  {
    At(r.src, l.chunk - r.dst.chunk)
  }

  lemma ChunksOfLen(n: nat, k: nat, last: nat, c: nat)
    requires n > 0 && 0 < last <= k
    ensures NumChunks((n - 1) * k + last, k) == n && (c * k) / k == c
  {
    var len := (n - 1) * k + last;
    assert len + k - 1 == k * n + (last - 1) by {
      assert (n - 1) * k == k * n - k;
    }
    QuotientIsUnique(k, len + k - 1, n, last - 1);
    DivMod(k, c, 0);
    assert k * c + 0 == c * k;
  }

  lemma RunChunks(size: nat, s: nat, n: nat, k: nat)
    requires n > 0 && k > 0 && ChunkLen(size, s + n - 1, k) > 0
    ensures NumChunks(RunLen(size, s, n, k), k) == n
    ensures (s * k) / k == s
  {
    RunLenIsSum(size, s, n, k);
    ChunksOfLen(n, k, ChunkLen(size, s + n - 1, k), s);
  }

  ghost predicate CanRedirect(st: Store, r: Run) {
    && r.src.file in st.files && r.src.chunk + r.chunks <= |st.files[r.src.file].blocks|
    && r.dst.file in st.files && r.dst.chunk + r.chunks <= |st.files[r.dst.file].blocks|
  }

  /** The store with the destination chunks of `r` pointing at the blocks of its source chunks. */
  ghost function Redirected(st: Store, r: Run): Store
    requires CanRedirect(st, r)
  {
    var src, dst := st.files[r.src.file], st.files[r.dst.file];
    st.(files := st.files[r.dst.file :=
                   dst.(blocks := Spliced(src.blocks, r.src.chunk, dst.blocks, r.dst.chunk, r.chunks))])
  }

  lemma RedirectedAt(st: Store, r: Run, l: Loc)
    requires CanRedirect(st, r)
    ensures BlockAt(Redirected(st, r), l) == BlockAt(st, if Covers(r, l) then SourceOf(r, l) else l)
  {
  }

  /** In chunk numbers, the range of a run is its chunks. */
  lemma RunInChunks(cfg: Config, idx: Index, st: Store, k: PairKey, i: nat)
    requires Good(cfg, idx) && Wf(st) && Tree(cfg, st) && HasRun(cfg.plan, k, i)
    ensures Current(cfg, Begin(k, i)) && k.blksz > 0
    ensures var r := cfg.plan[k][i];
            && NumChunks(LenOn(cfg, Begin(k, i), true), k.blksz) == r.chunks
            && SrcRange(cfg, Begin(k, i)).off / k.blksz == r.src.chunk
            && DstRange(cfg, Begin(k, i)).off / k.blksz == r.dst.chunk
  {
    var r := cfg.plan[k][i];
    RunIsCurrent(cfg, idx, st, k, i);
    RunLensAgree(cfg.plan, idx, cfg.files, k, i);
    PlannedLens(cfg.plan, idx, cfg.files, k, i, r.chunks - 1);
    RunChunks(cfg.files[k.src].size, r.src.chunk, r.chunks, k.blksz);
    RunChunks(cfg.files[k.dst].size, r.dst.chunk, r.chunks, k.blksz);
  }

  /** The first chunks of a run, those that hold its first `m` bytes. */
  function Prefix(r: Run, m: nat, blksz: nat): Run {
    if blksz == 0 then r.(chunks := 0) else r.(chunks := Min(NumChunks(m, blksz), r.chunks))
  }

  lemma PrefixCovers(r: Run, m: nat, blksz: nat, l: Loc)
    requires Covers(Prefix(r, m, blksz), l)
    ensures Covers(r, l) && SourceOf(Prefix(r, m, blksz), l) == SourceOf(r, l)
  {
  }

  lemma FewerChunks(m: nat, n: nat, blksz: nat)
    requires blksz > 0 && m <= n
    ensures NumChunks(m, blksz) <= NumChunks(n, blksz)
  {
    if NumChunks(m, blksz) > 0 {
      CeilBounds(m, NumChunks(m, blksz) - 1, blksz);
      CeilBounds(n, NumChunks(m, blksz) - 1, blksz);
    }
  }

  /** Sharing a prefix gives its destination chunks the blocks of their source chunks; every other pointer stays. */
  lemma MoveIsRedirect(cfg: Config, idx: Index, st: Store, k: PairKey, i: nat, m: nat)
    requires Good(cfg, idx) && Wf(st) && Tree(cfg, st) && HasRun(cfg.plan, k, i)
    requires CanShare(cfg, st, RunSlot(k, i), m)
    ensures CanRedirect(st, Prefix(cfg.plan[k][i], m, k.blksz))
    ensures ShareRun(cfg, st, RunSlot(k, i), m) == Redirected(st, Prefix(cfg.plan[k][i], m, k.blksz))
  {
    RunIsCurrent(cfg, idx, st, k, i);
    RunInChunks(cfg, idx, st, k, i);
    var src, dst := SrcRange(cfg, Begin(k, i)), DstRange(cfg, Begin(k, i));
    FewerChunks(m, src.len, k.blksz);
    CanCloneFits(st, src.f, src.off, dst.f, dst.off, m);
  }

  /** A prefix of run `i` of pair `k` was shared, and covers chunk `l`. */
  ghost predicate Redirects(cfg: Config, log: SlotLog, k: PairKey, i: nat, l: Loc) {
    && HasRun(cfg.plan, k, i) && RunSlot(k, i) in log && SharesRun(cfg, RunSlot(k, i), log[RunSlot(k, i)])
    && Covers(Prefix(cfg.plan[k][i], log[RunSlot(k, i)].bytes, k.blksz), l)
  }

  ghost predicate RedirectsTo(cfg: Config, log: SlotLog, k: PairKey, i: nat, l: Loc, m: Loc) {
    Redirects(cfg, log, k, i, l) && m == SourceOf(cfg.plan[k][i], l)
  }

  /** The chunk whose initial block `l` points at, once the runs of `log` are settled. */
  ghost function Home(cfg: Config, log: SlotLog, l: Loc): Loc {
    if exists k, i: nat, m :: RedirectsTo(cfg, log, k, i, l, m) then
      var k, i: nat, m :| RedirectsTo(cfg, log, k, i, l, m);
      m
    else l
  }

  lemma CoveredOnce(cfg: Config, idx: Index, k: PairKey, i: nat, k': PairKey, i': nat, l: Loc)
    requires Good(cfg, idx) && HasRun(cfg.plan, k, i) && HasRun(cfg.plan, k', i')
    requires Covers(cfg.plan[k][i], l) && Covers(cfg.plan[k'][i'], l)
    ensures k == k' && i == i'
  {
    DestinationsAreDisjoint(cfg.plan, idx, cfg.files, k, i, l.chunk - cfg.plan[k][i].dst.chunk,
                            k', i', l.chunk - cfg.plan[k'][i'].dst.chunk);
  }

  lemma HomeIs(cfg: Config, idx: Index, log: SlotLog, k: PairKey, i: nat, l: Loc, m: Loc)
    requires Good(cfg, idx) && RedirectsTo(cfg, log, k, i, l, m)
    ensures Home(cfg, log, l) == m
  {
    var h := Home(cfg, log, l);
    var k', i': nat :| RedirectsTo(cfg, log, k', i', l, h);
    CoveredOnce(cfg, idx, k, i, k', i', l);
  }

  /** A source chunk is never redirected. */
  lemma SourceStaysHome(cfg: Config, idx: Index, log: SlotLog, k: PairKey, i: nat, l: Loc)
    requires Good(cfg, idx) && HasRun(cfg.plan, k, i) && Covers(cfg.plan[k][i], l)
    ensures Home(cfg, log, SourceOf(cfg.plan[k][i], l)) == SourceOf(cfg.plan[k][i], l)
  {
    var m := SourceOf(cfg.plan[k][i], l);
    if k', i': nat, n :| RedirectsTo(cfg, log, k', i', m, n) {
      SourcesAreNotWritten(cfg.plan, idx, cfg.files, k, i, l.chunk - cfg.plan[k][i].dst.chunk,
                           k', i', m.chunk - cfg.plan[k'][i'].dst.chunk);
    }
  }

  /** Settling a run that does not share a chunk leaves that chunk where it was. */
  lemma HomeUnchanged(cfg: Config, idx: Index, log: SlotLog, slot: Slot, o: Outcome, l: Loc)
    requires Good(cfg, idx) && slot !in log
    requires SharesRun(cfg, slot, o) && HasRun(cfg.plan, slot.k, slot.i) ==>
               !Covers(Prefix(cfg.plan[slot.k][slot.i], o.bytes, slot.k.blksz), l)
    ensures Home(cfg, log[slot := o], l) == Home(cfg, log, l)
  {
    var log' := log[slot := o];
    if k, i: nat, m :| RedirectsTo(cfg, log, k, i, l, m) {
      HomeIs(cfg, idx, log, k, i, l, m);
      assert RedirectsTo(cfg, log', k, i, l, m);
      HomeIs(cfg, idx, log', k, i, l, m);
    } else if k, i: nat, m :| RedirectsTo(cfg, log', k, i, l, m) {
      assert RedirectsTo(cfg, log, k, i, l, m);
    }
  }

  ghost predicate PlacedAt(cfg: Config, st0: Store, st: Store, log: SlotLog, l: Loc) {
    BlockAt(st, l) == BlockAt(st0, Home(cfg, log, l))
  }

  /** Nothing but block pointers changed, and those are where the settled runs put them. */
  ghost predicate Placed(cfg: Config, st0: Store, st: Store, log: SlotLog) {
    && st.data == st0.data && st.files.Keys == st0.files.Keys
    && (forall f :: f in st.files ==> SameButPointers(st0.files[f], st.files[f]))
    && forall l: Loc :: PlacedAt(cfg, st0, st, log, l)
  }

  predicate SameButPointers(a: FileData, b: FileData) {
    a.blksz == b.blksz && a.size == b.size && |a.blocks| == |b.blocks|
  }

  lemma SharingPlaces(cfg: Config, idx: Index, st0: Store, st: Store, log: SlotLog, log': SlotLog,
                      k: PairKey, i: nat, o: Outcome, l: Loc)
    requires Good(cfg, idx) && HasRun(cfg.plan, k, i) && RunSlot(k, i) !in log && log' == log[RunSlot(k, i) := o]
    requires SharesRun(cfg, RunSlot(k, i), o) && CanRedirect(st, Prefix(cfg.plan[k][i], o.bytes, k.blksz))
    requires forall m: Loc :: PlacedAt(cfg, st0, st, log, m)
    ensures PlacedAt(cfg, st0, Redirected(st, Prefix(cfg.plan[k][i], o.bytes, k.blksz)), log', l)
  {
    var r := Prefix(cfg.plan[k][i], o.bytes, k.blksz);
    RedirectedAt(st, r, l);
    if Covers(r, l) {
      PrefixCovers(cfg.plan[k][i], o.bytes, k.blksz, l);
      var m := SourceOf(r, l);
      assert RedirectsTo(cfg, log', k, i, l, m);
      HomeIs(cfg, idx, log', k, i, l, m);
      SourceStaysHome(cfg, idx, log, k, i, l);
      assert PlacedAt(cfg, st0, st, log, m);
    } else {
      HomeUnchanged(cfg, idx, log, RunSlot(k, i), o, l);
      assert PlacedAt(cfg, st0, st, log, l);
    }
  }

  lemma PlacedStep(cfg: Config, idx: Index, st0: Store, st: Store, log: SlotLog, slot: Slot, o: Outcome, st': Store)
    requires Good(cfg, idx) && Wf(st) && Tree(cfg, st) && Placed(cfg, st0, st, log) && slot !in log
    requires slot.RunSlot? ==> HasRun(cfg.plan, slot.k, slot.i)
    requires Moves(cfg, st, Some((slot, o)), st')
    ensures Placed(cfg, st0, st', log[slot := o])
  {
    var log' := log[slot := o];
    if SharesRun(cfg, slot, o) {
      MoveIsRedirect(cfg, idx, st, slot.k, slot.i, o.bytes);
      forall l: Loc ensures PlacedAt(cfg, st0, st', log', l) {
        SharingPlaces(cfg, idx, st0, st, log, log', slot.k, slot.i, o, l);
      }
    } else {
      forall l: Loc ensures PlacedAt(cfg, st0, st', log', l) {
        HomeUnchanged(cfg, idx, log, slot, o, l);
        assert PlacedAt(cfg, st0, st, log, l);
      }
    }
  }

  // ---- runs without writers, whatever fails --------------------------------------------

  ghost predicate FairRun(trace: seq<Event>) {
    forall i :: 0 <= i < |trace| ==> trace[i].Work? && Fair(trace[i].a)
  }

  ghost predicate HoldingAll(cfg: Config, s: State, view: map<nat, seq<byte>>) {
    forall w :: 0 <= w < |s.workers| ==> Holding(cfg, s.workers[w].pc, view)
  }

  /** Contents are the initial ones, and block pointers are where the prefixes shared so far put them. */
  ghost predicate Settling(cfg: Config, st0: Store, s: State)
    requires Wf(st0)
  {
    && Wf(s.store) && View(s.store) == View(st0) && Tree(cfg, s.store) && Tidy(cfg, s)
    && HoldingAll(cfg, s, View(st0)) && Placed(cfg, st0, s.store, s.log)
  }

  lemma InitialIsSettling(cfg: Config, s: State)
    requires Initial(cfg, s) && Tree(cfg, s.store)
    ensures Settling(cfg, s.store, s)
  {
    InitialIsTidy(cfg, s);
    forall l: Loc ensures PlacedAt(cfg, s.store, s.store, s.log, l) {
      assert forall k, i: nat, m :: !RedirectsTo(cfg, s.log, k, i, l, m);
    }
  }

  lemma MovesKeepContents(cfg: Config, st: Store, logged: Option<(Slot, Outcome)>, st': Store)
    requires Wf(st) && Tree(cfg, st) && Moves(cfg, st, logged, st')
    ensures Wf(st') && View(st') == View(st) && Tree(cfg, st')
  {
    if logged.Some? && SharesRun(cfg, logged.value.0, logged.value.1) {
      var pc := Begin(logged.value.0.k, logged.value.0.i);
      ShareEqualBytes(st, SrcRange(cfg, pc), DstRange(cfg, pc), logged.value.1.bytes);
    }
  }

  lemma StepStaysSettling(cfg: Config, idx: Index, st0: Store, s: State, e: Event)
    requires Good(cfg, idx) && Wf(st0) && Settling(cfg, st0, s) && e.Work? && Fair(e.a) && Next(cfg, s, e).Some?
    ensures Settling(cfg, st0, Next(cfg, s, e).value)
  {
    var pc := s.workers[e.w].pc;
    var eff := Do(cfg, s.store, pc, e.a).value;
    StepStaysTidy(cfg, s, e);
    assert Holding(cfg, pc, View(st0));
    FairStep(cfg, s.store, pc, e.a);
    MovesKeepContents(cfg, s.store, eff.logged, eff.store);
    if eff.logged.Some? {
      EffectLeads(cfg, s.store, pc, e.a);
      SlotIsFresh(cfg, s, e.w, e.a, eff);
      PlacedStep(cfg, idx, st0, s.store, s.log, eff.logged.value.0, eff.logged.value.1, eff.store);
    }
  }

  /**
   * Without writers, whatever fails or falls short: contents stay, and in every reachable state exactly the chunks of
   * the prefixes verified so far have been redirected, each to its source's initial block.
   */
  lemma {:induction false} FairRunIsSettling(cfg: Config, idx: Index, s: State, trace: seq<Event>)
    requires Good(cfg, idx) && Initial(cfg, s) && Tree(cfg, s.store)
    requires FairRun(trace) && After(cfg, s, trace).Some?
    ensures Settling(cfg, s.store, After(cfg, s, trace).value)
  {
    if trace == [] {
      InitialIsSettling(cfg, s);
    } else {
      var n := |trace| - 1;
      FairRunIsSettling(cfg, idx, s, trace[..n]);
      StepStaysSettling(cfg, idx, s.store, After(cfg, s, trace[..n]).value, trace[n]);
    }
  }

  /** A chunk of a verified prefix has its source's initial block, every other chunk its own. */
  lemma SettledBlocks(cfg: Config, idx: Index, s: State, trace: seq<Event>, l: Loc)
    requires Good(cfg, idx) && Initial(cfg, s) && Tree(cfg, s.store)
    requires FairRun(trace) && After(cfg, s, trace).Some?
    ensures var t := After(cfg, s, trace).value;
            && View(t.store) == View(s.store)
            && (forall k, i: nat :: Redirects(cfg, t.log, k, i, l) ==>
                  BlockAt(t.store, l) == BlockAt(s.store, SourceOf(cfg.plan[k][i], l)))
            && ((forall k, i: nat :: !Redirects(cfg, t.log, k, i, l)) ==> BlockAt(t.store, l) == BlockAt(s.store, l))
  {
    var t := After(cfg, s, trace).value;
    FairRunIsSettling(cfg, idx, s, trace);
    assert PlacedAt(cfg, s.store, t.store, t.log, l);
    forall k, i: nat | Redirects(cfg, t.log, k, i, l)
      ensures BlockAt(t.store, l) == BlockAt(s.store, SourceOf(cfg.plan[k][i], l))
    {
      HomeIs(cfg, idx, t.log, k, i, l, SourceOf(cfg.plan[k][i], l));
    }
  }

  // ---- runs in which nothing fails ---------------------------------------------------

  ghost predicate DecidedAll(cfg: Config, view: map<nat, seq<byte>>, log: SlotLog) {
    forall slot :: slot in log ==> log[slot] == Decided(cfg, view, slot)
  }

  ghost predicate Steady(cfg: Config, idx: Index, st0: Store, s: State)
    requires Wf(st0)
  {
    Settling(cfg, st0, s) && DecidedAll(cfg, View(st0), s.log)
  }

  lemma StepStaysSteady(cfg: Config, idx: Index, st0: Store, s: State, e: Event)
    requires Good(cfg, idx) && Wf(st0) && Steady(cfg, idx, st0, s) && CleanEvent(cfg, s, e) && Next(cfg, s, e).Some?
    ensures Steady(cfg, idx, st0, Next(cfg, s, e).value)
  {
    var pc := s.workers[e.w].pc;
    StepStaysSettling(cfg, idx, st0, s, e);
    assert Holding(cfg, pc, View(st0));
    CleanStep(cfg, idx, s.store, pc, e.a);
  }

  lemma {:induction false} CleanRunIsSteady(cfg: Config, idx: Index, s: State, trace: seq<Event>)
    requires Good(cfg, idx) && Initial(cfg, s) && Tree(cfg, s.store)
    requires CleanRun(cfg, s, trace) && After(cfg, s, trace).Some?
    ensures Steady(cfg, idx, s.store, After(cfg, s, trace).value)
  {
    if trace == [] {
      InitialIsSettling(cfg, s);
    } else {
      var n := |trace| - 1;
      CleanRunIsSteady(cfg, idx, s, trace[..n]);
      StepStaysSteady(cfg, idx, s.store, After(cfg, s, trace[..n]).value, trace[n]);
    }
  }

  // ---- every schedule ends the same ----------------------------------------------------

  /** A clean run that has nothing left to do. */
  ghost predicate Completes(cfg: Config, idx: Index, s: State, trace: seq<Event>) {
    && Good(cfg, idx) && Initial(cfg, s) && Tree(cfg, s.store)
    && CleanRun(cfg, s, trace) && After(cfg, s, trace).Some? && Finished(After(cfg, s, trace).value)
  }

  ghost function End(cfg: Config, idx: Index, s: State, trace: seq<Event>): State
    requires Completes(cfg, idx, s, trace)
  {
    After(cfg, s, trace).value
  }

  /** The slots of the plan, each with the outcome the contents decide. */
  ghost predicate Complete(cfg: Config, view: map<nat, seq<byte>>, log: SlotLog) {
    log.Keys == Slots(cfg.plan) && DecidedAll(cfg, view, log)
  }

  lemma EndIsComplete(cfg: Config, idx: Index, s: State, trace: seq<Event>)
    requires Completes(cfg, idx, s, trace)
    ensures Complete(cfg, View(s.store), End(cfg, idx, s, trace).log)
    ensures Steady(cfg, idx, s.store, End(cfg, idx, s, trace))
  {
    CleanRunIsSteady(cfg, idx, s, trace);
    EndTotals(cfg, s, trace, Candidates);
    LogIsComplete(cfg, View(s.store), End(cfg, idx, s, trace).log);
  }

  lemma LogIsComplete(cfg: Config, view: map<nat, seq<byte>>, log: SlotLog)
    requires LogOk(cfg, log) && DecidedAll(cfg, view, log) && forall k :: k in cfg.plan ==> Over(cfg, log, k)
    ensures Complete(cfg, view, log)
  {
  }

  /** A run that was shared in full redirects all its destination chunks. */
  lemma HomeIfShared(cfg: Config, idx: Index, st: Store, log: SlotLog, k: PairKey, i: nat, l: Loc)
    requires Good(cfg, idx) && Wf(st) && Tree(cfg, st) && HasRun(cfg.plan, k, i) && Covers(cfg.plan[k][i], l)
    requires RunSlot(k, i) in log && SharesRun(cfg, RunSlot(k, i), log[RunSlot(k, i)])
    requires Current(cfg, Begin(k, i)) && log[RunSlot(k, i)].bytes == LenOn(cfg, Begin(k, i), true)
    ensures Home(cfg, log, l) == SourceOf(cfg.plan[k][i], l)
  {
    RunInChunks(cfg, idx, st, k, i);
    assert Prefix(cfg.plan[k][i], log[RunSlot(k, i)].bytes, k.blksz) == cfg.plan[k][i];
    assert RedirectsTo(cfg, log, k, i, l, SourceOf(cfg.plan[k][i], l));
    HomeIs(cfg, idx, log, k, i, l, SourceOf(cfg.plan[k][i], l));
  }

  /** A run that was not shared leaves its destination chunks where they were. */
  lemma HomeIfNot(cfg: Config, idx: Index, log: SlotLog, k: PairKey, i: nat, l: Loc)
    requires Good(cfg, idx) && HasRun(cfg.plan, k, i) && Covers(cfg.plan[k][i], l)
    requires RunSlot(k, i) in log && !SharesRun(cfg, RunSlot(k, i), log[RunSlot(k, i)])
    ensures Home(cfg, log, l) == l
  {
    if k', i': nat, n :| RedirectsTo(cfg, log, k', i', l, n) {
      PrefixCovers(cfg.plan[k'][i'], log[RunSlot(k', i')].bytes, k'.blksz, l);
      CoveredOnce(cfg, idx, k, i, k', i', l);
    }
  }

  /** The store at the end of every complete run, from the initial store and contents alone. */
  lemma FinalBlocks(cfg: Config, idx: Index, s: State, trace: seq<Event>, k: PairKey, i: nat, l: Loc)
    requires Completes(cfg, idx, s, trace) && HasRun(cfg.plan, k, i) && Covers(cfg.plan[k][i], l)
    ensures BlockAt(End(cfg, idx, s, trace).store, l)
            == BlockAt(s.store, if Matching(cfg, View(s.store), k, i) && !cfg.opts.dryRun
                                then SourceOf(cfg.plan[k][i], l) else l)
    ensures BlockAt(End(cfg, idx, s, trace).store, SourceOf(cfg.plan[k][i], l))
            == BlockAt(s.store, SourceOf(cfg.plan[k][i], l))
  {
    var t := End(cfg, idx, s, trace);
    var m := SourceOf(cfg.plan[k][i], l);
    EndIsComplete(cfg, idx, s, trace);
    assert PlacedAt(cfg, s.store, t.store, t.log, l) && PlacedAt(cfg, s.store, t.store, t.log, m);
    SourceStaysHome(cfg, idx, t.log, k, i, l);
    assert RunSlot(k, i) in t.log && t.log[RunSlot(k, i)] == Decided(cfg, View(s.store), RunSlot(k, i));
    if Matching(cfg, View(s.store), k, i) && !cfg.opts.dryRun {
      HomeIfShared(cfg, idx, s.store, t.log, k, i, l);
    } else {
      HomeIfNot(cfg, idx, t.log, k, i, l);
    }
  }

  /** Chunks no run covers keep their blocks. */
  lemma UncoveredBlocks(cfg: Config, idx: Index, s: State, trace: seq<Event>, l: Loc)
    requires Completes(cfg, idx, s, trace)
    requires forall k, i: nat :: HasRun(cfg.plan, k, i) ==> !Covers(cfg.plan[k][i], l)
    ensures BlockAt(End(cfg, idx, s, trace).store, l) == BlockAt(s.store, l)
  {
    var t := End(cfg, idx, s, trace);
    EndIsComplete(cfg, idx, s, trace);
    assert PlacedAt(cfg, s.store, t.store, t.log, l);
    if k, i: nat, m :| RedirectsTo(cfg, t.log, k, i, l, m) {
      PrefixCovers(cfg.plan[k][i], t.log[RunSlot(k, i)].bytes, k.blksz, l);
      assert false;
    }
  }

  lemma SameBlocks(a: Store, b: Store, f: nat)
    requires f in a.files && f in b.files && SameButPointers(a.files[f], b.files[f])
    requires forall l: Loc :: BlockAt(a, l) == BlockAt(b, l)
    ensures a.files[f] == b.files[f]
  {
    forall c | 0 <= c < |a.files[f].blocks| ensures a.files[f].blocks[c] == b.files[f].blocks[c] {
      assert BlockAt(a, Loc(f, c)) == BlockAt(b, Loc(f, c));
    }
  }

  /**
   * With no writers, and every open, read and clone succeeding in full: the final block pointers, the outcome of
   * every run and the summed counters are the same for every order of the pairs, every schedule and every
   * number of workers.
   */
  lemma ScheduleIndependence(cfg: Config, idx: Index, s: State, trace: seq<Event>, s': State, trace': seq<Event>)
    requires Completes(cfg, idx, s, trace) && Completes(cfg, idx, s', trace') && s.store == s'.store
    ensures var t, t' := End(cfg, idx, s, trace), End(cfg, idx, s', trace');
            && t.store == t'.store && t.log == t'.log
            && forall c: Counter :: Total(t.workers, c) == Total(t'.workers, c)
  {
    var t, t' := End(cfg, idx, s, trace), End(cfg, idx, s', trace');
    EndIsComplete(cfg, idx, s, trace);
    EndIsComplete(cfg, idx, s', trace');
    assert t.log == t'.log;
    forall c: Counter ensures Total(t.workers, c) == Total(t'.workers, c) {
      EndTotals(cfg, s, trace, c);
      EndTotals(cfg, s', trace', c);
    }
    forall l: Loc ensures BlockAt(t.store, l) == BlockAt(t'.store, l) {
      assert PlacedAt(cfg, s.store, t.store, t.log, l) && PlacedAt(cfg, s.store, t'.store, t.log, l);
    }
    forall f | f in t.store.files ensures t.store.files[f] == t'.store.files[f] {
      SameBlocks(t.store, t'.store, f);
    }
    assert t.store.files == t'.store.files;
  }

  // ---- some worker can always go on ------------------------------------------------------

  /** The next clean act of a worker inside a pair. */
  ghost function Onward(cfg: Config, st: Store, pc: Pc): Act
    requires Wf(st) && pc.In? && pc.k in cfg.plan
  {
    if !Current(cfg, pc) then Close
    else match pc.phase
         case HaveSrc(_) => ReadDst(None)
         case HaveBoth(_, _) => Compare
         case Equal => Clone(None)
         case Start =>
           if cfg.opts.Compare() then ReadSrc(None)
           else if Matching(cfg, View(st), pc.k, pc.i) then Dedupe(Same(LenOn(cfg, pc, true)))
           else Dedupe(Differs)
  }

  lemma CanStart(cfg: Config, idx: Index, st: Store, pc: Pc)
    requires Good(cfg, idx) && Wf(st) && Tree(cfg, st) && Holding(cfg, pc, View(st))
    requires pc.In? && HasRun(cfg.plan, pc.k, pc.i) && pc.phase.Start?
    ensures Clean(cfg, pc, Onward(cfg, st, pc)) && Do(cfg, st, pc, Onward(cfg, st, pc)).Some?
  {
    RunIsClonable(cfg, idx, st, pc.k, pc.i);
    RunIsCurrent(cfg, idx, st, pc.k, pc.i);
    SameRanges(cfg, pc);
  }

  lemma CanContinue(cfg: Config, idx: Index, st: Store, pc: Pc)
    requires Good(cfg, idx) && Wf(st) && Tree(cfg, st) && Holding(cfg, pc, View(st))
    requires pc.In? && HasRun(cfg.plan, pc.k, pc.i) && !pc.phase.Start?
    ensures Clean(cfg, pc, Onward(cfg, st, pc)) && Do(cfg, st, pc, Onward(cfg, st, pc)).Some?
  {
    RunIsClonable(cfg, idx, st, pc.k, pc.i);
    SameRanges(cfg, pc);
  }

  lemma CanGoOn(cfg: Config, idx: Index, st: Store, pc: Pc)
    requires Good(cfg, idx) && Wf(st) && Tree(cfg, st) && Holding(cfg, pc, View(st))
    requires pc.In? && pc.k in cfg.plan && pc.i <= |cfg.plan[pc.k]|
    ensures Clean(cfg, pc, Onward(cfg, st, pc)) && Do(cfg, st, pc, Onward(cfg, st, pc)).Some?
  {
    if HasRun(cfg.plan, pc.k, pc.i) {
      if pc.phase.Start? {
        CanStart(cfg, idx, st, pc);
      } else {
        CanContinue(cfg, idx, st, pc);
      }
    }
  }

  lemma ThisWorkerCanGoOn(cfg: Config, idx: Index, st0: Store, t: State, w: nat) returns (e: Event)
    requires Good(cfg, idx) && Wf(st0) && Steady(cfg, idx, st0, t) && w < |t.workers| && t.workers[w].pc.In?
    ensures CleanEvent(cfg, t, e) && Next(cfg, t, e).Some?
  {
    assert WorkerOk(cfg, t, w) && Holding(cfg, t.workers[w].pc, View(st0));
    CanGoOn(cfg, idx, t.store, t.workers[w].pc);
    e := Work(w, Onward(cfg, t.store, t.workers[w].pc));
    assert !e.a.Open?;
  }

  lemma SomeWorkerCanGoOn(cfg: Config, idx: Index, st0: Store, t: State) returns (e: Event)
    requires Good(cfg, idx) && Wf(st0) && Steady(cfg, idx, st0, t) && t.workers != [] && !Finished(t)
    ensures CleanEvent(cfg, t, e) && Next(cfg, t, e).Some?
  {
    if w: nat :| w < |t.workers| && t.workers[w].pc.In? {
      e := ThisWorkerCanGoOn(cfg, idx, st0, t, w);
    } else {
      var k :| k in t.pending;
      assert t.workers[0].pc == Idle;
      e := Work(0, Open(k, Ok((k.src, k.dst))));
      assert DoOpen(t.workers[0].pc, k, Ok((k.src, k.dst)), t.store).Some?;
    }
  }

  lemma WorkersStay(cfg: Config, s: State, trace: seq<Event>)
    requires Initial(cfg, s) && After(cfg, s, trace).Some?
    ensures |After(cfg, s, trace).value.workers| == |s.workers|
  {
    RunAdvances(cfg, s, trace);
  }

  lemma OneMoreEvent(cfg: Config, s: State, trace: seq<Event>, e: Event)
    requires Wf(s.store) && CleanRun(cfg, s, trace) && After(cfg, s, trace).Some?
    requires CleanEvent(cfg, After(cfg, s, trace).value, e) && Next(cfg, After(cfg, s, trace).value, e).Some?
    ensures CleanRun(cfg, s, trace + [e])
    ensures After(cfg, s, trace + [e]) == Next(cfg, After(cfg, s, trace).value, e)
  {
    assert (trace + [e])[..|trace|] == trace;
  }

  /** Until the phase is finished some clean event is possible. */
  lemma CleanRunsGoOn(cfg: Config, idx: Index, s: State, trace: seq<Event>) returns (e: Event)
    requires Good(cfg, idx) && Initial(cfg, s) && Tree(cfg, s.store) && s.workers != []
    requires CleanRun(cfg, s, trace) && After(cfg, s, trace).Some? && !Finished(After(cfg, s, trace).value)
    ensures CleanRun(cfg, s, trace + [e]) && After(cfg, s, trace + [e]).Some?
  {
    var t := After(cfg, s, trace).value;
    CleanRunIsSteady(cfg, idx, s, trace);
    WorkersStay(cfg, s, trace);
    e := SomeWorkerCanGoOn(cfg, idx, s.store, t);
    OneMoreEvent(cfg, s, trace, e);
  }

  lemma {:induction false} CleanRunsWork(cfg: Config, s: State, trace: seq<Event>)
    requires Wf(s.store) && CleanRun(cfg, s, trace)
    ensures Works(trace) == |trace|
  {
    if trace == [] {
    } else {
      CleanRunsWork(cfg, s, trace[..|trace| - 1]);
    }
  }

  /** Every clean run can be continued to one that completes, so there are complete runs of every tree. */
  lemma {:induction false} CleanRunsComplete(cfg: Config, idx: Index, s: State, trace: seq<Event>)
    returns (full: seq<Event>)
    requires Good(cfg, idx) && Initial(cfg, s) && Tree(cfg, s.store) && s.workers != []
    requires CleanRun(cfg, s, trace) && After(cfg, s, trace).Some?
    ensures trace <= full && Completes(cfg, idx, s, full)
    decreases 4 * |Slots(cfg.plan)| + 3 * |s.workers| - |trace|
  {
    if Finished(After(cfg, s, trace).value) {
      full := trace;
    } else {
      var e := CleanRunsGoOn(cfg, idx, s, trace);
      RunIsBounded(cfg, s, trace + [e]);
      CleanRunsWork(cfg, s, trace + [e]);
      full := CleanRunsComplete(cfg, idx, s, trace + [e]);
    }
  }
}
