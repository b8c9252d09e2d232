/**
 * The code of the dedup phase (`Worker` and `dedup` in src/dedup.rs). Every call it makes is a step of DedupSteps, so
 * what holds of all runs of the step system holds of it.
 */
module DedupWorker {
  import opened Base
  import opened CacheTable
  import opened Hashing
  import opened DupIndex
  import opened Coalescing
  import opened RunPlanner
  import opened PlanFacts
  import opened BlockStore
  import opened DedupSteps
  import opened Safety
  import opened Accounting
  import opened SystemCalls

  function OutcomeOf(r: Result<Option<nat>, IoErr>): Outcome {
    match r
    case Ok(Some(bytes)) => Verified(bytes)
    case Ok(None) => Mismatch
    case Err(e) => Failed(e)
  }

  // ---- which calls are made, and what becomes of their answers -----------------------------

  /** With both ranges read: a clone if they are equal, unless nothing is to be changed. */
  predicate Finishes(opts: Opts, src: Range, dst: Range, equal: bool, made: seq<Call>, r: Result<Option<nat>, IoErr>) {
    if !equal then made == [] && r == Ok(None)
    else if opts.dryRun then made == [] && r == Ok(Some(src.len))
    else
      && |made| == 1 && made[0].CloneCall? && made[0].src == src && made[0].dst == dst
      && r == (if made[0].err.Some? then Err(made[0].err.value) else Ok(Some(src.len)))
  }

  /** With the source read as `bufA`: the destination is read and compared with it. */
  predicate Compares(opts: Opts, src: Range, dst: Range, bufA: seq<byte>, made: seq<Call>,
                     r: Result<Option<nat>, IoErr>) {
    && made != [] && made[0].ReadCall? && made[0].range == dst
    && match made[0].data
       case Err(e) => |made| == 1 && r == Err(e)
       case Ok(bufB) => Finishes(opts, src, dst, bufA == bufB, made[1..], r)
  }

  lemma ReadThenCompare(calls: seq<Call>, dst: Range, bufB: seq<byte>, made: seq<Call>, opts: Opts, src: Range,
                        bufA: seq<byte>, r: Result<Option<nat>, IoErr>)
    requires Finishes(opts, src, dst, bufA == bufB, made, r)
    ensures Compares(opts, src, dst, bufA, [ReadCall(dst, Ok(bufB))] + made, r)
    ensures calls + [ReadCall(dst, Ok(bufB))] + made == calls + ([ReadCall(dst, Ok(bufB))] + made)
  {
    assert ([ReadCall(dst, Ok(bufB))] + made)[1..] == made;
    Associate(calls, [ReadCall(dst, Ok(bufB))], made);
  }

  /** One dedupe; or the source is read, and the rest follows. */
  predicate Tries(opts: Opts, src: Range, dst: Range, made: seq<Call>, r: Result<Option<nat>, IoErr>) {
    && made != []
    && if opts.Compare() then
         && made[0].ReadCall? && made[0].range == src
         && match made[0].data
            case Err(e) => |made| == 1 && r == Err(e)
            case Ok(bufA) => Compares(opts, src, dst, bufA, made[1..], r)
       else
         && |made| == 1 && made[0].DedupeCall? && made[0].src == src && made[0].dst == dst
         && match made[0].res
            case Same(b) => r == Ok(Some(b))
            case Differs => r == Ok(None)
            case DedupeErr(e) => r == Err(e)
  }

  lemma ReadThenTry(calls: seq<Call>, src: Range, bufA: seq<byte>, made: seq<Call>, opts: Opts, dst: Range,
                    r: Result<Option<nat>, IoErr>)
    requires opts.Compare() && Compares(opts, src, dst, bufA, made, r)
    ensures Tries(opts, src, dst, [ReadCall(src, Ok(bufA))] + made, r)
    ensures calls + [ReadCall(src, Ok(bufA))] + made == calls + ([ReadCall(src, Ok(bufA))] + made)
  {
    assert ([ReadCall(src, Ok(bufA))] + made)[1..] == made;
    Associate(calls, [ReadCall(src, Ok(bufA))], made);
  }

  ghost predicate Tried(opts: Opts, src: Range, dst: Range, made: seq<Call>, o: Outcome) {
    exists r :: Tries(opts, src, dst, made, r) && o == OutcomeOf(r)
  }

  /** The calls for the run at `pc` and what it was settled as: none if it is skipped. */
  ghost predicate RunCalls(cfg: Config, pc: Pc, made: seq<Call>, o: Outcome) {
    && Current(cfg, pc)
    && if !LensOk(cfg, pc) then made == [] && o == Skipped
       else Tried(cfg.opts, SrcRange(cfg, pc), DstRange(cfg, pc), made, o)
  }

  /** The source is opened for reading, then the destination, for writing unless dry; the first failure decides. */
  predicate Opens(opts: Opts, k: PairKey, made: seq<Call>, fds: Result<(nat, nat), IoErr>) {
    && made != [] && made[0].OpenCall? && made[0].file == k.src && !made[0].write
    && match made[0].fd
       case Err(e) => |made| == 1 && fds == Err(e)
       case Ok(sf) =>
         && |made| == 2 && made[1].OpenCall? && made[1].file == k.dst && made[1].write == !opts.dryRun
         && match made[1].fd
            case Err(e) => fds == Err(e)
            case Ok(df) => fds == Ok((sf, df))
  }

  function AllCalls(per: seq<seq<Call>>): seq<Call> {
    if per == [] then [] else AllCalls(per[..|per| - 1]) + per[|per| - 1]
  }

  ghost predicate RunCalled(cfg: Config, pc: Pc, made: seq<Call>, log: SlotLog) {
    pc.In? && RunSlot(pc.k, pc.i) in log && RunCalls(cfg, pc, made, log[RunSlot(pc.k, pc.i)])
  }

  lemma CalledOnce(cfg: Config, pc: Pc, made: seq<Call>, log: SlotLog, log': SlotLog)
    requires RunCalled(cfg, pc, made, log) && Grows(log, log')
    ensures RunCalled(cfg, pc, made, log')
  {
  }

  /** The first `|per|` runs of a pair that was opened as `sf` and `df`, their calls and what they were settled as. */
  ghost predicate RunsCalled(cfg: Config, k: PairKey, sf: nat, df: nat, per: seq<seq<Call>>, log: SlotLog) {
    forall i: nat :: i < |per| ==> RunCalled(cfg, In(k, sf, df, i, Start), per[i], log)
  }

  lemma OneMoreRun(cfg: Config, k: PairKey, sf: nat, df: nat, per: seq<seq<Call>>, log: SlotLog, made: seq<Call>,
                   log': SlotLog)
    requires RunsCalled(cfg, k, sf, df, per, log) && Grows(log, log')
    requires RunCalled(cfg, In(k, sf, df, |per|, Start), made, log')
    ensures RunsCalled(cfg, k, sf, df, per + [made], log')
  {
    forall i: nat | i < |per + [made]| ensures RunCalled(cfg, In(k, sf, df, i, Start), (per + [made])[i], log') {
      if i < |per| {
        CalledOnce(cfg, In(k, sf, df, i, Start), per[i], log, log');
      }
    }
  }

  lemma AllCallsSnoc(calls: seq<Call>, per: seq<seq<Call>>, made: seq<Call>)
    ensures calls + AllCalls(per + [made]) == calls + AllCalls(per) + made
  {
    assert (per + [made])[..|per|] == per;
    Associate(calls, AllCalls(per), made);
  }

  lemma StillCalled(cfg: Config, k: PairKey, sf: nat, df: nat, per: seq<seq<Call>>, log: SlotLog, log': SlotLog)
    requires RunsCalled(cfg, k, sf, df, per, log) && Grows(log, log')
    ensures RunsCalled(cfg, k, sf, df, per, log')
  {
    forall i: nat | i < |per| ensures RunCalled(cfg, In(k, sf, df, i, Start), per[i], log') {
      CalledOnce(cfg, In(k, sf, df, i, Start), per[i], log, log');
    }
  }

  ghost predicate Begun(cfg: Config, pc: Pc) {
    pc.In? && pc.k in cfg.plan && pc.k.src < |cfg.files| && pc.k.dst < |cfg.files| && pc.i == 0 && pc.phase.Start?
  }

  /** All calls for a pair: its two opens, and if both succeed, those of every run, on these descriptors. */
  ghost predicate PairCalls(cfg: Config, k: PairKey, fds: Result<(nat, nat), IoErr>, opens: seq<Call>,
                            per: seq<seq<Call>>, log: SlotLog) {
    && k in cfg.plan && Opens(cfg.opts, k, opens, fds) && OpenSlot(k) in log
    && match fds
       case Err(e) => per == [] && log[OpenSlot(k)] == Failed(e)
       case Ok((sf, df)) =>
         log[OpenSlot(k)] == Opened && |per| == |cfg.plan[k]| && RunsCalled(cfg, k, sf, df, per, log)
  }

  lemma SamePlace(cfg: Config, pc: Pc, phase: Phase)
    requires Current(cfg, pc)
    ensures var pc' := pc.(phase := phase);
            && Current(cfg, pc') && SrcRange(cfg, pc') == SrcRange(cfg, pc) && DstRange(cfg, pc') == DstRange(cfg, pc)
  {
  }

  lemma EqualSettles(s: State, t: State, u: State, me: nat, o: Outcome, added: Stats)
    requires Advanced(s, t, me, Equal, ZERO) && Settles(t, u, me, o, added)
    ensures Settles(s, u, me, o, added)
  {
    AdvancedSettles(s, t, u, me, Equal, ZERO, o, added);
    AddAssociates(added, ZERO, ZERO);
  }

  lemma CountsUp(opts: Opts, stats: Stats, slot: Slot)
    requires slot.RunSlot?
    ensures forall r: Result<Option<nat>, IoErr> ::
              Add(stats.(candidates := stats.candidates + 1), Settle(opts, OutcomeOf(r)))
              == Add(stats, Tally(opts, slot, OutcomeOf(r)))
  {
  }

  class Worker {
    const files: seq<Hashed>
    const opts: Opts
    const kernel: Kernel
    var bufA: seq<byte>
    var bufB: seq<byte>
    var stats: Stats

    constructor (files: seq<Hashed>, opts: Opts, kernel: Kernel)
      ensures this.files == files && this.opts == opts && this.kernel == kernel && stats == ZERO
    {
      this.files, this.opts, this.kernel := files, opts, kernel;
      bufA, bufB := [], [];
      stats := ZERO;
    }

    /** The kernel runs this worker's phase, and has seen it count what it counted. */
    ghost predicate Valid()
      reads this, kernel
    {
      && kernel.Valid() && kernel.cfg.files == files && kernel.cfg.opts == opts
      && stats == kernel.now.workers[kernel.me].stats
    }

    method VerifyAndClone(src: Range, dst: Range, compare: bool)
      returns (r: Result<Option<nat>, IoErr>, ghost made: seq<Call>)
      requires kernel.Valid() && Ready(kernel.cfg, kernel.Place()) && compare == kernel.cfg.opts.Compare()
      requires kernel.cfg.opts == opts
      requires src == SrcRange(kernel.cfg, kernel.Place()) && dst == DstRange(kernel.cfg, kernel.Place())
      modifies `bufA, `bufB, kernel`now, kernel`trace, kernel`mine, kernel`calls
      ensures kernel.Valid() && kernel.mine == old(kernel.mine)
      ensures kernel.calls == old(kernel.calls) + made && Tries(opts, src, dst, made, r)
      ensures var pc := old(kernel.Place());
              Settles(old(kernel.now), kernel.now, kernel.me, OutcomeOf(r),
                      Tally(opts, RunSlot(pc.k, pc.i), OutcomeOf(r)))
    {
      if !compare {
        var res := kernel.DedupeRange(src, dst);
        made := [DedupeCall(src, dst, res)];
        match res {
          case Same(b) => return Ok(Some(b)), made;
          case Differs => return Ok(None), made;
          case DedupeErr(e) => return Err(e), made;
        }
      }
      var a := kernel.ReadSource(src);
      made := [ReadCall(src, a)];
      if a.Err? {
        return Err(a.error), made;
      }
      bufA := a.value;
      ghost var read := kernel.now;
      ghost var more;
      r, more := CompareAndClone(src, dst);
      made := made + more;
      ReadThenTry(old(kernel.calls), src, bufA, more, opts, dst, r);
      AdvancedSettles(old(kernel.now), read, kernel.now, kernel.me, HaveSrc(bufA), CANDIDATE,
                      OutcomeOf(r), Settle(opts, OutcomeOf(r)));
    }

    // With the source read.
    method CompareAndClone(src: Range, dst: Range)
      returns (r: Result<Option<nat>, IoErr>, ghost made: seq<Call>)
      requires kernel.Valid() && Current(kernel.cfg, kernel.Place()) && kernel.cfg.opts == opts
      requires kernel.Place().phase == HaveSrc(bufA)
      requires src == SrcRange(kernel.cfg, kernel.Place()) && dst == DstRange(kernel.cfg, kernel.Place())
      modifies `bufB, kernel`now, kernel`trace, kernel`mine, kernel`calls
      ensures kernel.Valid() && kernel.mine == old(kernel.mine)
      ensures kernel.calls == old(kernel.calls) + made && Compares(opts, src, dst, bufA, made, r)
      ensures Settles(old(kernel.now), kernel.now, kernel.me, OutcomeOf(r), Settle(opts, OutcomeOf(r)))
    {
      var b := kernel.ReadDest(dst);
      made := [ReadCall(dst, b)];
      if b.Err? {
        return Err(b.error), made;
      }
      bufB := b.value;
      ghost var both := kernel.now;
      ghost var more;
      r, more := CloneIfEqual(src, dst);
      made := made + more;
      ReadThenCompare(old(kernel.calls), dst, bufB, more, opts, src, bufA, r);
      AdvancedSettles(old(kernel.now), both, kernel.now, kernel.me, HaveBoth(bufA, bufB), ZERO,
                      OutcomeOf(r), Settle(opts, OutcomeOf(r)));
      AddAssociates(Settle(opts, OutcomeOf(r)), ZERO, ZERO);
    }

    // With both equal.
    method CloneEqual(src: Range, dst: Range) returns (r: Result<Option<nat>, IoErr>, ghost made: seq<Call>)
      requires kernel.Valid() && Current(kernel.cfg, kernel.Place()) && kernel.cfg.opts == opts && !opts.dryRun
      requires kernel.Place().phase.Equal?
      requires src == SrcRange(kernel.cfg, kernel.Place()) && dst == DstRange(kernel.cfg, kernel.Place())
      modifies kernel`now, kernel`trace, kernel`mine, kernel`calls
      ensures kernel.Valid() && kernel.mine == old(kernel.mine)
      ensures kernel.calls == old(kernel.calls) + made && Finishes(opts, src, dst, true, made, r)
      ensures Settles(old(kernel.now), kernel.now, kernel.me, OutcomeOf(r), Settle(opts, OutcomeOf(r)))
    {
      var err := kernel.CloneRange(src, dst);
      made := [CloneCall(src, dst, err)];
      r := if err.Some? then Err(err.value) else Ok(Some(src.len));
    }

    // With both read.
    method CloneIfEqual(src: Range, dst: Range) returns (r: Result<Option<nat>, IoErr>, ghost made: seq<Call>)
      requires kernel.Valid() && Current(kernel.cfg, kernel.Place()) && kernel.cfg.opts == opts
      requires kernel.Place().phase == HaveBoth(bufA, bufB)
      requires src == SrcRange(kernel.cfg, kernel.Place()) && dst == DstRange(kernel.cfg, kernel.Place())
      modifies kernel`now, kernel`trace, kernel`mine, kernel`calls
      ensures kernel.Valid() && kernel.mine == old(kernel.mine)
      ensures kernel.calls == old(kernel.calls) + made && Finishes(opts, src, dst, bufA == bufB, made, r)
      ensures Settles(old(kernel.now), kernel.now, kernel.me, OutcomeOf(r), Settle(opts, OutcomeOf(r)))
    {
      made := [];
      if bufA != bufB {
        kernel.Differ();
        return Ok(None), made;
      }
      kernel.Agree(src.len);
      if !opts.dryRun {
        ghost var equal := kernel.now;
        SamePlace(kernel.cfg, old(kernel.Place()), Equal);
        r, made := CloneEqual(src, dst);
        EqualSettles(old(kernel.now), equal, kernel.now, kernel.me, OutcomeOf(r), Settle(opts, OutcomeOf(r)));
      } else {
        r := Ok(Some(src.len));
      }
    }

    // The counters of one candidate, by how it went.
    method Count(r: Result<Option<nat>, IoErr>)
      modifies `stats
      ensures stats == Add(old(stats), Settle(opts, OutcomeOf(r)))
    {
      match r {
        case Ok(Some(bytes)) =>
          stats := stats.(verified := stats.verified + 1);
          if !opts.dryRun {
            stats := stats.(cloned := stats.cloned + 1);
          }
          stats := stats.(bytes := stats.bytes + bytes);
        case Ok(None) =>
          stats := stats.(mismatches := stats.mismatches + 1);
        case Err(e) =>
          match e {
            case NotFound => // vanished or shrank since it was hashed
            case InUse => stats := stats.(busy := stats.busy + 1);
            case Other => stats := stats.(errors := stats.errors + 1);
          }
      }
    }

    // A candidate is counted, compared and shared, and its outcome counted.
    method Attempt(src: Range, dst: Range) returns (ghost o: Outcome, ghost made: seq<Call>)
      requires Valid() && Ready(kernel.cfg, kernel.Place())
      requires src == SrcRange(kernel.cfg, kernel.Place()) && dst == DstRange(kernel.cfg, kernel.Place())
      modifies `bufA, `bufB, `stats, kernel`now, kernel`trace, kernel`mine, kernel`calls
      ensures Valid() && kernel.mine == old(kernel.mine) && kernel.calls == old(kernel.calls) + made
      ensures Tried(opts, src, dst, made, o)
      ensures var pc := old(kernel.Place());
              Settles(old(kernel.now), kernel.now, kernel.me, o, Tally(opts, RunSlot(pc.k, pc.i), o))
    {
      CountsUp(opts, stats, RunSlot(kernel.Place().k, kernel.Place().i));
      stats := stats.(candidates := stats.candidates + 1);
      var r;
      r, made := VerifyAndClone(src, dst, opts.Compare());
      o := OutcomeOf(r);
      Count(r);
    }

    // How many bytes the run covers in both files, if they agree.
    method Lengths(run: Run) returns (len: nat, agree: bool)
      requires Valid() && Current(kernel.cfg, kernel.Place())
      requires run == kernel.cfg.plan[kernel.Place().k][kernel.Place().i]
      ensures len == LenOn(kernel.cfg, kernel.Place(), true) && (agree <==> LensOk(kernel.cfg, kernel.Place()))
    {
      var k := kernel.Place().k;
      len := RunLen(files[k.src].size, run.src.chunk, run.chunks, k.blksz);
      agree := len != 0 && len == RunLen(files[k.dst].size, run.dst.chunk, run.chunks, k.blksz);
    }

    method Ranges(run: Run, len: nat) returns (src: Range, dst: Range)
      requires Valid() && Current(kernel.cfg, kernel.Place()) && len == LenOn(kernel.cfg, kernel.Place(), true)
      requires run == kernel.cfg.plan[kernel.Place().k][kernel.Place().i]
      ensures src == SrcRange(kernel.cfg, kernel.Place()) && dst == DstRange(kernel.cfg, kernel.Place())
    {
      var pc := kernel.Place();
      src := Range(pc.sf, run.src.chunk * pc.k.blksz, len);
      dst := Range(pc.df, run.dst.chunk * pc.k.blksz, len);
    }

    method PassOver()
      requires Valid() && Current(kernel.cfg, kernel.Place()) && kernel.Place().phase.Start?
      requires !LensOk(kernel.cfg, kernel.Place())
      modifies kernel`now, kernel`trace, kernel`mine
      ensures Valid() && kernel.mine == old(kernel.mine)
      ensures var pc := old(kernel.Place());
              Settles(old(kernel.now), kernel.now, kernel.me, Skipped, Tally(opts, RunSlot(pc.k, pc.i), Skipped))
    {
      AddAssociates(stats, ZERO, ZERO);
      kernel.Pass();
    }

    // One run of an open pair.
    method TryRun(run: Run) returns (ghost o: Outcome, ghost made: seq<Call>)
      requires Valid() && Current(kernel.cfg, kernel.Place()) && kernel.Place().phase.Start?
      requires run == kernel.cfg.plan[kernel.Place().k][kernel.Place().i]
      modifies `bufA, `bufB, `stats, kernel`now, kernel`trace, kernel`mine, kernel`calls
      ensures Valid() && kernel.mine == old(kernel.mine)
      ensures kernel.calls == old(kernel.calls) + made && RunCalls(kernel.cfg, old(kernel.Place()), made, o)
      ensures var pc := old(kernel.Place());
              Settles(old(kernel.now), kernel.now, kernel.me, o, Tally(opts, RunSlot(pc.k, pc.i), o))
    {
      var len, agree := Lengths(run);
      if !agree {
        PassOver(); // the recorded sizes no longer pair up
        o, made := Skipped, [];
      } else {
        var src, dst := Ranges(run, len);
        o, made := Attempt(src, dst);
      }
    }

    // Both files are opened before any run; the source read-only.
    method OpenBoth(k: PairKey) returns (fds: Result<(nat, nat), IoErr>, ghost made: seq<Call>)
      requires kernel.Valid() && kernel.Place() == Idle && k in kernel.mine
      modifies kernel
      ensures kernel.Valid() && kernel.mine == old(kernel.mine) - {k}
      ensures TookPair(old(kernel.now), kernel.now, kernel.me, k, fds)
      ensures kernel.calls == old(kernel.calls) + made && Opens(opts, k, made, fds)
    {
      var sf := kernel.Open(k.src, false);
      made := [OpenCall(k.src, false, sf)];
      if sf.Err? {
        kernel.Take(k, Err(sf.error), old(kernel.now));
        return Err(sf.error), made; // the destination is not tried
      }
      ghost var mid := kernel.now;
      var df := kernel.Open(k.dst, !opts.dryRun);
      made := made + [OpenCall(k.dst, !opts.dryRun, df)];
      WaitedOn(old(kernel.now), mid, kernel.now, kernel.me, kernel.mine);
      fds := if df.Ok? then Ok((sf.value, df.value)) else Err(df.error);
      kernel.Take(k, fds, old(kernel.now));
    }

    // A pair that could not be opened counts once, unless a file is gone.
    method CountFailedOpen(e: IoErr)
      modifies `stats
      ensures stats == Add(old(stats), OfError(e))
    {
      match e {
        case NotFound =>
        case InUse => stats := stats.(busy := stats.busy + 1);
        case Other => stats := stats.(errors := stats.errors + 1);
      }
    }

    // The next run; `per0` are the calls for those before.
    method NextRun(run: Run, ghost per0: seq<seq<Call>>) returns (ghost per: seq<seq<Call>>)
      requires Valid() && Current(kernel.cfg, kernel.Place()) && kernel.Place().phase.Start?
      requires run == kernel.cfg.plan[kernel.Place().k][kernel.Place().i] && |per0| == kernel.Place().i
      requires var pc := kernel.Place(); RunsCalled(kernel.cfg, pc.k, pc.sf, pc.df, per0, kernel.now.log)
      modifies this, kernel
      ensures Valid() && kernel.mine == old(kernel.mine) && kernel.now.pending <= old(kernel.now.pending)
      ensures Grows(old(kernel.now.log), kernel.now.log)
      ensures kernel.Place() == old(kernel.Place()).(i := |per|) && |per| == |per0| + 1
      ensures forall calls :: old(kernel.calls) == calls + AllCalls(per0) ==> kernel.calls == calls + AllCalls(per)
      ensures var pc := kernel.Place(); RunsCalled(kernel.cfg, pc.k, pc.sf, pc.df, per, kernel.now.log)
    {
      ghost var pc, before := kernel.Place(), kernel.now.log;
      ghost var o, made := TryRun(run);
      per := per0 + [made];
      OneMoreRun(kernel.cfg, pc.k, pc.sf, pc.df, per0, before, made, kernel.now.log);
      forall calls | old(kernel.calls) == calls + AllCalls(per0) ensures kernel.calls == calls + AllCalls(per) {
        AllCallsSnoc(calls, per0, made);
      }
    }

    // The runs of an open pair, in order, and the end of it.
    method Runs(runs: seq<Run>) returns (ghost per: seq<seq<Call>>)
      requires Valid() && Begun(kernel.cfg, kernel.Place()) && runs == kernel.cfg.plan[kernel.Place().k]
      modifies this, kernel
      ensures Valid() && kernel.Place() == Idle && kernel.mine == old(kernel.mine)
      ensures kernel.now.pending <= old(kernel.now.pending) && Grows(old(kernel.now.log), kernel.now.log)
      ensures Over(kernel.cfg, kernel.now.log, old(kernel.Place()).k)
      ensures kernel.calls == old(kernel.calls) + AllCalls(per) && |per| == |runs|
      ensures var pc := old(kernel.Place()); RunsCalled(kernel.cfg, pc.k, pc.sf, pc.df, per, kernel.now.log)
    {
      ghost var k, sf, df := kernel.Place().k, kernel.Place().sf, kernel.Place().df;
      per := [];
      var i := 0;
      while i < |runs|
        invariant 0 <= i <= |runs| && Valid() && kernel.mine == old(kernel.mine)
        invariant kernel.now.pending <= old(kernel.now.pending) && Grows(old(kernel.now.log), kernel.now.log)
        invariant kernel.Place() == In(k, sf, df, i, Start)
        invariant |per| == i && kernel.calls == old(kernel.calls) + AllCalls(per)
        invariant RunsCalled(kernel.cfg, k, sf, df, per, kernel.now.log)
      {
        per := NextRun(runs[i], per);
        i := i + 1;
      }
      ghost var before := kernel.now.log;
      kernel.Leave();
      StillCalled(kernel.cfg, k, sf, df, per, before, kernel.now.log);
    }

    // A file pair, from its two opens to its last run.
    method Pair(k: PairKey, runs: seq<Run>)
      returns (ghost fds: Result<(nat, nat), IoErr>, ghost opens: seq<Call>, ghost per: seq<seq<Call>>)
      requires Valid() && kernel.Place() == Idle && k in kernel.mine
      requires k in kernel.cfg.plan && runs == kernel.cfg.plan[k] && k.src < |files| && k.dst < |files|
      modifies this, kernel
      ensures Valid() && kernel.Place() == Idle && kernel.mine == old(kernel.mine) - {k}
      ensures kernel.now.pending <= old(kernel.now.pending) - {k} && Over(kernel.cfg, kernel.now.log, k)
      ensures kernel.calls == old(kernel.calls) + opens + AllCalls(per)
      ensures PairCalls(kernel.cfg, k, fds, opens, per, kernel.now.log)
    {
      var both;
      both, opens := OpenBoth(k);
      fds, per := both, [];
      if both.Err? {
        CountFailedOpen(both.error);
        return;
      }
      per := Runs(runs);
    }
  }

  // The store of one dataset.
  class Disk {
    var store: Store

    constructor (st: Store)
      ensures store == st
    {
      store := st;
    }
  }

  // ---- the whole phase ------------------------------------------------------------------

  lemma PlanKeys(plan: Pairs, idx: Index, files: seq<Hashed>, k: PairKey)
    requires Grouped(idx, files) && IsPlan(plan, idx, files) && k in plan
    ensures k.src < |files| && k.dst < |files|
  {
    assert RunsOf(idx, files, k, plan[k]);
    var i, j := PairIsInARun(plan[k], ExpandAll(plan[k])[0]);
    PlannedLens(plan, idx, files, k, i, j);
  }

  lemma PlanHasFiles(plan: Pairs, idx: Index, files: seq<Hashed>, opts: Opts)
    requires Grouped(idx, files) && IsPlan(plan, idx, files)
    ensures HasFiles(Config(plan, files, opts))
  {
    forall k | k in plan ensures k.src < |files| && k.dst < |files| {
      PlanKeys(plan, idx, files, k);
    }
  }

  lemma NaiveIndexIsNarrow(files: seq<Hashed>, get: Get)
    requires Indexable(files, get)
    ensures Narrow(NaiveIndex(files, get))
  {
    var idx := NaiveIndex(files, get);
    forall key, loc: Loc | key in idx && loc in idx[key] ensures loc.chunk < U32_MAX {
      GroupMeaning(files, get, key);
      assert KeyAt(files, get, loc) == Some(key);
    }
  }

  // The pairs this worker gets, in no particular order, then the end of the others.
  method AllPairs(w: Worker)
    requires w.Valid() && w.kernel.Place() == Idle && w.kernel.mine == {} && HasFiles(w.kernel.cfg)
    modifies w, w.kernel
    ensures w.Valid() && Finished(w.kernel.now)
  {
    var kernel := w.kernel;
    while kernel.now.pending != {}
      invariant w.Valid() && kernel.Place() == Idle && kernel.mine == {}
      decreases |kernel.now.pending|
    {
      var k :| k in kernel.now.pending;
      ghost var before := kernel.now.pending;
      TakePair(w, k);
      Fewer(kernel.now.pending, before, k);
    }
    kernel.Join();
  }

  lemma Fewer(a: set<PairKey>, b: set<PairKey>, k: PairKey)
    requires a <= b - {k} && k in b
    ensures |a| < |b|
  {
    SubsetSize(a, b - {k});
  }

  method TakePair(w: Worker, k: PairKey)
    requires w.Valid() && w.kernel.Place() == Idle && w.kernel.mine == {} && HasFiles(w.kernel.cfg)
    requires k in w.kernel.now.pending
    modifies w, w.kernel
    ensures w.Valid() && w.kernel.Place() == Idle && w.kernel.mine == {}
    ensures w.kernel.now.pending <= old(w.kernel.now.pending) - {k}
  {
    ReachedIsTidy(History(w.kernel.cfg, w.kernel.start, w.kernel.trace), w.kernel.now);
    w.kernel.Hand(k);
    ghost var fds, opens, per := w.Pair(k, w.kernel.cfg.plan[k]);
  }

  // The workers' counters, added up.
  method AddUp(ws: seq<Thread>) returns (total: Stats)
    ensures forall c: Counter :: Of(total, c) == Total(ws, c)
  {
    total := ZERO;
    var i := 0;
    while i < |ws|
      invariant 0 <= i <= |ws| && forall c: Counter :: Of(total, c) == SumStats(ws, i, c)
    {
      forall c: Counter ensures Of(Add(total, ws[i].stats), c) == SumStats(ws, i + 1, c) {
        OfAdd(total, ws[i].stats, c);
      }
      total := Add(total, ws[i].stats);
      i := i + 1;
    }
  }

  /**
   * `h` is a run of the phase from `start` to `end`, with the one plan there is for `files` and `get`; all of it is
   * carried out, and the counters add up to `total`.
   */
  ghost predicate CarriesOut(h: History, start: Store, end: Store, total: Stats, files: seq<Hashed>, get: Get,
                             opts: Opts) {
    && h.cfg.files == files && h.cfg.opts == opts && IsPlan(h.cfg.plan, NaiveIndex(files, get), files)
    && h.start.store == start && Initial(h.cfg, h.start) && After(h.cfg, h.start, h.trace).Some?
    && var t := After(h.cfg, h.start, h.trace).value;
       t.store == end && Finished(t) && forall c: Counter :: Of(total, c) == Total(t.workers, c)
  }

  /** Where a run ended. */
  ghost function EndOf(h: History): State
    requires Wf(h.start.store) && After(h.cfg, h.start, h.trace).Some?
  {
    After(h.cfg, h.start, h.trace).value
  }

  /** The kernel compares and clones in one step, or no write hits a file that a worker holds past its first read. */
  ghost predicate Undisturbed(h: History)
    requires Wf(h.start.store)
  {
    !h.cfg.opts.Compare() || QuietRun(h.cfg, h.start, h.trace)
  }

  /** What carrying out a plan leaves: every slot settled, the counters of those, and the contents writers made. */
  lemma CarriedOutMeaning(h: History, start: Store, end: Store, total: Stats, files: seq<Hashed>, get: Get, opts: Opts)
    requires CarriesOut(h, start, end, total, files, get, opts)
    ensures LogOk(h.cfg, EndOf(h).log) && forall k :: k in h.cfg.plan ==> Over(h.cfg, EndOf(h).log, k)
    ensures forall c: Counter :: Of(total, c) == SumLog(opts, EndOf(h).log, c)
    ensures Wf(end) && (Undisturbed(h) ==> View(end) == Replay(View(start), h.trace))
    ensures Undisturbed(h) && NoWrites(h.trace) ==> View(end) == View(start)
  {
    forall c: Counter ensures Of(total, c) == SumLog(opts, EndOf(h).log, c) {
      EndTotals(h.cfg, h.start, h.trace, c);
    }
    EndTotals(h.cfg, h.start, h.trace, Candidates);
    if Undisturbed(h) {
      if h.cfg.opts.Compare() {
        QuietWritesAreKept(h.cfg, h.start, h.trace);
      } else {
        AtomicDedupeIsInvisible(h.cfg, h.start, h.trace);
      }
    }
    if NoWrites(h.trace) {
      NothingReplayed(View(start), h.trace);
    }
  }

  /** Index, plan, and `n` workers, whose calls interleave with each other and with other processes as they may. */
  method Dedup(files: seq<Hashed>, cache: Cache, opts: Opts, disk: Disk, n: nat)
    returns (r: Result<Stats, nat>, ghost h: History)
    requires Wf(disk.store) && n > 0
    requires Indexable(files, Snapshot(cache.table)) && 10 * ChunkBound(files) <= TWO_64 / 2
    modifies disk
    ensures Wf(disk.store)
    ensures r.Err? <==> !Readable(files, Snapshot(cache.table))
    ensures r.Err? ==> disk.store == old(disk.store)
    ensures r.Ok? ==> CarriesOut(h, old(disk.store), disk.store, r.value, files, Snapshot(cache.table), opts)
    ensures r.Ok? ==> |h.start.workers| == n
  {
    h := History(Config(map[], files, opts), Fresh(Config(map[], files, opts), disk.store, n), []);
    var idx := BuildIndex(files, cache);
    if idx.Err? {
      return Err(idx.error), h;
    }
    NaiveIndexIsGrouped(files, Snapshot(cache.table));
    NaiveIndexIsNarrow(files, Snapshot(cache.table));
    var pairs := BuildRuns(idx.value, files);
    PlanHasFiles(pairs, idx.value, files, opts);
    var total;
    total, h := RunPhase(Config(pairs, files, opts), disk, n);
    r := Ok(total);
  }

  method RunPhase(cfg: Config, disk: Disk, n: nat) returns (total: Stats, ghost h: History)
    requires Wf(disk.store) && n > 0 && HasFiles(cfg)
    modifies disk
    ensures h.cfg == cfg && h.start == Fresh(cfg, old(disk.store), n) && Wf(disk.store)
    ensures Initial(h.cfg, h.start) && After(h.cfg, h.start, h.trace).Some?
    ensures var t := After(h.cfg, h.start, h.trace).value;
            t.store == disk.store && Finished(t) && forall c: Counter :: Of(total, c) == Total(t.workers, c)
  {
    var me: nat := *;
    if me >= n {
      me := 0;
    }
    var kernel := new Kernel(cfg, disk.store, n, me);
    var w := new Worker(cfg.files, cfg.opts, kernel);
    AllPairs(w);
    total := AddUp(kernel.now.workers);
    disk.store := kernel.now.store;
    h := History(cfg, kernel.start, kernel.trace);
  }
}
