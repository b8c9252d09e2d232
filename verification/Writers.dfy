/**
 * The userspace fallback under outside writers: contents stay what the writers made them exactly if every clone
 * finds its two ranges still equal; a write between compare and clone can be lost.
 */
module FallbackWriters {
  import opened Base
  import opened CacheTable
  import opened Hashing
  import opened DupIndex
  import opened Coalescing
  import opened RunPlanner
  import opened BlockStore
  import opened DedupSteps
  import opened Safety
  import opened PlanFacts
  import opened Schedules

  /** Sharing is invisible exactly if the two ranges are equal when it happens. */
  lemma SharingIsInvisibleIff(st: Store, a: Range, b: Range, len: nat)
    requires Wf(st) && CanClone(st, a.f, a.off, b.f, b.off, len)
    ensures Wf(Shared(st, a, b, len))
    ensures View(Shared(st, a, b, len)) == View(st)
            <==> View(st)[a.f][a.off..a.off + len] == View(st)[b.f][b.off..b.off + len]
  {
    SharedIsWf(st, a, b, len);
    if View(st)[a.f][a.off..a.off + len] == View(st)[b.f][b.off..b.off + len] {
      ShareEqualBytes(st, a, b, len);
    } else {
      CanCloneFits(st, a.f, a.off, b.f, b.off, len);
      CloneContents(st.files[a.f], a.off, st.files[b.f], b.off, len, a.f == b.f, st.data);
      var bytes, mid := View(st)[b.f], View(st)[a.f][a.off..a.off + len];
      var after := bytes[..b.off] + mid + bytes[b.off + len..];
      assert after[b.off..b.off + len] == mid;
      assert View(Shared(st, a, b, len))[b.f] == after;
    }
  }

  /** If `e` is a clone, its ranges are equal in `view`. */
  ghost predicate EqualAtClone(cfg: Config, t: State, e: Event, view: map<nat, seq<byte>>) {
    e.Work? && e.w < |t.workers| && e.a == Clone(None) && Current(cfg, t.workers[e.w].pc) ==>
      var src, dst := SrcRange(cfg, t.workers[e.w].pc), DstRange(cfg, t.workers[e.w].pc);
      InView(view, src) && InView(view, dst) ==> Slice(view, src) == Slice(view, dst)
  }

  /** Every clone is of ranges that are equal in the contents the writers alone would have produced by then. */
  ghost predicate ClonesEqual(cfg: Config, s: State, trace: seq<Event>)
    requires Wf(s.store)
  {
    trace == []
    || (var n := |trace| - 1;
        && ClonesEqual(cfg, s, trace[..n])
        && (After(cfg, s, trace[..n]).Some? ==>
              EqualAtClone(cfg, After(cfg, s, trace[..n]).value, trace[n], Replay(View(s.store), trace[..n]))))
  }

  /** At every point of the trace the contents are those the writers alone would have produced. */
  ghost predicate Invisible(cfg: Config, s: State, trace: seq<Event>)
    requires Wf(s.store)
  {
    && (trace == [] || Invisible(cfg, s, trace[..|trace| - 1]))
    && After(cfg, s, trace).Some? && View(After(cfg, s, trace).value.store) == Replay(View(s.store), trace)
  }

  lemma OthersKeepView(cfg: Config, st: Store, pc: Pc, a: Act)
    requires Wf(st) && Do(cfg, st, pc, a).Some? && a != Clone(None)
    ensures Wf(Do(cfg, st, pc, a).value.store) && View(Do(cfg, st, pc, a).value.store) == View(st)
  {
    if a.Dedupe? {
      DedupeKeepsContents(cfg, st, pc, a.res);
    }
  }

  lemma CloneKeepsViewIff(cfg: Config, t: State, w: nat)
    requires Wf(t.store) && w < |t.workers| && Do(cfg, t.store, t.workers[w].pc, Clone(None)).Some?
    ensures var eff := Do(cfg, t.store, t.workers[w].pc, Clone(None)).value;
            && Wf(eff.store)
            && (View(eff.store) == View(t.store) <==> EqualAtClone(cfg, t, Work(w, Clone(None)), View(t.store)))
  {
    var pc := t.workers[w].pc;
    var src, dst := SrcRange(cfg, pc), DstRange(cfg, pc);
    SharingIsInvisibleIff(t.store, src, dst, LenOn(cfg, pc, true));
  }

  lemma StepIsInvisibleIff(cfg: Config, t: State, e: Event)
    requires Wf(t.store) && Next(cfg, t, e).Some?
    ensures Wf(Next(cfg, t, e).value.store)
    ensures View(Next(cfg, t, e).value.store)
            == (if e.Write? then View(t.store)[e.f := e.g(ContentsOf(View(t.store), e.f))] else View(t.store))
            <==> EqualAtClone(cfg, t, e, View(t.store))
  {
    NextKeepsWf(cfg, t, e);
    match e
    case Write(f, g, fd, added) => WriteView(t.store, f, fd, added);
    case Work(w, a) =>
      if a == Clone(None) {
        CloneKeepsViewIff(cfg, t, w);
      } else {
        OthersKeepView(cfg, t.store, t.workers[w].pc, a);
      }
  }

  /**
   * For every mode, schedule and writer: the phase is invisible exactly if every clone is of ranges that the writers
   * alone would have left equal at that moment.
   */
  lemma {:induction false} InvisibleIff(cfg: Config, s: State, trace: seq<Event>)
    requires Wf(s.store) && After(cfg, s, trace).Some?
    ensures Invisible(cfg, s, trace) <==> ClonesEqual(cfg, s, trace)
  {
    if trace == [] {
    } else {
      var n := |trace| - 1;
      InvisibleIff(cfg, s, trace[..n]);
      if Invisible(cfg, s, trace[..n]) {
        StepIsInvisibleIff(cfg, After(cfg, s, trace[..n]).value, trace[n]);
      }
    }
  }

  // ---- a write that is lost ---------------------------------------------------------------

  const RUN := Run(Loc(0, 0), Loc(1, 0), 1)

  function Key(b: u32): PairKey {
    PairKey(b, 0, 1)
  }

  // Two files of one block each, deduplicated in the fallback.
  function Fallback(b: u32): Config {
    Config(map[Key(b) := [RUN]], [Hashed(0, 1, b, b, false), Hashed(0, 2, b, b, false)], Opts(false, false))
  }

  // The cache has one and the same hash for both.
  function Cached(b: u32, h: ChunkHash): Get {
    key => Ok(Some(FileEntry(b, 0, 0, b, [h])))
  }

  function OneBlock(b: u32, id: nat): FileData {
    FileData(b, b, [id])
  }

  // Files 0 and 1 point at blocks `p` and `q`.
  function Two(b: u32, p: nat, q: nat, data: Log): Store {
    Store(map[0 := OneBlock(b, p), 1 := OneBlock(b, q)], data)
  }

  // ---- its plan is the plan for those files -----------------------------------------------

  lemma OneChunk(b: u32)
    requires b > 0
    ensures NumChunks(b, b) == 1 && ChunkLen(b, 0, b) == b && RunLen(b, 0, 1, b) == b
  {
    QuotientIsUnique(b, b + b - 1, 1, b - 1);
  }

  lemma KeysAt(b: u32, h: ChunkHash, loc: Loc, key: ChunkKey)
    requires h != ZERO_HASH
    ensures KeyAt(Fallback(b).files, Cached(b, h), loc) == Some(key)
            <==> key == ChunkKey(b, h) && (loc == Loc(0, 0) || loc == Loc(1, 0))
  {
  }

  lemma OneGroup(b: u32, h: ChunkHash)
    requires h != ZERO_HASH
    ensures var idx := NaiveIndex(Fallback(b).files, Cached(b, h));
            idx.Keys == {ChunkKey(b, h)} && idx[ChunkKey(b, h)] == [Loc(0, 0), Loc(1, 0)]
  {
    var files, get, key := Fallback(b).files, Cached(b, h), ChunkKey(b, h);
    var idx := NaiveIndex(files, get);
    KeysAt(b, h, Loc(0, 0), key);
    KeysAt(b, h, Loc(1, 0), key);
    RepeatedIsIndexed(files, get, Loc(0, 0), Loc(1, 0));
    forall k | k in idx ensures k == key {
      GroupMeaning(files, get, k);
      assert idx[k][0] in idx[k];
      KeysAt(b, h, idx[k][0], k);
    }
    GroupMeaning(files, get, key);
    forall loc ensures loc in idx[key] <==> loc == Loc(0, 0) || loc == Loc(1, 0) {
      KeysAt(b, h, loc, key);
    }
    TwoInOrder(idx[key]);
  }

  lemma TwoInOrder(locs: seq<Loc>)
    requires Increasing(locs) && forall loc :: loc in locs <==> loc == Loc(0, 0) || loc == Loc(1, 0)
    ensures locs == [Loc(0, 0), Loc(1, 0)]
  {
    assert Loc(0, 0) in locs && Loc(1, 0) in locs;
    forall k | 0 <= k < |locs| ensures locs[k] == Loc(0, 0) || locs[k] == Loc(1, 0) {
      assert locs[k] in locs;
    }
    assert |locs| > 1 ==> Before(locs[0], locs[1]);
    assert |locs| > 2 ==> Before(locs[1], locs[2]);
  }

  lemma OnlyPair(b: u32, h: ChunkHash, p: Pair)
    requires b > 0 && h != ZERO_HASH
    ensures Planned(NaiveIndex(Fallback(b).files, Cached(b, h)), Fallback(b).files, p) <==> p == (Loc(0, 0), Loc(1, 0))
  {
    var files := Fallback(b).files;
    var idx := NaiveIndex(files, Cached(b, h));
    OneGroup(b, h);
    OneChunk(b);
    var key := ChunkKey(b, h);
    assert idx[key][1..] == [Loc(1, 0)];
    if p == (Loc(0, 0), Loc(1, 0)) {
      assert PlannedBy(idx, files, key, p);
    }
    if Planned(idx, files, p) {
      var k :| PlannedBy(idx, files, k, p);
      assert k == key;
    }
  }

  /** The one pair makes the one run. */
  lemma PairIsRun(b: u32)
    ensures var ps := [(Loc(0, 0), Loc(1, 0))];
            ExpandAll([RUN]) == ps && Greedy(ps, b) == [RUN]
  {
    var ps := [(Loc(0, 0), Loc(1, 0))];
    assert [RUN][..0] == [] && ps[..0] == [];
    assert Steps(RUN.src, RUN.dst, 1) == ps;
  }

  /** The configuration is what indexing and planning make of the two files. */
  lemma FallbackIsPlanned(b: u32, h: ChunkHash)
    requires b > 0 && h != ZERO_HASH
    ensures Good(Fallback(b), NaiveIndex(Fallback(b).files, Cached(b, h)))
  {
    var cfg := Fallback(b);
    var idx := NaiveIndex(cfg.files, Cached(b, h));
    var ps := [(Loc(0, 0), Loc(1, 0))];
    NaiveIndexIsGrouped(cfg.files, Cached(b, h));
    PairIsRun(b);
    forall p ensures p in ps <==> Planned(idx, cfg.files, p) && KeyOf(cfg.files, p) == Key(b) {
      OnlyPair(b, h, p);
    }
    forall p | Planned(idx, cfg.files, p) ensures KeyOf(cfg.files, p) in cfg.plan {
      OnlyPair(b, h, p);
    }
    assert RunsOf(idx, cfg.files, Key(b), [RUN]);
  }

  // ---- the run ----------------------------------------------------------------------------

  lemma OneContents(b: u32, id: nat, data: Log)
    requires b > 0 && id < |data| && |data[id]| == b
    ensures WfFile(OneBlock(b, id), data) && Contents(OneBlock(b, id), data) == data[id]
  {
    var blocks: seq<nat> := [id];
    assert blocks[..0] == [];
    assert Cat(blocks, data) == Cat(blocks[..0], data) + data[id] == data[id];
  }

  lemma TwoContents(b: u32, p: nat, q: nat, data: Log)
    requires b > 0 && p < |data| && q < |data| && |data[p]| == |data[q]| == b
    ensures Wf(Two(b, p, q, data)) && View(Two(b, p, q, data)) == map[0 := data[p], 1 := data[q]]
  {
    OneContents(b, p, data);
    OneContents(b, q, data);
  }

  /** The one worker is inside the pair's run, in phase `phase`. */
  ghost predicate AtPhase(t: State, b: u32, phase: Phase, st: Store) {
    t.store == st && |t.workers| == 1 && t.workers[0].pc == In(Key(b), 0, 1, 0, phase)
  }

  lemma Ranges(b: u32, phase: Phase)
    requires b > 0
    ensures var pc := In(Key(b), 0, 1, 0, phase);
            && Current(Fallback(b), pc) && LensOk(Fallback(b), pc) && LenOn(Fallback(b), pc, true) == b
            && SrcRange(Fallback(b), pc) == Range(0, 0, b) && DstRange(Fallback(b), pc) == Range(1, 0, b)
  {
    OneChunk(b);
  }

  // What the two blocks hold before the write, and the log after it.
  function Before2(x: seq<byte>): Log {
    [x, x]
  }

  function After2(x: seq<byte>, y: seq<byte>): Log {
    [x, x, y]
  }

  lemma WholeBlocks(b: u32)
    requires b > 0
    ensures Accepts(OneBlock(b, 0), 0, OneBlock(b, 2), 0, b, false)
  {
    QuotientIsUnique(b, 0, 0, 0);
    QuotientIsUnique(b, b, 1, 0);
  }

  /** Sharing the whole of file 0 with file 1. */
  lemma ClonedOver(b: u32, x: seq<byte>, y: seq<byte>) returns (st: Store)
    requires b > 0 && |x| == |y| == b
    ensures Wf(Two(b, 0, 2, After2(x, y))) && CanClone(Two(b, 0, 2, After2(x, y)), 0, 0, 1, 0, b)
    ensures st == Shared(Two(b, 0, 2, After2(x, y)), Range(0, 0, b), Range(1, 0, b), b) && Wf(st)
    ensures View(st) == map[0 := x, 1 := x]
  {
    var data := After2(x, y);
    TwoContents(b, 0, 2, data);
    TwoContents(b, 0, 0, data);
    WholeBlocks(b);
    CanCloneFits(Two(b, 0, 2, data), 0, 0, 1, 0, b);
    OneChunk(b);
    QuotientIsUnique(b, 0, 0, 0);
    assert Spliced([0], 0, [2], 0, 1) == [0];
    st := Two(b, 0, 0, data);
    assert CloneRange(Two(b, 0, 2, data), 0, 0, 1, 0, b).files == st.files;
  }

  function Story(b: u32, y: seq<byte>): seq<Event> {
    [Work(0, Open(Key(b), Ok((0, 1)))), Work(0, ReadSrc(None)), Work(0, ReadDst(None)), Work(0, Compare),
     Write(1, (was: seq<byte>) => y, OneBlock(b, 2), [y]), Work(0, Clone(None))]
  }

  function Begun(b: u32, x: seq<byte>): State {
    State(Two(b, 0, 1, Before2(x)), {Key(b)}, [Thread(Idle, ZERO)], map[])
  }

  lemma BegunIsInitial(b: u32, x: seq<byte>)
    requires b > 0 && |x| == b
    ensures Initial(Fallback(b), Begun(b, x)) && Tree(Fallback(b), Begun(b, x).store)
    ensures View(Begun(b, x).store) == map[0 := x, 1 := x]
  {
    TwoContents(b, 0, 1, Before2(x));
  }

  lemma OneStep(t: State, b: u32, phase: Phase, phase': Phase, st: Store, a: Act)
    requires Wf(st) && AtPhase(t, b, phase, st) && !a.Open?
    requires Do(Fallback(b), st, In(Key(b), 0, 1, 0, phase), a).Some?
    requires var eff := Do(Fallback(b), st, In(Key(b), 0, 1, 0, phase), a).value;
             eff.pc == In(Key(b), 0, 1, 0, phase') && eff.store == st
    ensures Next(Fallback(b), t, Work(0, a)).Some? && AtPhase(Next(Fallback(b), t, Work(0, a)).value, b, phase', st)
  {
  }

  lemma OpenStep(b: u32, x: seq<byte>, y: seq<byte>) returns (t: State)
    requires b > 0 && |x| == b
    ensures Wf(Begun(b, x).store) && Next(Fallback(b), Begun(b, x), Story(b, y)[0]) == Some(t)
    ensures AtPhase(t, b, Start, Begun(b, x).store)
  {
    TwoContents(b, 0, 1, Before2(x));
    t := Next(Fallback(b), Begun(b, x), Story(b, y)[0]).value;
  }

  lemma ReadStep(b: u32, x: seq<byte>, y: seq<byte>, t: State) returns (t': State)
    requires b > 0 && |x| == b && AtPhase(t, b, Start, Begun(b, x).store)
    ensures Wf(t.store) && Next(Fallback(b), t, Story(b, y)[1]) == Some(t') && AtPhase(t', b, HaveSrc(x), t.store)
  {
    TwoContents(b, 0, 1, Before2(x));
    Ranges(b, Start);
    assert Bytes(t.store, Range(0, 0, b)) == x;
    OneStep(t, b, Start, HaveSrc(x), t.store, ReadSrc(None));
    t' := Next(Fallback(b), t, Story(b, y)[1]).value;
  }

  lemma ReadAgainStep(b: u32, x: seq<byte>, y: seq<byte>, t: State) returns (t': State)
    requires b > 0 && |x| == b && AtPhase(t, b, HaveSrc(x), Begun(b, x).store)
    ensures Wf(t.store) && Next(Fallback(b), t, Story(b, y)[2]) == Some(t') && AtPhase(t', b, HaveBoth(x, x), t.store)
  {
    TwoContents(b, 0, 1, Before2(x));
    Ranges(b, HaveSrc(x));
    assert Bytes(t.store, Range(1, 0, b)) == x;
    OneStep(t, b, HaveSrc(x), HaveBoth(x, x), t.store, ReadDst(None));
    t' := Next(Fallback(b), t, Story(b, y)[2]).value;
  }

  lemma CompareStep(b: u32, x: seq<byte>, y: seq<byte>, t: State) returns (t': State)
    requires b > 0 && |x| == b && AtPhase(t, b, HaveBoth(x, x), Begun(b, x).store)
    ensures Wf(t.store) && Next(Fallback(b), t, Story(b, y)[3]) == Some(t') && AtPhase(t', b, Equal, t.store)
  {
    TwoContents(b, 0, 1, Before2(x));
    Ranges(b, HaveBoth(x, x));
    OneStep(t, b, HaveBoth(x, x), Equal, t.store, Compare);
    t' := Next(Fallback(b), t, Story(b, y)[3]).value;
  }

  lemma WriteStep(b: u32, x: seq<byte>, y: seq<byte>, t: State) returns (t': State)
    requires b > 0 && |x| == |y| == b && AtPhase(t, b, Equal, Begun(b, x).store)
    ensures Wf(t.store) && Next(Fallback(b), t, Story(b, y)[4]) == Some(t')
    ensures AtPhase(t', b, Equal, Two(b, 0, 2, After2(x, y)))
  {
    TwoContents(b, 0, 1, Before2(x));
    OneContents(b, 2, After2(x, y));
    assert Before2(x) + [y] == After2(x, y);
    assert Begun(b, x).store.files[1 := OneBlock(b, 2)] == Two(b, 0, 2, After2(x, y)).files;
    t' := Next(Fallback(b), t, Story(b, y)[4]).value;
  }

  lemma CloneStep(b: u32, x: seq<byte>, y: seq<byte>, t: State) returns (t': State)
    requires b > 0 && |x| == |y| == b && AtPhase(t, b, Equal, Two(b, 0, 2, After2(x, y)))
    ensures Wf(t.store) && Next(Fallback(b), t, Story(b, y)[5]) == Some(t')
    ensures Wf(t'.store) && View(t'.store) == map[0 := x, 1 := x]
  {
    var st := ClonedOver(b, x, y);
    Ranges(b, Equal);
    assert DoClone(Fallback(b), In(Key(b), 0, 1, 0, Equal), t.store, None).Some?;
    assert DoClone(Fallback(b), In(Key(b), 0, 1, 0, Equal), t.store, None).value.store == st;
    t' := Next(Fallback(b), t, Story(b, y)[5]).value;
  }

  lemma AfterOne(cfg: Config, s: State, trace: seq<Event>, n: nat, t: State, t': State)
    requires Wf(s.store) && n < |trace| && After(cfg, s, trace[..n]) == Some(t) && Next(cfg, t, trace[n]) == Some(t')
    ensures After(cfg, s, trace[..n + 1]) == Some(t')
  {
    assert trace[..n + 1][..n] == trace[..n];
  }

  lemma WritersWant(b: u32, view: Seen, y: seq<byte>)
    ensures Replay(view, Story(b, y)) == view[1 := y]
  {
    var e := Story(b, y);
    assert e[..6] == e && e[..6][..5] == e[..5] && e[..5][..4] == e[..4] && e[..4][..3] == e[..3];
    assert e[..3][..2] == e[..2] && e[..2][..1] == e[..1] && e[..1][..0] == [];
    assert Replay(view, e[..1]) == Replay(view, []) == view;
    assert Replay(view, e[..2]) == view;
    assert Replay(view, e[..4]) == view;
    assert Replay(view, e[..5]) == view[1 := y];
  }

  lemma Compared(b: u32, x: seq<byte>, y: seq<byte>) returns (t: State)
    requires b > 0 && |x| == b
    ensures Wf(Begun(b, x).store) && After(Fallback(b), Begun(b, x), Story(b, y)[..4]) == Some(t)
    ensures AtPhase(t, b, Equal, Begun(b, x).store)
  {
    var cfg, s, trace := Fallback(b), Begun(b, x), Story(b, y);
    var t1 := OpenStep(b, x, y);
    AfterOne(cfg, s, trace, 0, s, t1);
    var t2 := ReadStep(b, x, y, t1);
    AfterOne(cfg, s, trace, 1, t1, t2);
    var t3 := ReadAgainStep(b, x, y, t2);
    AfterOne(cfg, s, trace, 2, t2, t3);
    t := CompareStep(b, x, y, t3);
    AfterOne(cfg, s, trace, 3, t3, t);
  }

  lemma Cloned(b: u32, x: seq<byte>, y: seq<byte>) returns (t: State)
    requires b > 0 && |x| == |y| == b
    ensures Wf(Begun(b, x).store) && After(Fallback(b), Begun(b, x), Story(b, y)[..6]) == Some(t)
    ensures Wf(t.store) && View(t.store) == map[0 := x, 1 := x]
  {
    var t4 := Compared(b, x, y);
    var t5 := WriteStep(b, x, y, t4);
    AfterOne(Fallback(b), Begun(b, x), Story(b, y), 4, t4, t5);
    t := CloneStep(b, x, y, t5);
    AfterOne(Fallback(b), Begun(b, x), Story(b, y), 5, t5, t);
  }

  lemma StoryTold(b: u32, x: seq<byte>, y: seq<byte>)
    requires b > 0 && |x| == |y| == b
    ensures Wf(Begun(b, x).store) && After(Fallback(b), Begun(b, x), Story(b, y)).Some?
    ensures View(After(Fallback(b), Begun(b, x), Story(b, y)).value.store) == map[0 := x, 1 := x]
  {
    var t := Cloned(b, x, y);
    assert Story(b, y)[..6] == Story(b, y);
  }

  /**
   * In the fallback a write between compare and clone is lost: for every block size and all contents `x` and `y` there
   * is a tree and its own plan such that `y`, written over a duplicate of `x`, is gone at the end.
   */
  lemma {:induction false} LostWrite(b: u32, x: seq<byte>, y: seq<byte>, h: ChunkHash)
    returns (cfg: Config, get: Get, s: State, trace: seq<Event>)
    requires b > 0 && |x| == |y| == b && h != ZERO_HASH
    ensures Good(cfg, NaiveIndex(cfg.files, get)) && Initial(cfg, s) && Tree(cfg, s.store)
    ensures cfg.opts.Compare() && !cfg.opts.dryRun && After(cfg, s, trace).Some?
    ensures View(s.store) == map[0 := x, 1 := x] && Replay(View(s.store), trace) == map[0 := x, 1 := y]
    ensures View(After(cfg, s, trace).value.store) == map[0 := x, 1 := x]
  {
    cfg, get, s, trace := Fallback(b), Cached(b, h), Begun(b, x), Story(b, y);
    FallbackIsPlanned(b, h);
    BegunIsInitial(b, x);
    StoryTold(b, x, y);
    WritersWant(b, View(s.store), y);
  }
}
