/** The consumer loop of the walk (src/walk.rs): which inodes it emits, for any roots and any order of arrival. */
module WalkConsumer {
  import opened Base
  import opened PathText
  import InternedPaths

  // (device, inode number)
  type Inode = (u64, u64)

  // A stat'ed regular file of a directory.
  datatype Entry = Entry(name: Name, dev: u64, ino: u64, nlink: u64) {
    function Id(): Inode { (dev, ino) }
  }

  // One message: a directory and its files.
  datatype Batch = Batch(parent: Name, files: seq<Entry>)

  // A root to walk: its path, its device and dataset, None if they cannot be had, and the messages its walk sends.
  datatype Root = Root(path: Name, stat: Option<(u64, u64)>, batches: seq<Batch>)

  // A file as it reaches the loop: its directory, and the device and dataset of the root being walked.
  datatype Arrival = Arrival(parent: Name, e: Entry, dev: u64, fsid: u64)

  type Arrivals = seq<Arrival>

  datatype Found = Found(parent: Name, name: Name, fsid: u64, id: Inode)

  // What the loop carries.
  datatype Walk = Walk(out: seq<Found>, seen: set<Inode>)

  predicate Eligible(a: Arrival, exclude: set<Inode>) {
    a.e.dev == a.dev && a.e.Id() !in exclude
  }

  function Find(a: Arrival): Found {
    Found(a.parent, a.e.name, a.fsid, a.e.Id())
  }

  /** One file of one message. */
  function Visit(w: Walk, a: Arrival, exclude: set<Inode>): Walk {
    if !Eligible(a, exclude) then w
    else if a.e.nlink > 1 && a.e.Id() in w.seen then w
    else Walk(w.out + [Find(a)], if a.e.nlink > 1 then w.seen + {a.e.Id()} else w.seen)
  }

  function VisitAll(w: Walk, es: Arrivals, exclude: set<Inode>): Walk {
    if es == [] then w else Visit(VisitAll(w, es[..|es| - 1], exclude), es[|es| - 1], exclude)
  }

  function Tagged(parent: Name, files: seq<Entry>, dev: u64, fsid: u64): Arrivals {
    seq(|files|, i requires 0 <= i < |files| => Arrival(parent, files[i], dev, fsid))
  }

  function OfBatches(batches: seq<Batch>, dev: u64, fsid: u64): Arrivals {
    if batches == [] then []
    else
      var b := batches[|batches| - 1];
      OfBatches(batches[..|batches| - 1], dev, fsid) + Tagged(b.parent, b.files, dev, fsid)
  }

  function OfRoot(root: Root): Arrivals {
    match root.stat
    case None => []
    case Some((dev, fsid)) => OfBatches(root.batches, dev, fsid)
  }

  /** Everything that reaches the loop, root by root. */
  function OfRoots(roots: seq<Root>): Arrivals {
    if roots == [] then [] else OfRoots(roots[..|roots| - 1]) + OfRoot(roots[|roots| - 1])
  }

  lemma {:induction false} VisitConcat(w: Walk, a: Arrivals, b: Arrivals, exclude: set<Inode>)
    ensures VisitAll(w, a + b, exclude) == VisitAll(VisitAll(w, a, exclude), b, exclude)
  {
    if b == [] {
      assert a + b == a;
    } else {
      assert (a + b)[..|a + b| - 1] == a + b[..|b| - 1];
      VisitConcat(w, a, b[..|b| - 1], exclude);
    }
  }

  // ---- which files those are -----------------------------------------------------------------

  // Where a file stands in the messages: of which root, in which of its messages, at which place.
  datatype Spot = Spot(root: nat, batch: nat, file: nat)

  /** There is such a file, and its root could be stat'ed. */
  predicate Sent(roots: seq<Root>, s: Spot) {
    && s.root < |roots| && roots[s.root].stat.Some? && s.batch < |roots[s.root].batches|
    && s.file < |roots[s.root].batches[s.batch].files|
  }

  function EntryAt(roots: seq<Root>, s: Spot): Entry
    requires Sent(roots, s)
  {
    roots[s.root].batches[s.batch].files[s.file]
  }

  /** It arrives with the directory of its message, and the device and dataset of its root. */
  predicate ArrivesAs(roots: seq<Root>, s: Spot, a: Arrival) {
    && Sent(roots, s) && a.parent == roots[s.root].batches[s.batch].parent && a.e == EntryAt(roots, s)
    && Some((a.dev, a.fsid)) == roots[s.root].stat
  }

  predicate Earlier(s: Spot, t: Spot) {
    s.root < t.root || (s.root == t.root && (s.batch < t.batch || (s.batch == t.batch && s.file < t.file)))
  }

  /** In a root before `r`, or in one of the first `n` messages of root `r`. */
  predicate UpTo(s: Spot, r: nat, n: nat) {
    s.root < r || (s.root == r && s.batch < n)
  }

  /** The arrivals are exactly the files so far, each once, in order. */
  ghost predicate Lists(roots: seq<Root>, es: Arrivals, spots: seq<Spot>, r: nat, n: nat) {
    && |es| == |spots| && (forall i :: 0 <= i < |es| ==> UpTo(spots[i], r, n) && ArrivesAs(roots, spots[i], es[i]))
    && (forall i, j :: 0 <= i < j < |spots| ==> Earlier(spots[i], spots[j]))
    && forall s :: Sent(roots, s) && UpTo(s, r, n) ==> s in spots
  }

  lemma BatchIsListed(roots: seq<Root>, es: Arrivals, spots: seq<Spot>, r: nat, n: nat) returns (more: seq<Spot>)
    requires Lists(roots, es, spots, r, n) && r < |roots| && roots[r].stat.Some? && n < |roots[r].batches|
    ensures var b, (dev, fsid) := roots[r].batches[n], roots[r].stat.value;
            Lists(roots, es + Tagged(b.parent, b.files, dev, fsid), more, r, n + 1)
  {
    var b := roots[r].batches[n];
    var own := seq(|b.files|, i requires 0 <= i < |b.files| => Spot(r, n, i));
    more := spots + own;
    var files := Tagged(b.parent, b.files, roots[r].stat.value.0, roots[r].stat.value.1);
    forall i | 0 <= i < |es + files| ensures UpTo(more[i], r, n + 1) && ArrivesAs(roots, more[i], (es + files)[i]) {
      if i < |es| {
        assert UpTo(spots[i], r, n) && ArrivesAs(roots, spots[i], es[i]);
      } else {
        assert more[i] == own[i - |es|] && (es + files)[i] == files[i - |es|];
      }
    }
    forall i, j | 0 <= i < j < |more| ensures Earlier(more[i], more[j]) {
      if j < |spots| {
        assert Earlier(spots[i], spots[j]);
      } else if i < |spots| {
        assert UpTo(spots[i], r, n);
      }
    }
    forall s | Sent(roots, s) && UpTo(s, r, n + 1) ensures s in more {
      if UpTo(s, r, n) {
        assert s in spots;
      } else {
        assert own[s.file] == s;
      }
    }
  }

  lemma {:induction false} BatchesAreListed(roots: seq<Root>, es: Arrivals, spots: seq<Spot>, r: nat, n: nat)
    returns (more: seq<Spot>)
    requires Lists(roots, es, spots, r, 0) && r < |roots| && roots[r].stat.Some? && n <= |roots[r].batches|
    ensures var (dev, fsid) := roots[r].stat.value;
            Lists(roots, es + OfBatches(roots[r].batches[..n], dev, fsid), more, r, n)
  {
    var (dev, fsid) := roots[r].stat.value;
    if n == 0 {
      more := spots;
      assert es + [] == es;
    } else {
      var less := BatchesAreListed(roots, es, spots, r, n - 1);
      more := BatchIsListed(roots, es + OfBatches(roots[r].batches[..n - 1], dev, fsid), less, r, n - 1);
      var b := roots[r].batches[n - 1];
      assert roots[r].batches[..n][..n - 1] == roots[r].batches[..n - 1];
      Associate(es, OfBatches(roots[r].batches[..n - 1], dev, fsid), Tagged(b.parent, b.files, dev, fsid));
    }
  }

  /** What reaches the loop are the files of all messages of the roots that could be stat'ed, each once, in order. */
  lemma {:induction false} ArrivalsAreListed(roots: seq<Root>, r: nat) returns (spots: seq<Spot>)
    requires r <= |roots|
    ensures Lists(roots, OfRoots(roots[..r]), spots, r, 0)
  {
    if r == 0 {
      spots := [];
    } else {
      var less := ArrivalsAreListed(roots, r - 1);
      var es, root := OfRoots(roots[..r - 1]), roots[r - 1];
      assert roots[..r][..r - 1] == roots[..r - 1];
      match root.stat
      case None =>
        spots := less;
        assert es + [] == es;
      case Some((dev, fsid)) =>
        spots := BatchesAreListed(roots, es, less, r - 1, |root.batches|);
        assert root.batches[..|root.batches|] == root.batches;
    }
  }

  // ---- the loops -------------------------------------------------------------------------

  // What `push` is given.
  function Pushes(fs: seq<Found>): seq<(InternedPaths.Pushed, u64)> {
    seq(|fs|, i requires 0 <= i < |fs| => (InternedPaths.Pushed(fs[i].parent, fs[i].name), fs[i].fsid))
  }

  // Names from a directory are plain.
  predicate PlainNames(files: seq<Entry>) {
    forall i :: 0 <= i < |files| ==> Plain(files[i].name)
  }

  predicate PlainBatches(batches: seq<Batch>) {
    forall i :: 0 <= i < |batches| ==> PlainNames(batches[i].files)
  }

  /** A directory the walk of `root` enters: names joined onto the root, one by one. */
  ghost predicate Below(root: Name, dir: Name) {
    exists names :: AllPlain(names) && dir == PushNames(root, names)
  }

  /** A root in normal form, whose messages are about directories below it. */
  ghost predicate NeatWalk(root: Root) {
    Neat(root.path) && forall i :: 0 <= i < |root.batches| ==> Below(root.path, root.batches[i].parent)
  }

  ghost predicate NeatArrivals(es: Arrivals) {
    forall i :: 0 <= i < |es| ==> Neat(es[i].parent)
  }

  lemma {:induction false} NeatBatches(root: Root, n: nat, dev: u64, fsid: u64)
    requires NeatWalk(root) && n <= |root.batches|
    ensures NeatArrivals(OfBatches(root.batches[..n], dev, fsid))
  {
    if n == 0 {
    } else {
      assert root.batches[..n][..n - 1] == root.batches[..n - 1];
      NeatBatches(root, n - 1, dev, fsid);
      assert Below(root.path, root.batches[n - 1].parent);
      var names :| AllPlain(names) && root.batches[n - 1].parent == PushNames(root.path, names);
      BelowIsNeat(root.path, names);
    }
  }

  lemma {:induction false} NeatRoots(roots: seq<Root>)
    requires forall i :: 0 <= i < |roots| ==> NeatWalk(roots[i])
    ensures NeatArrivals(OfRoots(roots))
  {
    if roots == [] {
    } else {
      var root := roots[|roots| - 1];
      NeatRoots(roots[..|roots| - 1]);
      match root.stat
      case None =>
      case Some((dev, fsid)) =>
        NeatBatches(root, |root.batches|, dev, fsid);
        assert root.batches[..|root.batches|] == root.batches;
    }
  }

  lemma NeatEmissions(es: Arrivals, seen: set<Inode>, exclude: set<Inode>)
    requires NeatArrivals(es)
    ensures InternedPaths.AllNeat(Pushes(VisitAll(Walk([], seen), es, exclude).out))
  {
    var out := VisitAll(Walk([], seen), es, exclude).out;
    forall i | 0 <= i < |out| ensures Neat(out[i].parent) {
      EmittedArrived(es, seen, out[i], exclude);
    }
  }

  /** The path table holds what `w` says was emitted. */
  ghost predicate Carries(out: InternedPaths.Paths<u64>, seen: set<Inode>, w: Walk)
    reads out, out.table
  {
    out.Valid() && out.table.open && out.pushed == Pushes(w.out) && seen == w.seen
  }

  /** The path table has room for all that `es` adds. */
  ghost predicate Room(w: Walk, es: Arrivals, exclude: set<Inode>) {
    InternedPaths.Fits(Pushes(VisitAll(w, es, exclude).out))
  }

  lemma {:induction false} VisitGrows(w: Walk, es: Arrivals, exclude: set<Inode>)
    ensures w.out <= VisitAll(w, es, exclude).out
  {
    if es == [] {
    } else {
      VisitGrows(w, es[..|es| - 1], exclude);
    }
  }

  lemma RoomBefore(w: Walk, a: Arrivals, b: Arrivals, exclude: set<Inode>)
    requires Room(w, a + b, exclude)
    ensures Room(w, a, exclude) && Room(VisitAll(w, a, exclude), b, exclude)
    ensures VisitAll(w, a + b, exclude) == VisitAll(VisitAll(w, a, exclude), b, exclude)
  {
    VisitConcat(w, a, b, exclude);
    VisitGrows(VisitAll(w, a, exclude), b, exclude);
    InternedPaths.FitsPrefix(Pushes(VisitAll(w, a, exclude).out), Pushes(VisitAll(w, a + b, exclude).out));
  }

  lemma VisitOne(w: Walk, a: Arrival, exclude: set<Inode>)
    ensures VisitAll(w, [a], exclude) == Visit(w, a, exclude)
  {
    assert [a][..0] == [];
  }

  lemma PushesSnoc(fs: seq<Found>, f: Found)
    ensures Pushes(fs + [f]) == Pushes(fs) + [(InternedPaths.Pushed(f.parent, f.name), f.fsid)]
  {
  }

  // The body of the inner loop.
  method VisitFile(a: Arrival, exclude: set<Inode>, seen0: set<Inode>, out: InternedPaths.Paths<u64>, ghost w: Walk)
    returns (seen: set<Inode>)
    requires Carries(out, seen0, w) && Plain(a.e.name) && InternedPaths.Fits(Pushes(Visit(w, a, exclude).out))
    modifies out, out.table
    ensures Carries(out, seen, Visit(w, a, exclude))
  {
    seen := seen0;
    // not on the root device, so below a mount point
    if a.e.dev != a.dev || a.e.Id() in exclude {
      return;
    }
    if a.e.nlink > 1 {
      if a.e.Id() in seen {
        return;
      }
      seen := seen + {a.e.Id()};
    }
    PushesSnoc(w.out, Find(a));
    out.Push(a.parent, a.e.name, a.fsid);
  }

  lemma FileStep(w: Walk, es: Arrivals, i: nat, exclude: set<Inode>)
    requires i < |es| && Room(w, es, exclude)
    ensures VisitAll(w, es[..i + 1], exclude) == Visit(VisitAll(w, es[..i], exclude), es[i], exclude)
    ensures InternedPaths.Fits(Pushes(VisitAll(w, es[..i + 1], exclude).out))
  {
    assert es[..i + 1][..i] == es[..i];
    assert es == es[..i + 1] + es[i + 1..];
    RoomBefore(w, es[..i + 1], es[i + 1..], exclude);
  }

  lemma BatchStep(w: Walk, batches: seq<Batch>, i: nat, dev: u64, fsid: u64, exclude: set<Inode>)
    requires i < |batches| && Room(w, OfBatches(batches, dev, fsid), exclude)
    ensures var at, b := VisitAll(w, OfBatches(batches[..i], dev, fsid), exclude), batches[i];
            && Room(at, Tagged(b.parent, b.files, dev, fsid), exclude)
            && VisitAll(w, OfBatches(batches[..i + 1], dev, fsid), exclude)
               == VisitAll(at, Tagged(b.parent, b.files, dev, fsid), exclude)
  {
    var rest := RestOfBatches(batches, i + 1, dev, fsid);
    RoomBefore(w, OfBatches(batches[..i + 1], dev, fsid), rest, exclude);
    assert batches[..i + 1][..i] == batches[..i];
    var b := batches[i];
    RoomBefore(w, OfBatches(batches[..i], dev, fsid), Tagged(b.parent, b.files, dev, fsid), exclude);
  }

  lemma {:induction false} RestOfBatches(batches: seq<Batch>, i: nat, dev: u64, fsid: u64) returns (rest: Arrivals)
    requires i <= |batches|
    ensures OfBatches(batches, dev, fsid) == OfBatches(batches[..i], dev, fsid) + rest
  {
    if i == |batches| {
      assert batches[..i] == batches;
      rest := [];
    } else {
      var n := |batches| - 1;
      assert batches[..n][..i] == batches[..i];
      var less := RestOfBatches(batches[..n], i, dev, fsid);
      var last := Tagged(batches[n].parent, batches[n].files, dev, fsid);
      rest := less + last;
      Associate(OfBatches(batches[..i], dev, fsid), less, last);
    }
  }

  lemma RootStep(w: Walk, roots: seq<Root>, i: nat, exclude: set<Inode>)
    requires i < |roots| && Room(w, OfRoots(roots), exclude)
    ensures Room(VisitAll(w, OfRoots(roots[..i]), exclude), OfRoot(roots[i]), exclude)
    ensures VisitAll(w, OfRoots(roots[..i + 1]), exclude)
            == VisitAll(VisitAll(w, OfRoots(roots[..i]), exclude), OfRoot(roots[i]), exclude)
  {
    var rest := RestOfRoots(roots, i + 1);
    RoomBefore(w, OfRoots(roots[..i + 1]), rest, exclude);
    assert roots[..i + 1][..i] == roots[..i];
    RoomBefore(w, OfRoots(roots[..i]), OfRoot(roots[i]), exclude);
  }

  lemma {:induction false} RestOfRoots(roots: seq<Root>, i: nat) returns (rest: Arrivals)
    requires i <= |roots|
    ensures OfRoots(roots) == OfRoots(roots[..i]) + rest
  {
    if i == |roots| {
      assert roots[..i] == roots;
      rest := [];
    } else {
      var n := |roots| - 1;
      assert roots[..n][..i] == roots[..i];
      var less := RestOfRoots(roots[..n], i);
      rest := less + OfRoot(roots[n]);
      Associate(OfRoots(roots[..i]), less, OfRoot(roots[n]));
    }
  }

  // The inner loop.
  method WalkBatch(b: Batch, dev: u64, fsid: u64, exclude: set<Inode>, seen0: set<Inode>,
                   out: InternedPaths.Paths<u64>, ghost w: Walk) returns (seen: set<Inode>)
    requires Carries(out, seen0, w) && PlainNames(b.files)
    requires Room(w, Tagged(b.parent, b.files, dev, fsid), exclude)
    modifies out, out.table
    ensures Carries(out, seen, VisitAll(w, Tagged(b.parent, b.files, dev, fsid), exclude))
  {
    seen := seen0;
    ghost var es := Tagged(b.parent, b.files, dev, fsid);
    var i := 0;
    while i < |b.files|
      invariant 0 <= i <= |b.files| && Carries(out, seen, VisitAll(w, es[..i], exclude))
    {
      FileStep(w, es, i, exclude);
      seen := VisitFile(Arrival(b.parent, b.files[i], dev, fsid), exclude, seen, out, VisitAll(w, es[..i], exclude));
      i := i + 1;
    }
    assert es[..i] == es;
  }

  method WalkRoot(dev: u64, fsid: u64, batches: seq<Batch>, exclude: set<Inode>, seen0: set<Inode>,
                  out: InternedPaths.Paths<u64>, ghost w: Walk) returns (seen: set<Inode>)
    requires Carries(out, seen0, w) && PlainBatches(batches) && Room(w, OfBatches(batches, dev, fsid), exclude)
    modifies out, out.table
    ensures Carries(out, seen, VisitAll(w, OfBatches(batches, dev, fsid), exclude))
  {
    seen := seen0;
    var i := 0;
    while i < |batches|
      invariant 0 <= i <= |batches|
      invariant Carries(out, seen, VisitAll(w, OfBatches(batches[..i], dev, fsid), exclude))
    {
      BatchStep(w, batches, i, dev, fsid, exclude);
      ghost var at := VisitAll(w, OfBatches(batches[..i], dev, fsid), exclude);
      seen := WalkBatch(batches[i], dev, fsid, exclude, seen, out, at);
      i := i + 1;
    }
    assert batches[..i] == batches;
  }

  // A root that cannot be stat'ed is reported and skipped.
  method WalkNext(root: Root, exclude: set<Inode>, seen0: set<Inode>, out: InternedPaths.Paths<u64>, ghost w: Walk)
    returns (seen: set<Inode>)
    requires Carries(out, seen0, w) && PlainBatches(root.batches) && Room(w, OfRoot(root), exclude)
    modifies out, out.table
    ensures Carries(out, seen, VisitAll(w, OfRoot(root), exclude))
  {
    match root.stat {
      case None => seen := seen0;
      case Some((dev, fsid)) => seen := WalkRoot(dev, fsid, root.batches, exclude, seen0, out, w);
    }
  }

  // ---- how often an inode is emitted ------------------------------------------------------

  function Emitted(out: seq<Found>, id: Inode): nat {
    if out == [] then 0 else Emitted(out[..|out| - 1], id) + (if out[|out| - 1].id == id then 1 else 0)
  }

  /** Entries of `id` that are emitted without looking at `seen`. */
  function Single(es: Arrivals, id: Inode, exclude: set<Inode>): nat {
    if es == [] then 0
    else
      var n := |es| - 1;
      Single(es[..n], id, exclude)
      + (if Eligible(es[n], exclude) && es[n].e.Id() == id && es[n].e.nlink <= 1 then 1 else 0)
  }

  /** Some entry of `id` has aliases. */
  ghost predicate Aliased(es: Arrivals, id: Inode, exclude: set<Inode>) {
    exists i :: 0 <= i < |es| && IsAlias(es[i], id, exclude)
  }

  predicate IsAlias(a: Arrival, id: Inode, exclude: set<Inode>) {
    Eligible(a, exclude) && a.e.Id() == id && a.e.nlink > 1
  }

  lemma EmittedSnoc(out: seq<Found>, f: Found, id: Inode)
    ensures Emitted(out + [f], id) == Emitted(out, id) + (if f.id == id then 1 else 0)
  {
  }

  lemma AliasedSnoc(es: Arrivals, id: Inode, exclude: set<Inode>)
    requires es != []
    ensures Aliased(es, id, exclude)
            <==> Aliased(es[..|es| - 1], id, exclude) || IsAlias(es[|es| - 1], id, exclude)
  {
  }

  /** Exactly how often `id` is emitted: once per entry without aliases, and once for all those with. */
  lemma {:induction false} EmittedExactly(es: Arrivals, seen0: set<Inode>, id: Inode, exclude: set<Inode>)
    ensures var w := VisitAll(Walk([], seen0), es, exclude);
            && Emitted(w.out, id)
               == Single(es, id, exclude)
                  + (if Aliased(es, id, exclude) && id !in seen0 then 1 else 0)
            && (id in w.seen <==> id in seen0 || Aliased(es, id, exclude))
  {
    if es == [] {
    } else {
      var n := |es| - 1;
      EmittedExactly(es[..n], seen0, id, exclude);
      AliasedSnoc(es, id, exclude);
      var w := VisitAll(Walk([], seen0), es[..n], exclude);
      EmittedSnoc(w.out, Find(es[n]), id);
    }
  }

  /** What is emitted is an eligible entry, under the name and directory it arrived with. */
  lemma {:induction false} EmittedArrived(es: Arrivals, seen0: set<Inode>, f: Found, exclude: set<Inode>)
    requires f in VisitAll(Walk([], seen0), es, exclude).out
    ensures exists i :: 0 <= i < |es| && Arrived(es[i], f, exclude)
  {
    var n := |es| - 1;
    var w := VisitAll(Walk([], seen0), es[..n], exclude);
    if f in w.out {
      EmittedArrived(es[..n], seen0, f, exclude);
      var i :| 0 <= i < n && Arrived(es[..n][i], f, exclude);
      assert Arrived(es[i], f, exclude);
    } else {
      assert Arrived(es[n], f, exclude);
    }
  }

  predicate Arrived(a: Arrival, f: Found, exclude: set<Inode>) {
    Eligible(a, exclude) && f == Find(a)
  }

  /** Some entry of `id` is on the root's device and not excluded. */
  ghost predicate Reached(es: Arrivals, id: Inode, exclude: set<Inode>) {
    exists i :: 0 <= i < |es| && Shows(es[i], id, exclude)
  }

  predicate Shows(a: Arrival, id: Inode, exclude: set<Inode>) {
    Eligible(a, exclude) && a.e.Id() == id
  }

  lemma {:induction false} SingleOrAliased(es: Arrivals, id: Inode, exclude: set<Inode>)
    ensures Reached(es, id, exclude)
            <==> Single(es, id, exclude) > 0 || Aliased(es, id, exclude)
  {
    if es == [] {
    } else {
      var n := |es| - 1;
      SingleOrAliased(es[..n], id, exclude);
      AliasedSnoc(es, id, exclude);
      ReachedSnoc(es, id, exclude);
    }
  }

  lemma ReachedSnoc(es: Arrivals, id: Inode, exclude: set<Inode>)
    requires es != []
    ensures Reached(es, id, exclude)
            <==> Reached(es[..|es| - 1], id, exclude) || Shows(es[|es| - 1], id, exclude)
  {
  }

  /**
   * From the start. The emitted inodes are exactly the non-excluded ones on a root's device, and an inode is emitted
   * at most once exactly if its entries without aliases, plus one if any has aliases, number at most one.
   */
  lemma WalkEmits(es: Arrivals, id: Inode, exclude: set<Inode>)
    ensures var out := VisitAll(Walk([], {}), es, exclude).out;
            && (Emitted(out, id) > 0 <==> Reached(es, id, exclude))
            && (Emitted(out, id) <= 1
                <==> Single(es, id, exclude) + (if Aliased(es, id, exclude) then 1 else 0) <= 1)
  {
    EmittedExactly(es, {}, id, exclude);
    SingleOrAliased(es, id, exclude);
  }

  /**
   * An inode that arrives without aliases and once more is emitted twice: a file linked between two stats of it, or
   * reached from two overlapping roots.
   */
  lemma EmittedTwice(a: Arrival, b: Arrival, exclude: set<Inode>)
    requires Eligible(a, exclude) && Eligible(b, exclude) && a.e.Id() == b.e.Id() && a.e.nlink <= 1
    ensures Emitted(VisitAll(Walk([], {}), [a, b], exclude).out, a.e.Id()) == 2
  {
    var w := Visit(Walk([], {}), a, exclude);
    VisitOne(Walk([], {}), a, exclude);
    assert [a, b][..1] == [a] && w.out == [Find(a)];
    EmittedSnoc([], Find(a), a.e.Id());
    assert [] + [Find(a)] == [Find(a)];
    EmittedSnoc([Find(a)], Find(b), a.e.Id());
  }

  // ---- stable link counts ----------------------------------------------------------------

  ghost predicate SameFile(es: Arrivals, i: nat, j: nat)
    requires i < |es| && j < |es|
  {
    es[i].e.Id() == es[j].e.Id()
  }

  /** Every stat of an inode finds one link count, and a count of at most one means one entry. */
  ghost predicate StableLinks(es: Arrivals) {
    forall i: nat, j: nat :: i < |es| && j < |es| && SameFile(es, i, j) ==>
      es[i].e.nlink == es[j].e.nlink && (es[i].e.nlink <= 1 ==> i == j)
  }

  lemma {:induction false} SingleFrom(es: Arrivals, n: nat, id: Inode, exclude: set<Inode>)
    requires StableLinks(es) && n <= |es|
    ensures Single(es[..n], id, exclude) <= 1
    ensures Single(es[..n], id, exclude) == 1 ==>
              exists i :: 0 <= i < n && es[i].e.Id() == id && es[i].e.nlink <= 1
  {
    if n == 0 {
    } else {
      assert es[..n][..n - 1] == es[..n - 1];
      SingleFrom(es, n - 1, id, exclude);
      if Single(es[..n - 1], id, exclude) == 1 && es[n - 1].e.Id() == id {
        var i :| 0 <= i < n - 1 && es[i].e.Id() == id && es[i].e.nlink <= 1;
        assert SameFile(es, i, n - 1);
      }
    }
  }

  /** With stable link counts each inode is emitted at most once, whichever alias arrives first. */
  lemma EmittedOnce(es: Arrivals, id: Inode, exclude: set<Inode>)
    requires StableLinks(es)
    ensures Emitted(VisitAll(Walk([], {}), es, exclude).out, id)
            == if Reached(es, id, exclude) then 1 else 0
  {
    WalkEmits(es, id, exclude);
    SingleFrom(es, |es|, id, exclude);
    assert es[..|es|] == es;
    if Single(es, id, exclude) == 1 && Aliased(es, id, exclude) {
      var i :| 0 <= i < |es| && es[i].e.Id() == id && es[i].e.nlink <= 1;
      var j :| 0 <= j < |es| && IsAlias(es[j], id, exclude);
      assert SameFile(es, i, j);
    }
  }

  // ---- any order of arrival ----------------------------------------------------------------

  lemma {:induction false} SingleConcat(a: Arrivals, b: Arrivals, id: Inode, exclude: set<Inode>)
    ensures Single(a + b, id, exclude) == Single(a, id, exclude) + Single(b, id, exclude)
  {
    if b == [] {
      assert a + b == a;
    } else {
      assert (a + b)[..|a + b| - 1] == a + b[..|b| - 1];
      SingleConcat(a, b[..|b| - 1], id, exclude);
    }
  }

  lemma TakeOut(a: Arrivals, b: Arrivals) returns (pre: Arrivals, post: Arrivals)
    requires a != [] && multiset(a) == multiset(b)
    ensures b == pre + ([a[|a| - 1]] + post) && multiset(a[..|a| - 1]) == multiset(pre + post)
  {
    var x := a[|a| - 1];
    assert x in multiset(a);
    assert x in b;
    var j :| 0 <= j < |b| && b[j] == x;
    pre, post := b[..j], b[j + 1..];
    WithoutOne(a, |a| - 1);
    WithoutOne(b, j);
    assert a[..|a| - 1] + a[|a|..] == a[..|a| - 1];
  }

  lemma WithoutOne(a: Arrivals, j: nat)
    requires j < |a|
    ensures a == a[..j] + ([a[j]] + a[j + 1..])
    ensures multiset(a[..j] + a[j + 1..]) == multiset(a) - multiset{a[j]}
  {
    assert a == a[..j] + ([a[j]] + a[j + 1..]);
    assert multiset(a) == multiset(a[..j]) + (multiset{a[j]} + multiset(a[j + 1..]));
  }

  lemma {:induction false} SingleInAnyOrder(a: Arrivals, b: Arrivals, id: Inode, exclude: set<Inode>)
    requires multiset(a) == multiset(b)
    ensures Single(a, id, exclude) == Single(b, id, exclude)
    decreases |a|
  {
    if a == [] {
      assert |multiset(b)| == 0;
    } else {
      var n := |a| - 1;
      var pre, post := TakeOut(a, b);
      SingleInAnyOrder(a[..n], pre + post, id, exclude);
      SingleConcat(pre, post, id, exclude);
      SingleConcat([a[n]], post, id, exclude);
      SingleConcat(pre, [a[n]] + post, id, exclude);
      assert a == a[..n] + [a[n]];
      SingleConcat(a[..n], [a[n]], id, exclude);
    }
  }

  lemma AliasedInAnyOrder(a: Arrivals, b: Arrivals, id: Inode, exclude: set<Inode>)
    requires multiset(a) == multiset(b)
    ensures Aliased(a, id, exclude) ==> Aliased(b, id, exclude)
  {
    if Aliased(a, id, exclude) {
      var i :| 0 <= i < |a| && IsAlias(a[i], id, exclude);
      assert a[i] in multiset(a);
      assert a[i] in b;
      var j :| 0 <= j < |b| && b[j] == a[i];
      assert IsAlias(b[j], id, exclude);
    }
  }

  /** In whatever order the files arrive, each inode is emitted equally often. */
  lemma OrderIndependent(a: Arrivals, b: Arrivals, seen: set<Inode>, id: Inode, exclude: set<Inode>)
    requires multiset(a) == multiset(b)
    ensures Emitted(VisitAll(Walk([], seen), a, exclude).out, id)
            == Emitted(VisitAll(Walk([], seen), b, exclude).out, id)
  {
    EmittedExactly(a, seen, id, exclude);
    EmittedExactly(b, seen, id, exclude);
    SingleInAnyOrder(a, b, id, exclude);
    AliasedInAnyOrder(a, b, id, exclude);
    AliasedInAnyOrder(b, a, id, exclude);
  }

  // ---- what is emitted, in terms of the messages --------------------------------------------

  /** On its root's device, and not excluded. */
  predicate Wanted(roots: seq<Root>, s: Spot, exclude: set<Inode>) {
    && Sent(roots, s) && EntryAt(roots, s).dev == roots[s.root].stat.value.0
    && (EntryAt(roots, s).dev, EntryAt(roots, s).ino) !in exclude
  }

  predicate SentWithId(roots: seq<Root>, s: Spot, id: Inode) {
    Sent(roots, s) && (EntryAt(roots, s).dev, EntryAt(roots, s).ino) == id
  }

  /** What is pushed for it: its name in the directory of its message, with its root's dataset. */
  ghost predicate PushedFor(roots: seq<Root>, s: Spot, item: (InternedPaths.Pushed, u64)) {
    && Sent(roots, s) && item.0.dir == roots[s.root].batches[s.batch].parent
    && item.0.name == EntryAt(roots, s).name && item.1 == roots[s.root].stat.value.1
  }

  ghost predicate ItemOf(roots: seq<Root>, exclude: set<Inode>, item: (InternedPaths.Pushed, u64), id: Inode) {
    exists s :: Wanted(roots, s, exclude) && SentWithId(roots, s, id) && PushedFor(roots, s, item)
  }

  /** Every item is of a wanted file, whose inode `ids` tells, and the inode of every wanted file is there. */
  ghost predicate Emits(roots: seq<Root>, exclude: set<Inode>, pushed: seq<(InternedPaths.Pushed, u64)>,
                        ids: seq<Inode>) {
    && |ids| == |pushed|
    && (forall j :: 0 <= j < |pushed| ==> ItemOf(roots, exclude, pushed[j], ids[j]))
    && forall s :: Wanted(roots, s, exclude) ==> (EntryAt(roots, s).dev, EntryAt(roots, s).ino) in ids
  }

  ghost predicate Distinct(ids: seq<Inode>) {
    forall i, j :: 0 <= i < j < |ids| ==> ids[i] != ids[j]
  }

  /** Every stat of an inode finds one link count, and a count of at most one means one file of one message. */
  ghost predicate LinksStable(roots: seq<Root>) {
    forall s, t :: Sent(roots, s) && Sent(roots, t) && EntryAt(roots, s).Id() == EntryAt(roots, t).Id() ==>
      EntryAt(roots, s).nlink == EntryAt(roots, t).nlink && (EntryAt(roots, s).nlink <= 1 ==> s == t)
  }

  lemma StableFromMessages(roots: seq<Root>, es: Arrivals, spots: seq<Spot>)
    requires Lists(roots, es, spots, |roots|, 0) && LinksStable(roots)
    ensures StableLinks(es)
  {
    forall i: nat, j: nat | i < |es| && j < |es| && SameFile(es, i, j)
      ensures es[i].e.nlink == es[j].e.nlink && (es[i].e.nlink <= 1 ==> i == j)
    {
      assert ArrivesAs(roots, spots[i], es[i]) && ArrivesAs(roots, spots[j], es[j]);
      if i < j {
        assert Earlier(spots[i], spots[j]);
      } else if j < i {
        assert Earlier(spots[j], spots[i]);
      }
    }
  }

  lemma {:induction false} EmittedMeaning(out: seq<Found>, id: Inode)
    ensures Emitted(out, id) > 0 <==> exists j :: 0 <= j < |out| && out[j].id == id
    ensures Emitted(out, id) <= 1 ==> forall i, j :: 0 <= i < j < |out| && out[j].id == id ==> out[i].id != id
  {
    if out == [] {
    } else {
      var n := |out| - 1;
      EmittedMeaning(out[..n], id);
      assert out == out[..n] + [out[n]];
      forall i, j | 0 <= i < j < |out| && out[j].id == id && Emitted(out, id) <= 1 ensures out[i].id != id {
        assert out[..n][i] == out[i];
        assert j < n ==> out[..n][j] == out[j];
      }
      forall j | 0 <= j < |out| && out[j].id == id ensures Emitted(out, id) > 0 {
        assert j < n ==> out[..n][j] == out[j];
      }
    }
  }

  function Ids(out: seq<Found>): seq<Inode> {
    seq(|out|, i requires 0 <= i < |out| => out[i].id)
  }

  lemma EmittedIsWanted(roots: seq<Root>, es: Arrivals, spots: seq<Spot>, exclude: set<Inode>, j: nat)
    requires Lists(roots, es, spots, |roots|, 0) && j < |VisitAll(Walk([], {}), es, exclude).out|
    ensures var out := VisitAll(Walk([], {}), es, exclude).out;
            ItemOf(roots, exclude, Pushes(out)[j], out[j].id)
  {
    var out := VisitAll(Walk([], {}), es, exclude).out;
    EmittedArrived(es, {}, out[j], exclude);
    var i :| 0 <= i < |es| && Arrived(es[i], out[j], exclude);
    var s := spots[i];
    assert ArrivesAs(roots, s, es[i]);
    assert Wanted(roots, s, exclude) && SentWithId(roots, s, out[j].id) && PushedFor(roots, s, Pushes(out)[j]);
  }

  lemma WantedIsEmitted(roots: seq<Root>, es: Arrivals, spots: seq<Spot>, exclude: set<Inode>, s: Spot)
    requires Lists(roots, es, spots, |roots|, 0) && Wanted(roots, s, exclude)
    ensures EntryAt(roots, s).Id() in Ids(VisitAll(Walk([], {}), es, exclude).out)
  {
    var out, id := VisitAll(Walk([], {}), es, exclude).out, EntryAt(roots, s).Id();
    assert UpTo(s, |roots|, 0) && s in spots;
    var i :| 0 <= i < |spots| && spots[i] == s;
    assert ArrivesAs(roots, s, es[i]);
    assert Shows(es[i], id, exclude);
    WalkEmits(es, id, exclude);
    EmittedMeaning(out, id);
    var j :| 0 <= j < |out| && out[j].id == id;
    assert Ids(out)[j] == id;
  }

  lemma StableIsDistinct(es: Arrivals, exclude: set<Inode>)
    requires StableLinks(es)
    ensures Distinct(Ids(VisitAll(Walk([], {}), es, exclude).out))
  {
    var out := VisitAll(Walk([], {}), es, exclude).out;
    forall i, j | 0 <= i < j < |out| ensures out[i].id != out[j].id {
      EmittedOnce(es, out[j].id, exclude);
      EmittedMeaning(out, out[j].id);
    }
  }

  /** What the loop emits of the messages, and with stable link counts each inode of a wanted file once. */
  lemma WalkEmitsMessages(roots: seq<Root>, exclude: set<Inode>)
    ensures var out := VisitAll(Walk([], {}), OfRoots(roots), exclude).out;
            Emits(roots, exclude, Pushes(out), Ids(out)) && (LinksStable(roots) ==> Distinct(Ids(out)))
  {
    var es := OfRoots(roots);
    var spots := ArrivalsAreListed(roots, |roots|);
    assert roots[..|roots|] == roots;
    var out := VisitAll(Walk([], {}), es, exclude).out;
    forall j | 0 <= j < |out| ensures ItemOf(roots, exclude, Pushes(out)[j], Ids(out)[j]) {
      EmittedIsWanted(roots, es, spots, exclude, j);
    }
    forall s | Wanted(roots, s, exclude) ensures EntryAt(roots, s).Id() in Ids(out) {
      WantedIsEmitted(roots, es, spots, exclude, s);
    }
    if LinksStable(roots) {
      StableFromMessages(roots, es, spots);
      StableIsDistinct(es, exclude);
    }
  }

  lemma {:induction false} DistinctSize(ids: seq<Inode>, inodes: set<Inode>)
    requires Distinct(ids) && forall id :: id in inodes <==> id in ids
    ensures |inodes| == |ids|
  {
    if ids == [] {
      assert inodes == {};
    } else {
      var last := ids[|ids| - 1];
      forall id ensures id in inodes - {last} <==> id in ids[..|ids| - 1] {
        assert id in ids <==> id in ids[..|ids| - 1] || id == last;
      }
      DistinctSize(ids[..|ids| - 1], inodes - {last});
      assert last in inodes;
    }
  }

  /** With each inode there once, there are as many items as there are inodes of wanted files. */
  lemma EmitsEachOnce(roots: seq<Root>, exclude: set<Inode>, pushed: seq<(InternedPaths.Pushed, u64)>, ids: seq<Inode>,
                      inodes: set<Inode>)
    requires Emits(roots, exclude, pushed, ids) && Distinct(ids)
    requires forall id :: id in inodes <==> exists s :: Wanted(roots, s, exclude) && SentWithId(roots, s, id)
    ensures |pushed| == |inodes|
  {
    forall id ensures id in inodes <==> id in ids {
      if id in ids {
        var j :| 0 <= j < |ids| && ids[j] == id;
        assert ItemOf(roots, exclude, pushed[j], ids[j]);
      }
    }
    DistinctSize(ids, inodes);
  }

  // Every root in turn, into one path table and with one set of seen inodes.
  method WalkRoots(roots: seq<Root>, exclude: set<Inode>) returns (out: InternedPaths.Paths<u64>, seen: set<Inode>)
    requires forall i :: 0 <= i < |roots| ==> PlainBatches(roots[i].batches)
    requires Room(Walk([], {}), OfRoots(roots), exclude)
    ensures fresh(out) && fresh(out.table) && Carries(out, seen, VisitAll(Walk([], {}), OfRoots(roots), exclude))
  {
    out := new InternedPaths.Paths<u64>();
    seen := {};
    ghost var w := Walk([], {});
    var i := 0;
    while i < |roots|
      invariant 0 <= i <= |roots| && fresh(out) && fresh(out.table)
      invariant Carries(out, seen, VisitAll(w, OfRoots(roots[..i]), exclude))
    {
      RootStep(w, roots, i, exclude);
      seen := WalkNext(roots[i], exclude, seen, out, VisitAll(w, OfRoots(roots[..i]), exclude));
      i := i + 1;
    }
    assert roots[..i] == roots;
  }

  /** `files`: what the walk of all roots emits, sealed. */
  method Files(roots: seq<Root>, exclude: set<Inode>)
    returns (out: InternedPaths.Paths<u64>, ghost ids: seq<Inode>)
    requires forall i :: 0 <= i < |roots| ==> PlainBatches(roots[i].batches)
    requires Room(Walk([], {}), OfRoots(roots), exclude)
    ensures out.Valid() && !out.table.open
    ensures Emits(roots, exclude, out.pushed, ids) && (LinksStable(roots) ==> Distinct(ids))
    ensures out.pushed == Pushes(VisitAll(Walk([], {}), OfRoots(roots), exclude).out)
    ensures (forall i :: 0 <= i < |roots| ==> NeatWalk(roots[i])) ==> InternedPaths.AllNeat(out.pushed)
  {
    var seen;
    out, seen := WalkRoots(roots, exclude);
    out.Seal();
    ids := Ids(VisitAll(Walk([], {}), OfRoots(roots), exclude).out);
    WalkEmitsMessages(roots, exclude);
    if forall k :: 0 <= k < |roots| ==> NeatWalk(roots[k]) {
      NeatRoots(roots);
      NeatEmissions(OfRoots(roots), {}, exclude);
    }
  }
}
