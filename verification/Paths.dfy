/** The interned path table of src/walk.rs: every directory once, every name in one arena, every path recoverable. */
module InternedPaths {
  import opened Base
  import opened PathText

  const NO_PARENT: u32 := U32_MAX

  // Parent is NO_PARENT for a root entry.
  datatype Dir = Dir(parent: u32, off: u32, len: u32)

  datatype FilePath = FilePath(dir: u32, off: u32, len: u32)

  type Comps = seq<Comp>

  ghost predicate InArena(arena: Name, off: nat, len: nat) {
    off + len <= |arena| <= U32_MAX
  }

  function NameIn(arena: Name, off: nat, len: nat): Name
    requires off + len <= |arena|
  {
    arena[off..off + len]
  }

  /** Names stay where they are and parents come before their children. */
  ghost predicate DirOk(arena: Name, dirs: seq<Dir>, comps: seq<Comps>, id: nat)
    requires id < |dirs| && |comps| == |dirs|
  {
    var d := dirs[id];
    && InArena(arena, d.off, d.len)
    && (d.parent != NO_PARENT ==>
          && d.parent < id && Plain(NameIn(arena, d.off, d.len))
          && comps[id] == comps[d.parent] + [Normal(NameIn(arena, d.off, d.len))])
    && (d.parent == NO_PARENT ==> comps[id] == Components(NameIn(arena, d.off, d.len)))
  }

  predicate Differ(comps: seq<Comps>, i: nat, j: nat)
    requires i < |comps| && j < |comps|
  {
    comps[i] != comps[j]
  }

  ghost predicate TableOk(arena: Name, dirs: seq<Dir>, comps: seq<Comps>) {
    && |comps| == |dirs| <= NO_PARENT && |arena| <= U32_MAX
    && (forall id :: 0 <= id < |dirs| ==> DirOk(arena, dirs, comps, id))
    && (forall i, j :: 0 <= i < j < |comps| ==> Differ(comps, i, j))
  }

  /** The text `dir_path` rebuilds: the root entry's, with the names below it pushed one by one. */
  ghost function DirText(arena: Name, dirs: seq<Dir>, comps: seq<Comps>, id: nat): Name
    requires TableOk(arena, dirs, comps) && id < |dirs|
  {
    assert DirOk(arena, dirs, comps, id);
    var name := NameIn(arena, dirs[id].off, dirs[id].len);
    if dirs[id].parent == NO_PARENT then Push([], name) else Push(DirText(arena, dirs, comps, dirs[id].parent), name)
  }

  lemma {:induction false} DirTextMeaning(arena: Name, dirs: seq<Dir>, comps: seq<Comps>, id: nat)
    requires TableOk(arena, dirs, comps) && id < |dirs|
    ensures Components(DirText(arena, dirs, comps, id)) == comps[id]
  {
    assert DirOk(arena, dirs, comps, id);
    var d := dirs[id];
    var name := NameIn(arena, d.off, d.len);
    if d.parent == NO_PARENT {
      assert [] + name == name;
    } else {
      DirTextMeaning(arena, dirs, comps, d.parent);
      PushAddsName(DirText(arena, dirs, comps, d.parent), name);
    }
  }

  /** Distinct ids denote distinct directories, and the text of each is found under exactly one id. */
  lemma OneIdPerDirectory(arena: Name, dirs: seq<Dir>, comps: seq<Comps>, i: nat, j: nat)
    requires TableOk(arena, dirs, comps) && i < |dirs| && j < |dirs|
    ensures Components(DirText(arena, dirs, comps, i)) == Components(DirText(arena, dirs, comps, j)) <==> i == j
    ensures dirs[i].parent != NO_PARENT ==> dirs[i].parent < i
  {
    DirTextMeaning(arena, dirs, comps, i);
    DirTextMeaning(arena, dirs, comps, j);
    assert DirOk(arena, dirs, comps, i);
    assert i < j ==> Differ(comps, i, j);
    assert j < i ==> Differ(comps, j, i);
  }

  // ---- growing -----------------------------------------------------------------------

  lemma MoreArena(arena: Name, more: Name, dirs: seq<Dir>, comps: seq<Comps>)
    requires TableOk(arena, dirs, comps) && |arena| + |more| <= U32_MAX
    ensures TableOk(arena + more, dirs, comps)
  {
    forall id | 0 <= id < |dirs| ensures DirOk(arena + more, dirs, comps, id) {
      assert DirOk(arena, dirs, comps, id);
      assert NameIn(arena + more, dirs[id].off, dirs[id].len) == NameIn(arena, dirs[id].off, dirs[id].len);
    }
  }

  lemma MoreDirs(arena: Name, dirs: seq<Dir>, comps: seq<Comps>, d: Dir, c: Comps)
    requires TableOk(arena, dirs, comps) && |dirs| < NO_PARENT && c !in comps
    requires DirOk(arena, dirs + [d], comps + [c], |dirs|)
    ensures TableOk(arena, dirs + [d], comps + [c])
  {
    forall id | 0 <= id < |dirs| ensures DirOk(arena, dirs + [d], comps + [c], id) {
      assert DirOk(arena, dirs, comps, id);
    }
    forall i, j | 0 <= i < j < |dirs| + 1 ensures Differ(comps + [c], i, j) {
      assert j < |dirs| ==> Differ(comps, i, j);
    }
  }

  // ---- how a root is spelled ---------------------------------------------------------

  /** What is kept whole as a root entry: a path that is empty or does not end in a name. */
  function RootComps(c: Comps): (r: Comps)
    ensures |r| <= |c|
  {
    if c != [] && c[|c| - 1].Normal? then RootComps(c[..|c| - 1]) else c
  }

  // The root entries, each as it was spelled when it was interned.
  type Roots = map<Comps, Name>

  /** The directory as the table spells it: its root entry, with the names below pushed one by one. */
  function Spelled(roots: Roots, c: Comps): Name {
    if c != [] && c[|c| - 1].Normal? then Push(Spelled(roots, c[..|c| - 1]), c[|c| - 1].name)
    else if c in roots then roots[c]
    else []
  }

  ghost predicate RootAt(arena: Name, dirs: seq<Dir>, comps: seq<Comps>, roots: Roots, id: nat)
    requires TableOk(arena, dirs, comps) && id < |dirs|
  {
    assert DirOk(arena, dirs, comps, id);
    dirs[id].parent == NO_PARENT ==>
      && RootComps(comps[id]) == comps[id] && comps[id] in roots
      && roots[comps[id]] == NameIn(arena, dirs[id].off, dirs[id].len)
  }

  ghost predicate RootsOk(arena: Name, dirs: seq<Dir>, comps: seq<Comps>, roots: Roots)
    requires TableOk(arena, dirs, comps)
  {
    forall id :: 0 <= id < |dirs| ==> RootAt(arena, dirs, comps, roots, id)
  }

  lemma SpelledRoot(roots: Roots, c: Comps)
    requires RootComps(c) == c && c in roots
    ensures Spelled(roots, c) == roots[c]
  {
  }

  lemma SpelledSnoc(roots: Roots, c: Comps, n: Name)
    ensures RootComps(c + [Normal(n)]) == RootComps(c)
    ensures Spelled(roots, c + [Normal(n)]) == Push(Spelled(roots, c), n)
  {
    assert (c + [Normal(n)])[..|c|] == c;
  }

  lemma {:induction false} SpelledText(arena: Name, dirs: seq<Dir>, comps: seq<Comps>, roots: Roots, id: nat)
    requires TableOk(arena, dirs, comps) && RootsOk(arena, dirs, comps, roots) && id < |dirs|
    ensures RootComps(comps[id]) in roots && DirText(arena, dirs, comps, id) == Spelled(roots, comps[id])
  {
    assert DirOk(arena, dirs, comps, id) && RootAt(arena, dirs, comps, roots, id);
    var d := dirs[id];
    var name := NameIn(arena, d.off, d.len);
    if d.parent == NO_PARENT {
      assert [] + name == name;
      SpelledRoot(roots, comps[id]);
    } else {
      SpelledText(arena, dirs, comps, roots, d.parent);
      SpelledSnoc(roots, comps[d.parent], name);
    }
  }

  lemma RootsStay(arena: Name, more: Name, dirs: seq<Dir>, comps: seq<Comps>, roots: Roots)
    requires TableOk(arena, dirs, comps) && TableOk(arena + more, dirs, comps) && RootsOk(arena, dirs, comps, roots)
    ensures RootsOk(arena + more, dirs, comps, roots)
  {
    forall id | 0 <= id < |dirs| ensures RootAt(arena + more, dirs, comps, roots, id) {
      assert DirOk(arena, dirs, comps, id) && RootAt(arena, dirs, comps, roots, id);
      assert NameIn(arena + more, dirs[id].off, dirs[id].len) == NameIn(arena, dirs[id].off, dirs[id].len);
    }
  }

  lemma RootsGrow(arena: Name, dirs: seq<Dir>, comps: seq<Comps>, roots: Roots, d: Dir, c: Comps)
    requires TableOk(arena, dirs, comps) && TableOk(arena, dirs + [d], comps + [c])
    requires RootsOk(arena, dirs, comps, roots) && c !in comps
    requires InArena(arena, d.off, d.len)
    requires d.parent == NO_PARENT ==> RootComps(c) == c
    ensures RootsOk(arena, dirs + [d], comps + [c], RootsWith(roots, d.parent, c, NameIn(arena, d.off, d.len)))
  {
    var roots' := RootsWith(roots, d.parent, c, NameIn(arena, d.off, d.len));
    forall id | 0 <= id < |dirs| + 1 ensures RootAt(arena, dirs + [d], comps + [c], roots', id) {
      assert id < |dirs| ==> RootAt(arena, dirs, comps, roots, id) && comps[id] in comps;
    }
  }

  function RootsWith(roots: Roots, parent: u32, c: Comps, name: Name): Roots {
    if parent == NO_PARENT then roots[c := name] else roots
  }

  /** The path above `p` that becomes a root entry, as `p` spells it. */
  function RootOf(p: Name): Name
    decreases |p|
  {
    FileNameMeaning(p);
    if FileName(p).None? then p else RootOf(Parent(p).value)
  }

  /** Interning `p` adds its root only if it is not there yet, however it is spelled. */
  function RootsAfter(roots: Roots, p: Name): Roots {
    var r := RootOf(p);
    if Components(r) in roots then roots else roots[Components(r) := r]
  }

  lemma {:induction false} RootOfMeaning(p: Name)
    ensures Components(RootOf(p)) == RootComps(Components(p)) && (Neat(p) ==> Neat(RootOf(p)))
    decreases |p|
  {
    FileNameMeaning(p);
    if FileName(p).None? {
    } else {
      RootOfMeaning(Parent(p).value);
      assert Components(p)[..|Components(p)| - 1] == Components(Parent(p).value);
    }
  }

  // ---- how much interning adds ---------------------------------------------------------

  /** Name bytes of the directories on the way to `p` that are not interned yet. */
  ghost function NewBytes(known: set<Comps>, p: Name): nat
    decreases |p|
  {
    FileNameMeaning(p);
    if Components(p) in known then 0
    else if FileName(p).None? then |p|
    else NewBytes(known, Parent(p).value) + |FileName(p).value|
  }

  ghost function NewDirs(known: set<Comps>, p: Name): nat
    decreases |p|
  {
    FileNameMeaning(p);
    if Components(p) in known then 0
    else if FileName(p).None? then 1
    else NewDirs(known, Parent(p).value) + 1
  }

  ghost function KnownAfter(known: set<Comps>, p: Name): set<Comps>
    decreases |p|
  {
    FileNameMeaning(p);
    if Components(p) in known then known
    else (if FileName(p).None? then known else KnownAfter(known, Parent(p).value)) + {Components(p)}
  }

  /** Interning a path adds only the path and its ancestors. */
  lemma {:induction false} OnlyAbove(known: set<Comps>, p: Name, c: Comps)
    requires c !in known && |Components(p)| < |c|
    ensures c !in KnownAfter(known, p)
    decreases |p|
  {
    FileNameMeaning(p);
    if Components(p) in known || FileName(p).None? {
    } else {
      OnlyAbove(known, Parent(p).value, c);
    }
  }

  // What was pushed: the parent directory and the name.
  datatype Pushed = Pushed(dir: Name, name: Name) {
    /** The file's path, as a path. */
    function Path(): Comps {
      Components(dir) + (if name == [] then [] else [Normal(name)])
    }

    /** The file's path, byte for byte. */
    function Text(): Name {
      Push(dir, name)
    }
  }

  ghost predicate FileOk(arena: Name, comps: seq<Comps>, fp: FilePath, p: Pushed) {
    && fp.dir < |comps| && comps[fp.dir] == Components(p.dir)
    && InArena(arena, fp.off, fp.len) && NameIn(arena, fp.off, fp.len) == p.name
    && (Plain(p.name) || p.name == [])
  }

  /** What is left to do once the parent is interned. */
  lemma InternStep(known: set<Comps>, p: Name)
    requires Components(p) !in known
    ensures FileName(p).None? ==>
              && NewBytes(known, p) == |p| && NewDirs(known, p) == 1 && KnownAfter(known, p) == known + {Components(p)}
              && RootOf(p) == p && RootComps(Components(p)) == Components(p)
    ensures FileName(p).Some? ==>
              && Parent(p).Some?
              && var par, name := Parent(p).value, FileName(p).value;
                 && |par| < |p| && Plain(name) && Components(p) == Components(par) + [Normal(name)]
                 && NewBytes(known, p) == NewBytes(known, par) + |name|
                 && NewDirs(known, p) == NewDirs(known, par) + 1
                 && KnownAfter(known, p) == KnownAfter(known, par) + {Components(p)}
                 && Components(p) !in KnownAfter(known, par) && RootOf(p) == RootOf(par)
  {
    FileNameMeaning(p);
    if FileName(p).Some? {
      OnlyAbove(known, Parent(p).value, Components(p));
    }
  }

  class PathTable {
    var arena: Name
    var dirs: seq<Dir>
    var ids: map<Comps, u32>         // keyed by path, and paths are equal by components
    ghost var comps: seq<Comps>      // the directory each id denotes
    ghost var roots: Roots           // the root entries, as spelled when they were interned
    ghost var open: bool             // until `seal`

    constructor ()
      ensures Valid() && dirs == [] && arena == [] && open && ids == map[] && roots == map[]
    {
      arena, dirs, ids, comps, roots, open := [], [], map[], [], map[], true;
    }

    ghost predicate Valid()
      reads this
    {
      && TableOk(arena, dirs, comps) && RootsOk(arena, dirs, comps, roots)
      && (forall c :: c in ids ==> ids[c] < |dirs| && comps[ids[c]] == c)
      && (open ==> forall id :: 0 <= id < |dirs| ==> comps[id] in ids)
      && (open ==> roots.Keys <= ids.Keys)
    }

    /** Nothing already stored moves. */
    twostate predicate Extends()
      reads this
    {
      && old(arena) <= arena && old(dirs) <= dirs && old(comps) <= comps && old(open) == open
    }

    method AddName(name: Name) returns (off: u32, len: u32)
      requires Valid() && |arena| + |name| <= U32_MAX
      modifies this`arena
      ensures Valid() && arena == old(arena) + name
      ensures off == |old(arena)| && len == |name| && NameIn(arena, off, len) == name
    {
      MoreArena(arena, name, dirs, comps);
      RootsStay(arena, name, dirs, comps, roots);
      off := |arena|;
      arena := arena + name;
      len := |name|;
    }

    function NameAt(off: u32, len: u32): (name: Name)
      requires off + len <= |arena|
      reads this`arena
    {
      NameIn(arena, off, len)
    }

    // A path that does not end in a name, such as "/", "" or "a/..", is stored whole, without a parent.
    method Intern(p: Name) returns (id: u32)
      requires Valid() && open
      requires |arena| + NewBytes(ids.Keys, p) <= U32_MAX && |dirs| + NewDirs(ids.Keys, p) <= NO_PARENT
      modifies this
      ensures Valid() && Extends() && roots == old(RootsAfter(roots, p))
      ensures id < |dirs| && comps[id] == Components(p)
      ensures |arena| == old(|arena| + NewBytes(ids.Keys, p)) && |dirs| == old(|dirs| + NewDirs(ids.Keys, p))
      ensures ids.Keys == old(KnownAfter(ids.Keys, p))
      decreases |p|
    {
      var c := Components(p);
      if c in ids {
        SpelledText(arena, dirs, comps, roots, ids[c]);
        RootOfMeaning(p);
        return ids[c];
      }
      InternStep(ids.Keys, p);
      var parent, name := NO_PARENT, p;
      match (Parent(p), FileName(p)) {
        case (Some(par), Some(last)) =>
          parent := Intern(par);
          name := last;
        case _ =>
      }
      id := AddDir(parent, name, c);
    }

    method AddDir(parent: u32, name: Name, c: Comps) returns (id: u32)
      requires Valid() && open && |arena| + |name| <= U32_MAX && |dirs| < NO_PARENT && c !in ids
      requires parent == NO_PARENT ==> c == Components(name) && RootComps(c) == c
      requires parent != NO_PARENT ==> parent < |dirs| && Plain(name) && c == comps[parent] + [Normal(name)]
      modifies this
      ensures Valid() && open && id == old(|dirs|)
      ensures arena == old(arena) + name && dirs == old(dirs) + [Dir(parent, old(|arena|), |name|)]
      ensures comps == old(comps) + [c] && ids == old(ids)[c := id] && ids.Keys == old(ids.Keys) + {c}
      ensures roots == RootsWith(old(roots), parent, c, name)
    {
      var off, len := AddName(name);
      id := |dirs|; // "dir table overflow" past NO_PARENT
      MoreDirs(arena, dirs, comps, Dir(parent, off, len), c);
      RootsGrow(arena, dirs, comps, roots, Dir(parent, off, len), c);
      dirs := dirs + [Dir(parent, off, len)];
      comps := comps + [c];
      roots := RootsWith(roots, parent, c, name);
      ids := ids[c := id];
    }

    // The directory, then the name.
    method AddFile(parent: Name, name: Name) returns (fp: FilePath)
      requires Valid() && open && (Plain(name) || name == [])
      requires |arena| + NewBytes(ids.Keys, parent) + |name| <= U32_MAX
      requires |dirs| + NewDirs(ids.Keys, parent) <= NO_PARENT
      modifies this
      ensures Valid() && Extends() && roots == old(RootsAfter(roots, parent))
      ensures FileOk(arena, comps, fp, Pushed(parent, name))
      ensures |arena| == old(|arena| + NewBytes(ids.Keys, parent)) + |name|
      ensures |dirs| == old(|dirs| + NewDirs(ids.Keys, parent)) && ids.Keys == old(KnownAfter(ids.Keys, parent))
    {
      var dir := Intern(parent);
      var off, len := AddName(name);
      fp := FilePath(dir, off, len);
    }

    method DirPath(id: u32) returns (p: Name)
      requires Valid() && (id != NO_PARENT ==> id < |dirs|)
      ensures p == if id == NO_PARENT then [] else DirText(arena, dirs, comps, id)
      ensures id != NO_PARENT ==> Components(p) == comps[id] && p == Spelled(roots, comps[id])
    {
      var parts: seq<(u32, u32)> := [];
      var at: u32 := id;
      ghost var todo: seq<u32> := [];
      while at != NO_PARENT
        invariant at != NO_PARENT ==> at < |dirs|
        invariant PartsOk(parts)
        invariant Rebuilt(parts, id, at)
        decreases if at == NO_PARENT then 0 else at + 1
      {
        assert DirOk(arena, dirs, comps, at);
        var d := dirs[at];
        RebuildStep(parts, id, at);
        parts := parts + [(d.off, d.len)];
        at := d.parent;
      }
      p := [];
      var i := |parts|;
      assert parts[..i] == parts;
      while i > 0
        invariant 0 <= i <= |parts|
        invariant PushAll(parts[..i], p) == PushAll(parts, [])
      {
        i := i - 1;
        assert parts[..i + 1][..i] == parts[..i];
        p := Push(p, NameAt(parts[i].0, parts[i].1));
      }
      if id != NO_PARENT {
        DirTextMeaning(arena, dirs, comps, id);
        SpelledText(arena, dirs, comps, roots, id);
      }
    }

    ghost predicate PartsOk(parts: seq<(u32, u32)>)
      reads this
    {
      forall i :: 0 <= i < |parts| ==> InArena(arena, parts[i].0, parts[i].1)
    }

    /** The names of `parts` pushed onto `p`, last part first. */
    ghost function PushAll(parts: seq<(u32, u32)>, p: Name): Name
      requires PartsOk(parts)
      reads this
    {
      if parts == [] then p
      else
        var n := |parts| - 1;
        PushAll(parts[..n], Push(p, NameAt(parts[n].0, parts[n].1)))
    }

    ghost function TextUpTo(at: u32): Name
      requires Valid() && (at != NO_PARENT ==> at < |dirs|)
      reads this
    {
      if at == NO_PARENT then [] else DirText(arena, dirs, comps, at)
    }

    /** Pushing the collected names onto the text of what is left gives the text of `id`. */
    ghost predicate Rebuilt(parts: seq<(u32, u32)>, id: u32, at: u32)
      requires Valid() && (at != NO_PARENT ==> at < |dirs|) && (id != NO_PARENT ==> id < |dirs|) && PartsOk(parts)
      reads this
    {
      PushAll(parts, TextUpTo(at)) == TextUpTo(id)
    }

    lemma RebuildStep(parts: seq<(u32, u32)>, id: u32, at: u32)
      requires Valid() && at < |dirs| && (id != NO_PARENT ==> id < |dirs|) && PartsOk(parts)
      requires Rebuilt(parts, id, at)
      ensures InArena(arena, dirs[at].off, dirs[at].len) && (dirs[at].parent != NO_PARENT ==> dirs[at].parent < |dirs|)
      ensures Rebuilt(parts + [(dirs[at].off, dirs[at].len)], id, dirs[at].parent)
    {
      assert DirOk(arena, dirs, comps, at);
      assert (parts + [(dirs[at].off, dirs[at].len)])[..|parts|] == parts;
    }

    // Drops the lookup map.
    method Seal()
      requires Valid()
      modifies this
      ensures Valid() && arena == old(arena) && dirs == old(dirs) && comps == old(comps) && roots == old(roots)
      ensures !open && ids == map[]
    {
      ids := map[];
      open := false;
    }
  }

  // ---- files -------------------------------------------------------------------------

  /** The directories interned once these files are pushed, and the arena bytes and directory entries they take. */
  ghost function KnownDirs<T>(es: seq<(Pushed, T)>): set<Comps> {
    if es == [] then {} else KnownAfter(KnownDirs(es[..|es| - 1]), es[|es| - 1].0.dir)
  }

  ghost function RoomBytes<T>(es: seq<(Pushed, T)>): nat {
    if es == [] then 0
    else
      var e, less := es[|es| - 1].0, es[..|es| - 1];
      RoomBytes(less) + NewBytes(KnownDirs(less), e.dir) + |e.name|
  }

  ghost function RoomDirs<T>(es: seq<(Pushed, T)>): nat {
    if es == [] then 0
    else
      var e, less := es[|es| - 1].0, es[..|es| - 1];
      RoomDirs(less) + NewDirs(KnownDirs(less), e.dir)
  }

  /** The 32-bit offsets and directory numbers suffice for these files. */
  ghost predicate Fits<T>(es: seq<(Pushed, T)>) {
    RoomBytes(es) <= U32_MAX && RoomDirs(es) <= NO_PARENT
  }

  lemma {:induction false} FitsPrefix<T>(less: seq<(Pushed, T)>, es: seq<(Pushed, T)>)
    requires less <= es && Fits(es)
    ensures Fits(less)
    decreases |es|
  {
    if |less| == |es| {
      assert less == es;
    } else {
      FitsPrefix(less, es[..|es| - 1]);
    }
  }

  lemma FitsNext<T>(less: seq<(Pushed, T)>, es: seq<(Pushed, T)>)
    requires less < es && Fits(es)
    ensures Fits(less + [es[|less|]]) && less + [es[|less|]] <= es
  {
    FitsPrefix(less + [es[|less|]], es);
  }

  lemma RoomSnoc<T>(es: seq<(Pushed, T)>, e: (Pushed, T))
    ensures KnownDirs(es + [e]) == KnownAfter(KnownDirs(es), e.0.dir)
    ensures RoomBytes(es + [e]) == RoomBytes(es) + NewBytes(KnownDirs(es), e.0.dir) + |e.0.name|
    ensures RoomDirs(es + [e]) == RoomDirs(es) + NewDirs(KnownDirs(es), e.0.dir)
    ensures RootsOf(es + [e]) == RootsAfter(RootsOf(es), e.0.dir)
  {
    assert (es + [e])[..|es|] == es;
  }

  ghost predicate FilesOk<T>(arena: Name, comps: seq<Comps>, files: seq<(FilePath, T)>, es: seq<(Pushed, T)>) {
    && |es| == |files|
    && forall i :: 0 <= i < |files| ==> files[i].1 == es[i].1 && FileOk(arena, comps, files[i].0, es[i].0)
  }

  lemma FilesStay<T>(arena: Name, arena': Name, comps: seq<Comps>, comps': seq<Comps>,
                     files: seq<(FilePath, T)>, es: seq<(Pushed, T)>)
    requires FilesOk(arena, comps, files, es) && arena <= arena' && comps <= comps' && |arena'| <= U32_MAX
    ensures FilesOk(arena', comps', files, es)
  {
    forall i | 0 <= i < |files| ensures FileOk(arena', comps', files[i].0, es[i].0) {
      var fp := files[i].0;
      assert FileOk(arena, comps, fp, es[i].0);
      assert NameIn(arena', fp.off, fp.len) == NameIn(arena, fp.off, fp.len);
    }
  }

  lemma FilesGrow<T>(arena: Name, comps: seq<Comps>, files: seq<(FilePath, T)>, es: seq<(Pushed, T)>,
                     fp: FilePath, e: (Pushed, T))
    requires FilesOk(arena, comps, files, es) && FileOk(arena, comps, fp, e.0)
    ensures FilesOk(arena, comps, files + [(fp, e.1)], es + [e])
  {
  }

  /** The root entries once these files are pushed: each as the first file below it spelled it. */
  ghost function RootsOf<T>(es: seq<(Pushed, T)>): Roots {
    if es == [] then map[] else RootsAfter(RootsOf(es[..|es| - 1]), es[|es| - 1].0.dir)
  }

  /** The path that comes back for file `i`. */
  ghost function Back<T>(es: seq<(Pushed, T)>, i: nat): Name
    requires i < |es|
  {
    Push(Spelled(RootsOf(es), Components(es[i].0.dir)), es[i].0.name)
  }

  /** Every directory was pushed in normal form. */
  ghost predicate AllNeat<T>(es: seq<(Pushed, T)>) {
    forall i :: 0 <= i < |es| ==> Neat(es[i].0.dir)
  }

  lemma {:induction false} RootIsSpelled<T>(es: seq<(Pushed, T)>, i: nat)
    requires i < |es|
    ensures RootComps(Components(es[i].0.dir)) in RootsOf(es)
  {
    var n := |es| - 1;
    RootOfMeaning(es[i].0.dir);
    if i == n {
    } else {
      RootIsSpelled(es[..n], i);
    }
  }

  lemma {:induction false} RootsAreNeat<T>(es: seq<(Pushed, T)>, c: Comps)
    requires AllNeat(es) && c in RootsOf(es)
    ensures RootsOf(es)[c] == Render(c)
  {
    var n := |es| - 1;
    if c in RootsOf(es[..n]) {
      RootsAreNeat(es[..n], c);
    } else {
      RootOfMeaning(es[n].0.dir);
    }
  }

  lemma {:induction false} SpelledNeatly(roots: Roots, c: Comps)
    requires RootComps(c) in roots && roots[RootComps(c)] == Render(RootComps(c))
    ensures Spelled(roots, c) == Render(c)
  {
    if c != [] && c[|c| - 1].Normal? {
      SpelledNeatly(roots, c[..|c| - 1]);
    } else {
    }
  }

  /** If every directory was pushed in normal form, every path comes back byte for byte. */
  lemma NeatComesBack<T>(es: seq<(Pushed, T)>, i: nat)
    requires i < |es| && AllNeat(es)
    ensures Back(es, i) == es[i].0.Text()
  {
    var c := Components(es[i].0.dir);
    RootIsSpelled(es, i);
    RootsAreNeat(es, RootComps(c));
    SpelledNeatly(RootsOf(es), c);
    assert Neat(es[i].0.dir);
  }

  // ---- exactly when a path comes back byte for byte --------------------------------------

  function Slashed(p: Name): Name {
    if p == [] || p[|p| - 1] == SLASH then p else p + [SLASH]
  }

  /** The names below the root entry, each followed by a slash. */
  function NamesBelow(c: Comps): Name {
    if c != [] && c[|c| - 1].Normal? then NamesBelow(c[..|c| - 1]) + c[|c| - 1].name + [SLASH] else []
  }

  ghost predicate PlainComps(c: Comps) {
    forall i :: 0 <= i < |c| && c[i].Normal? ==> Plain(c[i].name)
  }

  lemma SlashedPush(p: Name, n: Name)
    requires Plain(n) || n == []
    ensures Push(p, n) == Slashed(p) + n
    ensures n != [] ==> Slashed(Push(p, n)) == Slashed(p) + n + [SLASH]
  {
  }

  lemma {:induction false} SlashedSpelled(roots: Roots, c: Comps)
    requires PlainComps(c) && RootComps(c) in roots
    ensures Slashed(Spelled(roots, c)) == Slashed(roots[RootComps(c)]) + NamesBelow(c)
  {
    if c != [] && c[|c| - 1].Normal? {
      var less, n := c[..|c| - 1], c[|c| - 1].name;
      SlashedSpelled(roots, less);
      SlashedPush(Spelled(roots, less), n);
    } else {
    }
  }

  /**
   * A path comes back byte for byte exactly if its directory, but for a trailing slash, is the first pushed spelling
   * of its root followed by the names below the root, one slash after each.
   */
  lemma ComesBackExactlyIff<T>(es: seq<(Pushed, T)>, i: nat)
    requires i < |es| && (Plain(es[i].0.name) || es[i].0.name == [])
    ensures var d := es[i].0.dir;
            var c := Components(d);
            && RootComps(c) in RootsOf(es)
            && (Back(es, i) == es[i].0.Text() <==> Slashed(d) == Slashed(RootsOf(es)[RootComps(c)]) + NamesBelow(c))
  {
    var d, n := es[i].0.dir, es[i].0.name;
    var c := Components(d);
    RootIsSpelled(es, i);
    ComponentsArePlain(d);
    SlashedSpelled(RootsOf(es), c);
    SlashedPush(Spelled(RootsOf(es), c), n);
    SlashedPush(d, n);
    SameFront(Slashed(Spelled(RootsOf(es), c)), Slashed(d), n);
  }

  lemma SameFront(a: Name, b: Name, n: Name)
    ensures a + n == b + n <==> a == b
  {
    if a + n == b + n {
      assert |a| == |b|;
      assert a == (a + n)[..|a|] && b == (b + n)[..|b|];
    }
  }

  /** "/" after "//": the second file comes back below "//". */
  lemma RootSpelledTwice<T>(x: Name, n: Name, t: T)
    requires Plain(n)
    ensures var es := [(Pushed([SLASH, SLASH], x), t), (Pushed([SLASH], n), t)];
            Back(es, 1) == [SLASH, SLASH] + n && es[1].0.Text() == [SLASH] + n
  {
    var es := [(Pushed([SLASH, SLASH], x), t), (Pushed([SLASH], n), t)];
    OnlyRoots();
    assert es[..1][..0] == [] && es[..1] == [es[0]];
    assert RootsOf(es[..1]) == map[[Root] := [SLASH, SLASH]];
    assert RootsOf(es) == RootsOf(es[..1]);
  }

  lemma OnlyRoots()
    ensures Components([SLASH]) == [Root] == Components([SLASH, SLASH])
    ensures RootOf([SLASH]) == [SLASH] && RootOf([SLASH, SLASH]) == [SLASH, SLASH]
  {
    assert [] + [SLASH] == [SLASH];
    ReadOne([], SLASH);
    assert Components([SLASH]) == [Root];
    SlashAddsNothing([SLASH]);
    assert [SLASH] + [SLASH] == [SLASH, SLASH];
    FileNameMeaning([SLASH]);
    FileNameMeaning([SLASH, SLASH]);
  }

  class Paths<T> {
    const table: PathTable
    var files: seq<(FilePath, T)>
    ghost var pushed: seq<(Pushed, T)>

    constructor ()
      ensures Valid() && files == [] && pushed == [] && fresh(table) && table.open
    {
      table := new PathTable();
      files, pushed := [], [];
    }

    ghost predicate Valid()
      reads this, table
    {
      && table.Valid() && FilesOk(table.arena, table.comps, files, pushed)
      && table.roots == RootsOf(pushed)
      && |table.arena| == RoomBytes(pushed) && |table.dirs| == RoomDirs(pushed)
      && (table.open ==> table.ids.Keys == KnownDirs(pushed))
    }

    method Push(parent: Name, name: Name, payload: T)
      requires Valid() && table.open && (Plain(name) || name == [])
      requires Fits(pushed + [(Pushed(parent, name), payload)])
      modifies this, table
      ensures Valid() && table.open && pushed == old(pushed) + [(Pushed(parent, name), payload)]
      ensures old(files) <= files
    {
      ghost var e := (Pushed(parent, name), payload);
      RoomSnoc(pushed, e);
      var fp := table.AddFile(parent, name);
      FilesStay(old(table.arena), table.arena, old(table.comps), table.comps, files, pushed);
      FilesGrow(table.arena, table.comps, files, pushed, fp, e);
      files := files + [(fp, payload)];
      pushed := pushed + [e];
    }

    // `path`: whatever was pushed later, and after `seal`, exactly the path that was pushed. Byte for byte it is the
    // table's spelling of the directory, with the name pushed onto it.
    method Path(i: nat) returns (p: Name)
      requires Valid() && i < |files|
      ensures Components(p) == pushed[i].0.Path() && p == Back(pushed, i)
      ensures AllNeat(pushed) ==> p == pushed[i].0.Text()
    {
      var fp := files[i].0;
      assert FileOk(table.arena, table.comps, fp, pushed[i].0);
      var dir := table.DirPath(fp.dir);
      p := PathText.Push(dir, table.NameAt(fp.off, fp.len));
      PushAddsName(dir, pushed[i].0.name);
      if AllNeat(pushed) {
        NeatComesBack(pushed, i);
      }
    }

    method Seal()
      requires Valid()
      modifies table
      ensures Valid() && !table.open && table.dirs == old(table.dirs) && table.arena == old(table.arena)
    {
      table.Seal();
    }
  }

  // ---- the collecting constructor ------------------------------------------------------

  /** `p.parent().unwrap_or("")` */
  function Above(p: Name): Name {
    if Parent(p).Some? then Parent(p).value else []
  }

  /** `p.file_name().unwrap_or("")` */
  function Last(p: Name): Name {
    if FileName(p).Some? then FileName(p).value else []
  }

  function Entry(p: Name): Pushed {
    Pushed(Above(p), Last(p))
  }

  function Entries<T>(paths: seq<(Name, T)>): (es: seq<(Pushed, T)>)
    ensures |es| == |paths|
    ensures forall i :: 0 <= i < |es| ==> es[i] == (Entry(paths[i].0), paths[i].1)
  {
    if paths == [] then []
    else
      var (p, t) := paths[|paths| - 1];
      Entries(paths[..|paths| - 1]) + [(Entry(p), t)]
  }

  /** A path comes back, equal as a path, exactly if it ends in a name or is empty. */
  lemma ComesBackIff(p: Name)
    ensures Entry(p).Path() == Components(p) <==> FileName(p).Some? || Components(p) == []
  {
    FileNameMeaning(p);
  }

  lemma NameIsPlain(p: Name)
    ensures Plain(Entry(p).name) || Entry(p).name == []
  {
    FileNameMeaning(p);
  }

  /** "/" comes back as "". */
  lemma RootDoesNotComeBack()
    ensures Components([SLASH]) == [Root] && Entry([SLASH]).Path() == []
  {
    assert [] + [SLASH] == [SLASH];
    ReadOne([], SLASH);
    FileNameMeaning([SLASH]);
    CutMeaning([SLASH]);
    FileNameMeaning([]);
  }

  /** "a/.." comes back as "a". */
  lemma UpDoesNotComeBack(a: Name)
    requires Plain(a)
    ensures Components(a + [SLASH] + [DOT, DOT]) == [Normal(a), Up]
    ensures Entry(a + [SLASH] + [DOT, DOT]).Path() == [Normal(a)]
  {
    var p := a + [SLASH] + [DOT, DOT];
    UpComponents(a);
    UpEntry(p, Normal(a));
  }

  lemma UpComponents(a: Name)
    requires Plain(a)
    ensures Components(a + [SLASH] + [DOT, DOT]) == [Normal(a), Up]
  {
    NameAfterSlash([], a);
    assert [] + a == a;
    SlashAddsNothing(a);
    NameAfterSlash(a + [SLASH], [DOT, DOT]);
  }

  lemma UpEntry(p: Name, c: Comp)
    requires Components(p) == [c, Up]
    ensures Entry(p).Path() == [c]
  {
    FileNameMeaning(p);
    assert Components(p)[..1] == [c];
  }

  ghost predicate EachComesBackIff<T>(es: seq<(Pushed, T)>, paths: seq<(Name, T)>) {
    && |es| == |paths|
    && forall i :: 0 <= i < |paths| ==>
         (es[i].0.Path() == Components(paths[i].0)
          <==> FileName(paths[i].0).Some? || Components(paths[i].0) == [])
  }

  lemma EntriesComeBackIff<T>(paths: seq<(Name, T)>)
    ensures EachComesBackIff(Entries(paths), paths)
  {
    forall i | 0 <= i < |paths|
      ensures Entries(paths)[i].0.Path() == Components(paths[i].0)
              <==> FileName(paths[i].0).Some? || Components(paths[i].0) == []
    {
      ComesBackIff(paths[i].0);
    }
  }

  /** One more of the files `es`, for which there is room. */
  method PushPath<T>(out: Paths<T>, ghost es: seq<(Pushed, T)>, p: Name, t: T)
    requires Fits(es) && |out.pushed| < |es| && out.pushed <= es && es[|out.pushed|] == (Entry(p), t)
    requires out.Valid() && out.table.open
    modifies out, out.table
    ensures out.Valid() && out.table.open && out.pushed <= es && |out.pushed| == |old(out.pushed)| + 1
  {
    NameIsPlain(p);
    FitsNext(out.pushed, es);
    out.Push(Above(p), Last(p), t);
  }

  /** The collecting constructor: each path is pushed as its parent and its name. */
  method FromPaths<T>(paths: seq<(Name, T)>) returns (out: Paths<T>)
    requires Fits(Entries(paths))
    ensures out.Valid() && !out.table.open && out.pushed == Entries(paths)
    ensures EachComesBackIff(out.pushed, paths)
  {
    out := new Paths<T>();
    ghost var es := Entries(paths);
    var i := 0;
    while i < |paths|
      invariant 0 <= i <= |paths| && out.Valid() && out.table.open && fresh(out) && fresh(out.table)
      invariant out.pushed <= es && |out.pushed| == i
    {
      PushPath(out, es, paths[i].0, paths[i].1);
      i := i + 1;
    }
    out.Seal();
    EntriesComeBackIff(paths);
  }
}
