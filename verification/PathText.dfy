/** Unix paths as Rust's `Path` reads them: a byte string, compared by its components. */
module PathText {
  import opened Base

  type Name = seq<byte>

  const SLASH: byte := 47
  const DOT: byte := 46

  datatype Comp = Root | Cur | Up | Normal(name: Name)

  // Reading left to right: the components so far, the piece being read, and whether it is the first.
  datatype Reading = Reading(done: seq<Comp>, piece: Name, first: bool)

  /** Empty pieces and inner `.` pieces are no components. */
  function PieceOf(seg: Name, first: bool): seq<Comp> {
    if seg == [] then []
    else if seg == [DOT] then (if first then [Cur] else [])
    else if seg == [DOT, DOT] then [Up]
    else [Normal(seg)]
  }

  function ReadByte(r: Reading, z: byte): Reading {
    if z != SLASH then r.(piece := r.piece + [z])
    else Reading(r.done + (if r.first && r.piece == [] then [Root] else PieceOf(r.piece, r.first)), [], false)
  }

  function ReadAll(b: Name): Reading {
    if b == [] then Reading([], [], true) else ReadByte(ReadAll(b[..|b| - 1]), b[|b| - 1])
  }

  function Finish(r: Reading): seq<Comp> {
    r.done + PieceOf(r.piece, r.first)
  }

  /** `Path::components`. Two paths are equal when these are. */
  function Components(b: Name): seq<Comp> {
    Finish(ReadAll(b))
  }

  /** `PathBuf::push`. */
  function Push(b: Name, name: Name): Name {
    if name != [] && name[0] == SLASH then name
    else if b == [] || b[|b| - 1] == SLASH then b + name
    else b + [SLASH] + name
  }

  /** A directory entry's name. */
  predicate Plain(name: Name) {
    name != [] && name != [DOT] && name != [DOT, DOT] && SLASH !in name
  }

  // ---- pushing a name adds a component -----------------------------------------------

  lemma ReadOne(b: Name, z: byte)
    ensures ReadAll(b + [z]) == ReadByte(ReadAll(b), z)
  {
  }

  lemma {:induction false} ReadName(b: Name, name: Name)
    requires SLASH !in name
    ensures ReadAll(b + name) == ReadAll(b).(piece := ReadAll(b).piece + name)
  {
    if name == [] {
      assert b + name == b && ReadAll(b).piece + name == ReadAll(b).piece;
    } else {
      var m := |name| - 1;
      ReadName(b, name[..m]);
      ReadOne(b + name[..m], name[m]);
      assert b + name == b + name[..m] + [name[m]];
      assert ReadAll(b).piece + name == ReadAll(b).piece + name[..m] + [name[m]];
    }
  }

  /** The current piece ends the text, after a slash or at the start. */
  ghost predicate Ends(b: Name, r: Reading) {
    && SLASH !in r.piece && |r.piece| <= |b| && b[|b| - |r.piece|..] == r.piece
    && (if |r.piece| == |b| then r.first else !r.first && b[|b| - |r.piece| - 1] == SLASH)
  }

  lemma EndsStep(c: Name, z: byte, r: Reading)
    requires Ends(c, r)
    ensures Ends(c + [z], ReadByte(r, z))
  {
  }

  lemma {:induction false} PieceEnds(b: Name)
    ensures Ends(b, ReadAll(b))
  {
    if b == [] {
    } else {
      var c, z := b[..|b| - 1], b[|b| - 1];
      PieceEnds(c);
      EndsStep(c, z, ReadAll(c));
      assert b == c + [z];
    }
  }

  lemma AfterSlash(b: Name)
    requires b == [] || b[|b| - 1] == SLASH
    ensures ReadAll(b).piece == [] && (ReadAll(b).first <==> b == [])
  {
  }

  /** A name after a slash, or at the start, becomes the last component. */
  lemma NameAfterSlash(b: Name, name: Name)
    requires SLASH !in name
    requires b == [] || b[|b| - 1] == SLASH
    ensures Components(b + name) == Components(b) + PieceOf(name, b == [])
  {
    AfterSlash(b);
    ReadName(b, name);
    var r := ReadAll(b);
    assert r.piece + name == name;
    assert r.done + PieceOf([], r.first) == r.done;
  }

  lemma SlashAddsNothing(b: Name)
    requires b != []
    ensures Components(b + [SLASH]) == Components(b)
  {
  }

  lemma PushAddsName(b: Name, name: Name)
    requires Plain(name) || name == []
    ensures Components(Push(b, name)) == Components(b) + (if name == [] then [] else [Normal(name)])
  {
    if b == [] || b[|b| - 1] == SLASH {
      NameAfterSlash(b, name);
    } else {
      NameAfterSlash(b + [SLASH], name);
      SlashAddsNothing(b);
    }
  }

  // ---- taking the last name off ------------------------------------------------------

  function LastPiece(b: Name): (x: Name)
    ensures |x| <= |b|
  {
    PieceEnds(b);
    ReadAll(b).piece
  }

  predicate Dangling(b: Name) {
    |b| > 1 && (LastPiece(b) == [] || LastPiece(b) == [DOT])
  }

  /** Drop trailing slashes and `.` pieces, as far as they are no component. */
  function Trim(b: Name): (t: Name)
    ensures |t| <= |b|
  {
    if Dangling(b) then Trim(b[..|b| - 1]) else b
  }

  /** What precedes the last component, and that component; neither for an empty path or a root. */
  function Cut(b: Name): (r: Option<(Name, Comp)>)
    ensures r.Some? ==> |r.value.0| < |b|
  {
    var x := LastPiece(b);
    if Dangling(b) then Cut(b[..|b| - 1])
    else if PieceOf(x, |x| == |b|) == [] then None
    else Some((Trim(b[..|b| - |x|]), PieceOf(x, |x| == |b|)[0]))
  }

  /** `Path::parent`. */
  function Parent(b: Name): Option<Name> {
    match Cut(b)
    case None => None
    case Some((p, _)) => Some(p)
  }

  /** `Path::file_name`. */
  function FileName(b: Name): Option<Name> {
    match Cut(b)
    case Some((_, Normal(n))) => Some(n)
    case _ => None
  }

  lemma WithoutLast(b: Name)
    ensures var x := LastPiece(b);
            && SLASH !in x && (b[..|b| - |x|] == [] <==> |x| == |b|)
            && Components(b) == Components(b[..|b| - |x|]) + PieceOf(x, |x| == |b|)
  {
    PieceEnds(b);
    var x := LastPiece(b);
    var c := b[..|b| - |x|];
    assert b == c + x;
    assert c != [] ==> c[|c| - 1] == SLASH;
    NameAfterSlash(c, x);
  }

  lemma DanglingAddsNothing(b: Name)
    requires Dangling(b)
    ensures Components(b[..|b| - 1]) == Components(b)
  {
  }

  lemma {:induction false} TrimKeeps(b: Name)
    ensures Components(Trim(b)) == Components(b)
    decreases |b|
  {
    if !Dangling(b) {
    } else {
      DanglingAddsNothing(b);
      TrimKeeps(b[..|b| - 1]);
    }
  }

  lemma NothingCut(b: Name)
    requires |b| <= 1 && LastPiece(b) == []
    ensures Components(b) == [] || Components(b) == [Root]
  {
    PieceEnds(b);
    if |b| == 1 {
      assert b == [] + [SLASH];
      ReadOne([], SLASH);
    }
  }

  lemma OnePiece(x: Name, first: bool)
    requires SLASH !in x
    ensures x != [] && (first || x != [DOT]) ==>
              |PieceOf(x, first)| == 1 && PieceOf(x, first)[0] != Root
              && (PieceOf(x, first)[0].Normal? ==> Plain(PieceOf(x, first)[0].name))
    ensures x == [] || (x == [DOT] && !first) ==> PieceOf(x, first) == []
  {
  }

  /** A path is its parent and its last component; a path without parent is empty or a root. */
  lemma {:induction false} CutMeaning(b: Name)
    ensures match Cut(b)
            case None => Components(b) == [] || Components(b) == [Root]
            case Some((p, c)) =>
              c != Root && (c.Normal? ==> Plain(c.name)) && Components(b) == Components(p) + [c]
    decreases |b|
  {
    if Dangling(b) {
      DanglingAddsNothing(b);
      CutMeaning(b[..|b| - 1]);
    } else {
      var x := LastPiece(b);
      PieceEnds(b);
      OnePiece(x, |x| == |b|);
      if x == [] {
        NothingCut(b);
      } else {
        WithoutLast(b);
        TrimKeeps(b[..|b| - |x|]);
      }
    }
  }

  lemma FileNameMeaning(b: Name)
    ensures FileName(b).Some? ==>
              && Parent(b).Some? && Plain(FileName(b).value) && |Parent(b).value| < |b|
              && Components(b) == Components(Parent(b).value) + [Normal(FileName(b).value)]
    ensures FileName(b).Some? <==> Components(b) != [] && Components(b)[|Components(b)| - 1].Normal?
    ensures Parent(b).Some? ==>
              Components(b) != [] && Components(Parent(b).value) == Components(b)[..|Components(b)| - 1]
    ensures Parent(b).None? ==> Components(b) == [] || Components(b) == [Root]
  {
    CutMeaning(b);
  }

  lemma {:induction false} ComponentsArePlain(b: Name)
    ensures forall i :: 0 <= i < |Components(b)| && Components(b)[i].Normal? ==> Plain(Components(b)[i].name)
    decreases |b|
  {
    CutMeaning(b);
    match Cut(b)
    case None =>
    case Some((p, c)) => ComponentsArePlain(p);
  }

  // ---- normal form -------------------------------------------------------------------

  function TextOf(c: Comp): Name {
    match c
    case Root => [SLASH]
    case Cur => [DOT]
    case Up => [DOT, DOT]
    case Normal(n) => n
  }

  /** The one text of these components with nothing redundant in it. */
  function Render(cs: seq<Comp>): Name {
    if cs == [] then [] else Push(Render(cs[..|cs| - 1]), TextOf(cs[|cs| - 1]))
  }

  /** Nothing redundant in the path, nor in any path above it. */
  ghost predicate Neat(p: Name)
    decreases |p|
  {
    && !Dangling(p) && p == Render(Components(p))
    && (FileName(p).Some? && Parent(p).Some? && |Parent(p).value| < |p| ==> Neat(Parent(p).value))
  }

  lemma RenderSnoc(cs: seq<Comp>, c: Comp)
    ensures Render(cs + [c]) == Push(Render(cs), TextOf(c))
  {
    assert (cs + [c])[..|cs|] == cs;
  }

  lemma PieceAfter(pre: Name, n: Name)
    requires SLASH !in n && (pre == [] || pre[|pre| - 1] == SLASH)
    ensures LastPiece(pre + n) == n
  {
    AfterSlash(pre);
    ReadName(pre, n);
    assert [] + n == n;
  }

  /** Trimming what precedes a name just pushed gives the path it was pushed onto. */
  lemma CutPushed(q: Name, n: Name)
    requires !Dangling(q) && Plain(n)
    ensures Cut(Push(q, n)) == Some((q, Normal(n))) && !Dangling(Push(q, n))
  {
    var b := Push(q, n);
    var pre := b[..|b| - |n|];
    assert b == pre + n && (pre == q || (q != [] && pre == q + [SLASH]));
    PieceAfter(pre, n);
    assert LastPiece(b) == n && PieceOf(n, |n| == |b|) == [Normal(n)];
    if pre == q {
      assert Trim(pre) == q;
    } else {
      AfterSlash(pre);
      assert Dangling(pre) && pre[..|pre| - 1] == q;
      assert Trim(pre) == Trim(q) == q;
    }
  }

  lemma NeatRoot()
    ensures Neat([SLASH])
  {
    assert [] + [SLASH] == [SLASH];
    ReadOne([], SLASH);
    assert Components([SLASH]) == [Root];
    assert [Root][..0] == [];
    assert Render([Root]) == Push(Render([]), [SLASH]) == [SLASH];
    FileNameMeaning([SLASH]);
  }

  /** The root is neat, and so is a neat path with a plain name pushed onto it. */
  lemma NeatPush(q: Name, n: Name)
    requires Neat(q) && Plain(n)
    ensures Neat(Push(q, n)) && FileName(Push(q, n)) == Some(n) && Parent(Push(q, n)) == Some(q)
  {
    CutPushed(q, n);
    PushAddsName(q, n);
    RenderSnoc(Components(q), Normal(n));
  }

  function PushNames(p: Name, names: seq<Name>): Name {
    if names == [] then p else Push(PushNames(p, names[..|names| - 1]), names[|names| - 1])
  }

  predicate AllPlain(names: seq<Name>) {
    forall i :: 0 <= i < |names| ==> Plain(names[i])
  }

  /** So is every directory the walk reaches below a neat root. */
  lemma {:induction false} BelowIsNeat(root: Name, names: seq<Name>)
    requires Neat(root) && AllPlain(names)
    ensures Neat(PushNames(root, names))
  {
    if names == [] {
    } else {
      var n := |names| - 1;
      var q := PushNames(root, names[..n]);
      BelowIsNeat(root, names[..n]);
      NeatPush(q, names[n]);
      assert PushNames(root, names) == Push(q, names[n]);
    }
  }

  /** What `canonicalize` returns is neat: an absolute path of plain names. */
  lemma CanonicalIsNeat(names: seq<Name>)
    requires AllPlain(names)
    ensures Neat(PushNames([SLASH], names))
  {
    NeatRoot();
    BelowIsNeat([SLASH], names);
  }
}
