/** Paths, the file system a download writes to, and directory trees. */
module ScpFiles {
  import opened Common
  import opened ScpHeader

  type Name = Bytes
  type Path = seq<Name>

  datatype Entry = Dir | File(content: Bytes)
  type Fs = map<Path, Entry>

  const SLASH: byte := 47
  const DOT: byte := 46

  function FindSlash(s: Bytes): (i: nat)
    ensures i <= |s| && (i < |s| ==> s[i] == SLASH)
    ensures forall j :: 0 <= j < i ==> s[j] != SLASH
  {
    if s == [] || s[0] == SLASH then 0 else 1 + FindSlash(s[1..])
  }

  /** The components of a path string; empty ones and `.` name nothing. */
  function Components(s: Bytes): Path
    decreases |s|
  {
    var i := FindSlash(s);
    Named(s[..i]) + (if i == |s| then [] else Components(s[i + 1..]))
  }

  function Named(s: Bytes): Path { if s == [] || s == [DOT] then [] else [s] }

  /** A slash separates: the components of what is before it, then of what is after it. */
  lemma {:induction false} ComponentsAtSlash(a: Bytes, b: Bytes)
    ensures Components(a + [SLASH] + b) == Components(a) + Components(b)
    decreases |a|
  {
    var s := a + [SLASH] + b;
    var i := FindSlash(a);
    SlashAfter(a, b);
    FirstOfComponents(s);
    FirstOfComponents(a);
    hide Components;
    hide FindSlash;
    hide Named;
    if i == |a| {
      assert s[..i] == a && a[..i] == a && s[i + 1..] == b;
    } else {
      assert s[..i] == a[..i] && s[i + 1..] == a[i + 1..] + [SLASH] + b;
      ComponentsAtSlash(a[i + 1..], b);
      Assoc(Named(a[..i]), Components(a[i + 1..]), Components(b));
    }
  }

  lemma FirstOfComponents(s: Bytes)
    ensures var i := FindSlash(s);
            Components(s) == Named(s[..i]) + (if i == |s| then [] else Components(s[i + 1..]))
  {
  }

  lemma SlashAfter(a: Bytes, b: Bytes)
    ensures FindSlash(a + [SLASH] + b) == FindSlash(a)
  {
    var s, i := a + [SLASH] + b, FindSlash(a);
    assert s[i] == SLASH && forall j :: 0 <= j < i ==> s[j] == a[j];
  }

  /** Between slashes a name is itself, and nothing or a dot is no component. */
  lemma ComponentsWithoutSlash(s: Bytes)
    requires '/' as int !in s
    ensures Components(s) == if s == [] || s == ['.' as int] then [] else [s]
  {
    assert FindSlash(s) == |s| && s[..|s|] == s;
  }

  /** `Path::join`: an absolute name replaces the path. */
  function Join(p: Path, name: Bytes): Path {
    if name != [] && name[0] == SLASH then Components(name) else p + Components(name)
  }

  /** A name a directory entry can have and a header can carry. */
  predicate ValidName(n: Name) {
    && n != [] && n != [DOT] && n != [DOT, DOT]
    && (forall i :: 0 <= i < |n| ==> n[i] != SLASH)
    && ValidUtf8(n) && !EndsInNewline(n)
  }

  lemma JoinValidName(p: Path, n: Name)
    requires ValidName(n)
    ensures Join(p, n) == p + [n]
  {
    assert FindSlash(n) == |n|;
    assert n[..|n|] == n;
  }

  // ----- file system operations -----

  predicate NoFileOnTheWay(fs: Fs, p: Path) {
    forall k :: 0 < k <= |p| && p[..k] in fs ==> fs[p[..k]].Dir?
  }

  /** Every directory on the way to `p`, and `p` itself, exists. */
  predicate DirsUpTo(fs: Fs, p: Path) {
    forall k :: 0 < k <= |p| ==> p[..k] in fs && fs[p[..k]].Dir?
  }

  function MakeDirs(fs: Fs, p: Path): Fs {
    if p == [] then fs
    else
      var above := MakeDirs(fs, p[..|p| - 1]);
      if p in above then above else above[p := Dir]
  }

  /** `create_dir_all`. */
  function CreateDirAll(fs: Fs, p: Path): Option<Fs> {
    if NoFileOnTheWay(fs, p) then Some(MakeDirs(fs, p)) else None
  }

  /** `File::create`: the parent must be a directory; an existing file is emptied. */
  function CreateFile(fs: Fs, p: Path): Option<Fs> {
    if p == [] || (p in fs && fs[p].Dir?) then None
    else if |p| > 1 && !(p[..|p| - 1] in fs && fs[p[..|p| - 1]].Dir?) then None
    else Some(fs[p := File([])])
  }

  /** A file in a directory can be made exactly if that directory is there and the name is not a directory's. */
  lemma FileNeedsItsDirectory(fs: Fs, dir: Path, name: Name)
    requires dir != []
    ensures CreateFile(fs, dir + [name]).Some? <==>
            (dir in fs && fs[dir] == Dir) && !(dir + [name] in fs && fs[dir + [name]] == Dir)
  {
    assert (dir + [name])[..|dir|] == dir;
  }

  lemma {:induction false} MakeExistingDirs(fs: Fs, p: Path)
    requires DirsUpTo(fs, p)
    ensures MakeDirs(fs, p) == fs
  {
    if p != [] {
      var init := p[..|p| - 1];
      forall k | 0 < k <= |init|
        ensures init[..k] in fs && fs[init[..k]].Dir?
      {
        assert init[..k] == p[..k];
      }
      MakeExistingDirs(fs, init);
      assert p[..|p|] == p;
    }
  }

  lemma {:induction false} MakeDirsMakes(fs: Fs, p: Path)
    requires NoFileOnTheWay(fs, p)
    ensures DirsUpTo(MakeDirs(fs, p), p)
    ensures forall q :: q in fs ==> q in MakeDirs(fs, p) && MakeDirs(fs, p)[q] == fs[q]
    ensures forall q :: q in MakeDirs(fs, p) && q !in fs ==> q <= p
  {
    if p != [] {
      var init := p[..|p| - 1];
      forall k | 0 < k <= |init| && init[..k] in fs
        ensures fs[init[..k]].Dir?
      {
        assert init[..k] == p[..k];
      }
      MakeDirsMakes(fs, init);
      var made := MakeDirs(fs, p);
      assert p[..|p|] == p;
      forall k | 0 < k <= |p|
        ensures p[..k] in made && made[p[..k]].Dir?
      {
        if k < |p| {
          assert init[..k] == p[..k];
        } else {
          assert p in MakeDirs(fs, init) ==> p in fs;
        }
      }
    }
  }

  // ----- trees -----

  datatype Tree = Leaf(content: Bytes) | Node(entries: Forest)
  datatype Forest = Empty | Cons(name: Name, tree: Tree, rest: Forest)

  predicate Names(f: Forest, n: Name) {
    f.Cons? && (f.name == n || Names(f.rest, n))
  }

  /** Names are valid and distinct, sizes fit the header. */
  predicate ValidTree(t: Tree) {
    match t
    case Leaf(c) => |c| <= U64_MAX
    case Node(es) => ValidForest(es)
  }

  predicate ValidForest(f: Forest) {
    f.Empty? || (ValidName(f.name) && !Names(f.rest, f.name) && ValidTree(f.tree) && ValidForest(f.rest))
  }

  /** The entries a tree puts on a file system at `p`. */
  function Layout(t: Tree, p: Path): Fs {
    match t
    case Leaf(c) => map[p := File(c)]
    case Node(es) => map[p := Dir] + LayoutAll(es, p)
  }

  function LayoutAll(f: Forest, p: Path): Fs {
    match f
    case Empty => map[]
    case Cons(n, t, rest) => Layout(t, p + [n]) + LayoutAll(rest, p)
  }

  /** What a relative path names in a tree, found by walking it. */
  function Resolve(t: Tree, rel: Path): Option<Entry>
    decreases t
  {
    if rel == [] then Some(if t.Leaf? then File(t.content) else Dir)
    else if t.Leaf? then None
    else ResolveIn(t.entries, rel)
  }

  function ResolveIn(f: Forest, rel: Path): Option<Entry>
    requires rel != []
    decreases f
  {
    if f.Empty? then None
    else if f.name == rel[0] then Resolve(f.tree, rel[1..])
    else ResolveIn(f.rest, rel)
  }

  /** The layout of a tree holds at every path exactly what walking the tree finds there. */
  lemma {:induction false} LayoutIsTree(t: Tree, p: Path, q: Path)
    requires ValidTree(t)
    ensures q in Layout(t, p) <==> p <= q && Resolve(t, q[|p|..]).Some?
    ensures q in Layout(t, p) ==> Resolve(t, q[|p|..]) == Some(Layout(t, p)[q])
    decreases t
  {
    match t {
      case Leaf(c) =>
        assert p <= q && q[|p|..] == [] <==> q == p;
      case Node(es) =>
        ForestLayout(es, p, q);
        assert p <= q && q[|p|..] == [] <==> q == p;
    }
  }

  lemma {:induction false} ForestLayout(f: Forest, p: Path, q: Path)
    requires ValidForest(f)
    ensures q in LayoutAll(f, p) <==> p < q && ResolveIn(f, q[|p|..]).Some?
    ensures q in LayoutAll(f, p) ==> ResolveIn(f, q[|p|..]) == Some(LayoutAll(f, p)[q])
    decreases f
  {
    match f {
      case Empty =>
      case Cons(n, t, rest) =>
        LayoutIsTree(t, p + [n], q);
        ForestLayout(rest, p, q);
        if p < q && q[|p|] == n {
          assert p + [n] <= q;
          assert q[|p|..][1..] == q[|p| + 1..];
          UnnamedIsAbsent(rest, q[|p|..]);
        } else {
          assert !(p + [n] <= q);
        }
    }
  }

  lemma {:induction false} UnnamedIsAbsent(f: Forest, rel: Path)
    requires rel != [] && !Names(f, rel[0])
    ensures ResolveIn(f, rel).None?
    decreases f
  {
    if f.Cons? {
      UnnamedIsAbsent(f.rest, rel);
    }
  }

  lemma LayoutIsBelow(t: Tree, p: Path)
    requires ValidTree(t)
    ensures forall q :: q in Layout(t, p) ==> p <= q
  {
    forall q | q in Layout(t, p)
      ensures p <= q
    {
      LayoutIsTree(t, p, q);
    }
  }

  /** Two valid trees laid out alike agree everywhere, so a download determines the tree. */
  lemma LayoutDeterminesTree(t: Tree, u: Tree, p: Path, rel: Path)
    requires ValidTree(t) && ValidTree(u) && Layout(t, p) == Layout(u, p)
    ensures Resolve(t, rel) == Resolve(u, rel)
  {
    LayoutIsTree(t, p, p + rel);
    LayoutIsTree(u, p, p + rel);
    assert (p + rel)[|p|..] == rel;
  }

  // ----- laying a tree over what is there -----

  /** Nothing there is a file where the layout has a directory, or the other way round. */
  predicate Fits(fs: Fs, layout: Fs) {
    forall q :: q in layout && q in fs ==> fs[q].Dir? == layout[q].Dir?
  }

  lemma EntriesAreBelow(f: Forest, p: Path)
    requires ValidForest(f)
    ensures forall q :: q in LayoutAll(f, p) ==> p < q && Names(f, q[|p|])
  {
    forall q | q in LayoutAll(f, p)
      ensures p < q && Names(f, q[|p|])
    {
      ForestLayout(f, p, q);
      if !Names(f, q[|p|]) {
        UnnamedIsAbsent(f, q[|p|..]);
      }
    }
  }

  /** A directory whose layout fits is there after it is made, and its entries fit. */
  lemma EntriesFit(es: Forest, p: Path, fs: Fs)
    requires ValidForest(es) && Fits(fs, Layout(Node(es), p))
    ensures p in fs ==> fs[p].Dir?
    ensures Fits(fs[p := Dir], LayoutAll(es, p))
  {
    EntriesAreBelow(es, p);
    assert p in Layout(Node(es), p) && Layout(Node(es), p)[p].Dir?;
    forall q | q in LayoutAll(es, p) && q in fs[p := Dir]
      ensures fs[p := Dir][q].Dir? == LayoutAll(es, p)[q].Dir?
    {
      assert Layout(Node(es), p)[q] == LayoutAll(es, p)[q];
    }
  }

  /** Of a forest that fits the first tree fits, and the rest still does after it is laid out. */
  lemma FirstAndRestFit(f: Forest, p: Path, fs: Fs)
    requires ValidForest(f) && f.Cons? && Fits(fs, LayoutAll(f, p)) && DirsUpTo(fs, p)
    ensures Fits(fs, Layout(f.tree, p + [f.name]))
    ensures Fits(fs + Layout(f.tree, p + [f.name]), LayoutAll(f.rest, p))
    ensures DirsUpTo(fs + Layout(f.tree, p + [f.name]), p)
  {
    var first, rest := Layout(f.tree, p + [f.name]), LayoutAll(f.rest, p);
    LayoutIsBelow(f.tree, p + [f.name]);
    EntriesAreBelow(f.rest, p);
    forall q | q in first
      ensures q !in rest
    {
      assert q[|p|] == f.name;
    }
    forall q | q in first && q in fs
      ensures fs[q].Dir? == first[q].Dir?
    {
      assert LayoutAll(f, p)[q] == first[q];
    }
    forall q | q in rest && q in fs + first
      ensures (fs + first)[q].Dir? == rest[q].Dir?
    {
      assert LayoutAll(f, p)[q] == rest[q];
    }
    forall k | 0 < k <= |p|
      ensures p[..k] in fs + first && (fs + first)[p[..k]].Dir?
    {
      assert !(p + [f.name] <= p[..k]);
    }
  }
}
