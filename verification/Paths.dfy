// Lexical path handling: cleaning, joining a file name to a directory, and
// the canonical names by which the file system model knows its files.
module Paths {

  // A cleaned path.  `Render` is its text; distinct normal paths have
  // distinct texts.
  datatype Path = Path(rooted: bool, parts: seq<string>)

  predicate NoSlash(s: string) {
    forall i :: 0 <= i < |s| ==> s[i] != '/'
  }

  // ---------------------------------------------------------------- split

  function Segments(s: string): (r: seq<string>)
    ensures |r| >= 1
    ensures forall i :: 0 <= i < |r| ==> NoSlash(r[i])
  {
    if s == "" then [""]
    else if s[0] == '/' then [""] + Segments(s[1..])
    else
      var r := Segments(s[1..]);
      [[s[0]] + r[0]] + r[1..]
  }

  lemma {:induction false} SplitPlain(s: string)
    requires NoSlash(s)
    ensures Segments(s) == [s]
  {
    if s == "" {
    } else {
      SplitPlain(s[1..]);
      assert s == [s[0]] + s[1..];
    }
  }

  lemma {:induction false} SplitMany(s: string)
    requires !NoSlash(s)
    ensures |Segments(s)| >= 2
  {
    if s[0] == '/' {
    } else {
      SplitMany(s[1..]);
    }
  }

  function Cons(c: char, r: seq<string>): seq<string>
    requires r != []
  {
    if c == '/' then [""] + r else [[c] + r[0]] + r[1..]
  }

  lemma SplitStep(c: char, s: string)
    ensures Segments([c] + s) == Cons(c, Segments(s))
  {
    assert ([c] + s)[1..] == s;
  }

  lemma ConsConcat(c: char, r: seq<string>, q: seq<string>)
    requires r != []
    ensures Cons(c, r + q) == Cons(c, r) + q
  {
    assert (r + q)[0] == r[0] && (r + q)[1..] == r[1..] + q;
  }

  lemma {:induction false} SplitConcat(s: string, t: string)
    ensures Segments(s + "/" + t) == Segments(s) + Segments(t)
  {
    if s == "" {
      SplitStep('/', t);
      assert s + "/" + t == ['/'] + t;
    } else {
      var c, rest := s[0], s[1..];
      calc {
        Segments(s + "/" + t);
        { assert s + "/" + t == [c] + (rest + "/" + t); }
        Segments([c] + (rest + "/" + t));
        { SplitStep(c, rest + "/" + t); SplitConcat(rest, t); }
        Cons(c, Segments(rest) + Segments(t));
        { ConsConcat(c, Segments(rest), Segments(t)); }
        Cons(c, Segments(rest)) + Segments(t);
        { SplitStep(c, rest); assert s == [c] + rest; }
        Segments(s) + Segments(t);
      }
    }
  }

  // ---------------------------------------------------------------- clean

  function Push(rooted: bool, parts: seq<string>, part: string): seq<string> {
    if part == "" || part == "." then parts
    else if part == ".." then
      if parts != [] && parts[|parts| - 1] != ".." then parts[..|parts| - 1]
      else if rooted then parts
      else parts + [".."]
    else parts + [part]
  }

  function PushAll(rooted: bool, parts: seq<string>, more: seq<string>): seq<string>
    decreases |more|
  {
    if more == [] then parts
    else Push(rooted, PushAll(rooted, parts, more[..|more| - 1]), more[|more| - 1])
  }

  predicate Rooted(s: string) {
    s != "" && s[0] == '/'
  }

  function Clean(s: string): Path {
    Path(Rooted(s), PushAll(Rooted(s), [], Segments(s)))
  }

  // What cleaning produces: no empty, "." or slashed part, and ".." only in
  // front of a relative path.
  predicate Normal(p: Path) {
    && (forall i :: 0 <= i < |p.parts| ==> p.parts[i] != "" && p.parts[i] != "." && NoSlash(p.parts[i]))
    && (forall i :: 0 <= i < |p.parts| && p.parts[i] == ".." ==>
          !p.rooted && forall j :: 0 <= j < i ==> p.parts[j] == "..")
  }

  lemma {:induction false} PushAllNormal(rooted: bool, more: seq<string>)
    requires forall i :: 0 <= i < |more| ==> NoSlash(more[i])
    ensures Normal(Path(rooted, PushAll(rooted, [], more)))
  {
    if more == [] {
    } else {
      var init := more[..|more| - 1];
      assert forall i :: 0 <= i < |init| ==> NoSlash(init[i]);
      PushAllNormal(rooted, init);
    }
  }

  lemma CleanNormal(s: string)
    ensures Normal(Clean(s))
  {
    PushAllNormal(Rooted(s), Segments(s));
  }

  // ---------------------------------------------------- what cleaning drops

  lemma {:induction false} PushAllAppend(rooted: bool, parts: seq<string>, a: seq<string>, b: seq<string>)
    ensures PushAll(rooted, parts, a + b) == PushAll(rooted, PushAll(rooted, parts, a), b)
    decreases |b|
  {
    if b == [] {
      assert a + b == a;
    } else {
      assert (a + b)[..|a + b| - 1] == a + b[..|b| - 1];
      PushAllAppend(rooted, parts, a, b[..|b| - 1]);
    }
  }

  // Segments that leave the parts before them as they are leave the path as it
  // is.
  lemma DropsOut(rooted: bool, a: seq<string>, drop: seq<string>, b: seq<string>)
    requires PushAll(rooted, PushAll(rooted, [], a), drop) == PushAll(rooted, [], a)
    ensures PushAll(rooted, [], a + drop + b) == PushAll(rooted, [], a + b)
  {
    PushAllAppend(rooted, [], a + drop, b);
    PushAllAppend(rooted, [], a, drop);
    PushAllAppend(rooted, [], a, b);
  }

  lemma PushAllOne(rooted: bool, parts: seq<string>, part: string)
    ensures PushAll(rooted, parts, [part]) == Push(rooted, parts, part)
  {
    assert [part][..0] == [];
  }

  // An empty segment, a dot, and a name with two dots after it drop out,
  // wherever they stand.
  lemma SegmentsDrop(rooted: bool, a: seq<string>, b: seq<string>, x: string)
    requires PlainName(x)
    ensures PushAll(rooted, [], a + [""] + b) == PushAll(rooted, [], a + b)
    ensures PushAll(rooted, [], a + ["."] + b) == PushAll(rooted, [], a + b)
    ensures PushAll(rooted, [], a + [x, ".."] + b) == PushAll(rooted, [], a + b)
  {
    var parts := PushAll(rooted, [], a);
    PushAllOne(rooted, parts, "");
    PushAllOne(rooted, parts, ".");
    DropsOut(rooted, a, [""], b);
    DropsOut(rooted, a, ["."], b);
    PushAllOne(rooted, parts, x);
    PushAllOne(rooted, parts + [x], "..");
    assert [x, ".."] == [x] + [".."];
    PushAllAppend(rooted, parts, [x], [".."]);
    assert (parts + [x])[..|parts + [x]| - 1] == parts;
    DropsOut(rooted, a, [x, ".."], b);
  }

  // Above the root there is nothing.
  lemma RootUp(b: seq<string>)
    ensures PushAll(true, [], [".."] + b) == PushAll(true, [], b)
  {
    PushAllOne(true, [], "..");
    DropsOut(true, [], [".."], b);
    assert [] + [".."] + b == [".."] + b && [] + b == b;
  }

  // One segment between two texts.
  lemma SegmentsAround(a: string, x: string, b: string)
    requires NoSlash(x)
    ensures Segments(a + "/" + x + "/" + b) == Segments(a) + [x] + Segments(b)
    ensures Segments(a + "/" + b) == Segments(a) + Segments(b)
  {
    SplitConcat(a + "/" + x, b);
    SplitConcat(a, x);
    SplitPlain(x);
    SplitConcat(a, b);
  }

  // The segments of a text and where it starts are all that cleaning sees.
  lemma CleanOf(a: string, x: string, rest: seq<string>, s: string)
    requires s == a + "/" + x && Segments(x) == rest
    ensures Rooted(s) == (a == "" || a[0] == '/')
    ensures Clean(s) == Path(Rooted(s), PushAll(Rooted(s), [], Segments(a) + rest))
  {
    SplitConcat(a, x);
  }

  lemma SlashFirst(b: string)
    ensures Segments("/" + b) == [""] + Segments(b)
  {
    assert ("/" + b)[0] == '/' && ("/" + b)[1..] == b;
  }

  lemma DoubledText(a: string, b: string)
    ensures a + "//" + b == a + "/" + ("/" + b)
  {
    assert "//" == "/" + "/";
  }

  lemma UpText(a: string, x: string, b: string)
    ensures a + "/" + x + "/../" + b == a + "/" + (x + "/" + (".." + "/" + b))
  {
    assert "/../" == "/" + (".." + "/");
  }

  lemma EmptyDrops(rooted: bool, a: seq<string>, b: seq<string>)
    ensures PushAll(rooted, [], a + ([""] + b)) == PushAll(rooted, [], a + b)
  {
    SegmentsDrop(rooted, a, b, "x");
    assert a + ([""] + b) == a + [""] + b;
  }

  lemma DotDrops(rooted: bool, a: seq<string>, b: seq<string>)
    ensures PushAll(rooted, [], a + (["."] + b)) == PushAll(rooted, [], a + b)
  {
    SegmentsDrop(rooted, a, b, "x");
    assert a + (["."] + b) == a + ["."] + b;
  }

  // In the text: doubled slashes change nothing,
  lemma CleanDoubled(a: string, b: string)
    ensures Clean(a + "//" + b) == Clean(a + "/" + b)
  {
    SlashFirst(b);
    DoubledText(a, b);
    CleanOf(a, "/" + b, [""] + Segments(b), a + "//" + b);
    CleanOf(a, b, Segments(b), a + "/" + b);
    EmptyDrops(Rooted(a + "/" + b), Segments(a), Segments(b));
  }

  lemma DotFirst(b: string)
    ensures Segments("." + "/" + b) == ["."] + Segments(b)
  {
    SplitConcat(".", b);
    SplitPlain(".");
  }

  lemma DotText(a: string, b: string)
    ensures a + "/./" + b == a + "/" + ("." + "/" + b)
  {
    assert "/./" == "/" + ("." + "/");
  }

  // nor do dots between slashes,
  lemma CleanDots(a: string, b: string)
    ensures Clean(a + "/./" + b) == Clean(a + "/" + b)
  {
    DotFirst(b);
    DotText(a, b);
    CleanOf(a, "." + "/" + b, ["."] + Segments(b), a + "/./" + b);
    CleanOf(a, b, Segments(b), a + "/" + b);
    DotDrops(Rooted(a + "/" + b), Segments(a), Segments(b));
  }

  // and two dots take the name before them away.
  lemma CleanGoesUp(a: string, x: string, b: string)
    requires PlainName(x)
    ensures Clean(a + "/" + x + "/../" + b) == Clean(a + "/" + b)
  {
    UpSegments(x, b);
    UpText(a, x, b);
    CleanOf(a, x + "/" + (".." + "/" + b), [x] + ([".."] + Segments(b)), a + "/" + x + "/../" + b);
    CleanOf(a, b, Segments(b), a + "/" + b);
    UpDrops(Rooted(a + "/" + b), Segments(a), x, Segments(b));
  }

  lemma UpSegments(x: string, b: string)
    requires NoSlash(x)
    ensures Segments(x + "/" + (".." + "/" + b)) == [x] + ([".."] + Segments(b))
  {
    SplitConcat(x, ".." + "/" + b);
    SplitPlain(x);
    SplitConcat("..", b);
    SplitPlain("..");
  }

  lemma UpDrops(rooted: bool, a: seq<string>, x: string, b: seq<string>)
    requires PlainName(x)
    ensures PushAll(rooted, [], a + ([x] + ([".."] + b))) == PushAll(rooted, [], a + b)
  {
    SegmentsDrop(rooted, a, b, x);
    assert a + ([x] + ([".."] + b)) == a + [x, ".."] + b;
  }

  lemma CleanTrailingSlash(d: string)
    requires d != ""
    ensures Clean(d + "/") == Clean(d)
  {
    SplitConcat(d, "");
    SplitPlain("");
    assert d + "/" + "" == d + "/";
    SegmentsDrop(Rooted(d), Segments(d), [], "x");
    assert Segments(d) + [""] + [] == Segments(d) + [""] && Segments(d) + [] == Segments(d);
  }

  // A rooted text may go up from the root, which changes nothing.
  lemma CleanAboveRoot(b: string)
    ensures Clean("/../" + b) == Clean("/" + b)
  {
    SegmentsAround("", "..", b);
    SplitPlain("");
    RootUp(Segments(b));
    assert "" + "/" + ".." + "/" + b == "/../" + b && "" + "/" + b == "/" + b;
    assert [""] + [".."] + Segments(b) == [""] + ([".."] + Segments(b));
    PushAllEmptyFirst(true, [".."] + Segments(b));
    PushAllEmptyFirst(true, Segments(b));
  }

  // --------------------------------------------------------------- render

  function Slashed(parts: seq<string>): string {
    if parts == [] then ""
    else if |parts| == 1 then parts[0]
    else Slashed(parts[..|parts| - 1]) + "/" + parts[|parts| - 1]
  }

  function Render(p: Path): string {
    if p.rooted then "/" + Slashed(p.parts)
    else if p.parts == [] then "."
    else Slashed(p.parts)
  }

  lemma {:induction false} SplitSlashed(parts: seq<string>)
    requires parts != [] && forall i :: 0 <= i < |parts| ==> NoSlash(parts[i])
    ensures Segments(Slashed(parts)) == parts
  {
    var last := parts[|parts| - 1];
    SplitPlain(last);
    if |parts| == 1 {
      assert parts == [last];
    } else {
      var init := parts[..|parts| - 1];
      assert forall i :: 0 <= i < |init| ==> NoSlash(init[i]);
      SplitSlashed(init);
      SplitConcat(Slashed(init), last);
      assert parts == init + [last];
    }
  }

  lemma NormalInit(p: Path)
    requires Normal(p) && p.parts != []
    ensures Normal(Path(p.rooted, p.parts[..|p.parts| - 1]))
    ensures Push(p.rooted, p.parts[..|p.parts| - 1], p.parts[|p.parts| - 1]) == p.parts
  {
    var n := |p.parts| - 1;
    var init, last := p.parts[..n], p.parts[n];
    assert forall i :: 0 <= i < n ==> init[i] == p.parts[i];
    if last == ".." && n > 0 {
      assert init[n - 1] == "..";
    }
    assert p.parts == init + [last];
  }

  lemma {:induction false} PushAllKeeps(p: Path)
    requires Normal(p)
    ensures PushAll(p.rooted, [], p.parts) == p.parts
    decreases |p.parts|
  {
    if p.parts == [] {
    } else {
      NormalInit(p);
      PushAllKeeps(Path(p.rooted, p.parts[..|p.parts| - 1]));
    }
  }

  lemma {:induction false} PushAllEmptyFirst(rooted: bool, more: seq<string>)
    ensures PushAll(rooted, [], [""] + more) == PushAll(rooted, [], more)
  {
    var all := [""] + more;
    if more == [] {
      assert all[..0] == [] && all[0] == "";
    } else {
      assert all[..|all| - 1] == [""] + more[..|more| - 1];
      PushAllEmptyFirst(rooted, more[..|more| - 1]);
    }
  }

  lemma {:induction false} SlashedStart(parts: seq<string>)
    requires parts != [] && parts[0] != ""
    ensures Slashed(parts) != "" && Slashed(parts)[0] == parts[0][0]
  {
    if |parts| <= 1 {
    } else {
      SlashedStart(parts[..|parts| - 1]);
    }
  }

  // A normal path is recovered from its text; so cleaning is idempotent and
  // the text of a path identifies it.
  lemma CleanRender(p: Path)
    requires Normal(p)
    ensures Clean(Render(p)) == p
  {
    PushAllKeeps(p);
    if p.parts == [] {
      if p.rooted {
        assert Render(p) == "/";
        assert Segments("/") == [""] + Segments("");
        PushAllEmptyFirst(true, [""]);
        PushAllEmptyFirst(true, []);
      } else {
        SplitPlain(".");
      }
    } else {
      SplitSlashed(p.parts);
      SlashedStart(p.parts);
      if p.rooted {
        assert Render(p)[1..] == Slashed(p.parts);
        PushAllEmptyFirst(true, p.parts);
      }
    }
  }

  // ----------------------------------------------------------------- join

  function Child(dir: Path, name: string): Path {
    Path(dir.rooted, dir.parts + [name])
  }

  // The directory part of a cleaned path, as used to place temporary files.
  function Parent(p: Path): Path {
    if p.parts == [] then p else Path(p.rooted, p.parts[..|p.parts| - 1])
  }

  // Joining two elements; an empty one is ignored.
  function Join(dir: string, name: string): Path {
    if dir == "" then Clean(name) else if name == "" then Clean(dir) else Clean(dir + "/" + name)
  }

  // A single file-name segment.
  predicate PlainName(name: string) {
    name != "" && NoSlash(name) && name != "." && name != ".."
  }

  // Whatever the destination looks like, a plain name lands directly inside
  // the cleaned destination.
  lemma JoinIsChild(dir: string, name: string)
    requires dir != "" && PlainName(name)
    ensures Join(dir, name) == Child(Clean(dir), name)
    ensures Normal(Join(dir, name)) && Parent(Join(dir, name)) == Clean(dir)
  {
    var all := dir + "/" + name;
    SplitConcat(dir, name);
    SplitPlain(name);
    var parts := Segments(dir) + [name];
    assert Segments(all) == parts && parts[..|parts| - 1] == Segments(dir);
    CleanNormal(all);
    assert Child(Clean(dir), name).parts[..|Clean(dir).parts|] == Clean(dir).parts;
  }

  // In a rooted directory only a plain name does.
  lemma PlainExactly(dir: string, name: string)
    requires Rooted(dir) && name != ""
    ensures PlainName(name) <==> Join(dir, name) == Child(Clean(dir), name)
  {
    if PlainName(name) {
      JoinIsChild(dir, name);
    } else {
      CleanNormal(dir + "/" + name);
      var p := Child(Clean(dir), name);
      assert p.rooted && p.parts[|p.parts| - 1] == name;
      assert !Normal(p);
    }
  }

  // Distinct names give distinct files, also as texts.
  lemma JoinInjective(dir: string, a: string, b: string)
    requires dir != "" && PlainName(a) && PlainName(b) && a != b
    ensures Join(dir, a) != Join(dir, b)
    ensures Render(Join(dir, a)) != Render(Join(dir, b))
  {
    JoinIsChild(dir, a);
    JoinIsChild(dir, b);
    CleanRender(Join(dir, a));
    CleanRender(Join(dir, b));
    var p := Clean(dir).parts;
    assert (p + [a])[|p|] == a && (p + [b])[|p|] == b;
  }

  // ---------------------------------------------------------------- places

  // The working directory of the process, whatever it is; the shipped units
  // set none, which makes it the root.
  const WORKING_DIR: seq<string>

  // Where a path leads: a relative one starts from the working directory.
  function Located(p: Path): Path {
    if p.rooted then p else Path(true, PushAll(true, WORKING_DIR, p.parts))
  }

  function Place(s: string): Path {
    Located(Clean(s))
  }

  function FileIn(dir: string, name: string): Path {
    Located(Join(dir, name))
  }

  // A relative name is in the working directory, a rooted one is not.
  lemma RelativePlace(name: string)
    requires PlainName(name)
    ensures Place(name) == Path(true, WORKING_DIR + [name])
    ensures Place("/" + name) == Path(true, [name])
  {
    SplitPlain(name);
    PushOne(true, name);
    PushOne(false, name);
    SplitStep('/', name);
    assert "/" + name == ['/'] + name;
    PushAllEmptyFirst(true, [name]);
    assert [""] + [name] == Segments("/" + name);
    assert name[0] != '/';
    PushAllOne(true, WORKING_DIR, name);
  }

  // A trailing slash on the directory leads to the same file.
  lemma FileInTrailingSlash(dir: string, name: string)
    requires dir != "" && PlainName(name)
    ensures FileIn(dir + "/", name) == FileIn(dir, name)
  {
    CleanTrailingSlash(dir);
    JoinIsChild(dir, name);
    JoinIsChild(dir + "/", name);
  }

  lemma PushOne(rooted: bool, name: string)
    requires PlainName(name)
    ensures PushAll(rooted, [], [name]) == [name]
  {
    assert [name][..0] == [] && [] + [name] == [name];
  }

  lemma LocatedChild(d: Path, name: string)
    requires PlainName(name)
    ensures Located(Child(d, name)) == Child(Located(d), name)
  {
    var parts := d.parts + [name];
    assert parts[..|parts| - 1] == d.parts;
  }

  // A plain name lands directly inside the place its directory is, and
  // distinct names in distinct places.
  lemma FileInIsChild(dir: string, name: string)
    requires dir != "" && PlainName(name)
    ensures FileIn(dir, name) == Child(Place(dir), name)
    ensures Parent(FileIn(dir, name)) == Place(dir)
  {
    JoinIsChild(dir, name);
    LocatedChild(Clean(dir), name);
    assert Child(Place(dir), name).parts[..|Place(dir).parts|] == Place(dir).parts;
  }

  lemma FileInInjective(dir: string, a: string, b: string)
    requires dir != "" && PlainName(a) && PlainName(b) && a != b
    ensures FileIn(dir, a) != FileIn(dir, b)
  {
    FileInIsChild(dir, a);
    FileInIsChild(dir, b);
    var p := Place(dir).parts;
    assert (p + [a])[|p|] == a && (p + [b])[|p|] == b;
  }

  // a is p or a directory above it, the root aside.
  predicate Leads(a: Path, p: Path) {
    a.rooted == p.rooted && a.parts != [] && a.parts <= p.parts
  }

  lemma LeadsUp(a: Path, p: Path)
    requires p.parts != []
    ensures Leads(a, p) <==> a == p || Leads(a, Parent(p))
  {
    if Leads(a, p) && a != p {
      assert |a.parts| < |p.parts|;
    }
  }

  lemma LeadsTrans(a: Path, b: Path, c: Path)
    requires Leads(a, b) && Leads(b, c)
    ensures Leads(a, c)
  {
  }
}
