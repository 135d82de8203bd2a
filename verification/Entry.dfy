/** Package names: the locations held by bunsan::pm::entry and the operations on them. */
module PmEntry {
  import opened Common
  import opened Splitting

  /** One entry: the components of a slash-separated name. The empty sequence is the default entry. */
  type Location = seq<string>

  datatype NameError = InvalidName | EmptyEntry

  predicate IsAllowedSymbol(c: char) {
    '0' <= c <= '9' || 'a' <= c <= 'z' || 'A' <= c <= 'Z' || c == '_' || c == '-' || c == '.'
  }

  predicate IsAllowedSubpath(s: string) {
    s != "" && forall c :: c in s ==> IsAllowedSymbol(c)
  }

  /** What every constructor of an entry establishes about its components. */
  ghost predicate ValidLocation(e: Location) {
    forall s :: s in e ==> IsAllowedSubpath(s)
  }

  // ----- splitting and joining ------------------------------------------------------------

  function Join(e: seq<string>): string {
    if e == [] then "" else if |e| == 1 then e[0] else e[0] + "/" + Join(e[1..])
  }

  /** Joining components that hold no slash and cutting again gives the components back. */
  lemma {:induction false} PiecesOfJoin(e: seq<string>)
    requires e != [] && forall s :: s in e ==> '/' !in s
    ensures Pieces(Join(e), '/') == e
  {
    if |e| == 1 {
      PiecesOfWord(e[0], '/', "");
    } else {
      PiecesOfWord(e[0], '/', Join(e[1..]));
      PiecesOfJoin(e[1..]);
      hide Pieces;
      assert Join(e) == e[0] + ['/'] + Join(e[1..]);
    }
  }

  /** `boost::split` with `token_compress_on`: inner empty pieces vanish, outer ones stay. */
  function SplitCompressed(s: string): seq<string> {
    var p := Pieces(s, '/');
    if |p| == 1 then p else [p[0]] + NonEmpty(p[1..|p| - 1]) + [p[|p| - 1]]
  }

  function NonEmpty(p: seq<string>): seq<string> {
    if p == [] then [] else (if p[0] == "" then [] else [p[0]]) + NonEmpty(p[1..])
  }

  lemma {:induction false} NonEmptyContents(p: seq<string>)
    ensures forall s :: s in NonEmpty(p) <==> s in p && s != ""
  {
    if p != [] {
      NonEmptyContents(p[1..]);
      assert p == [p[0]] + p[1..];
    }
  }

  lemma {:induction false} NonEmptyAppend(p: seq<string>, q: seq<string>)
    ensures NonEmpty(p + q) == NonEmpty(p) + NonEmpty(q)
  {
    if p == [] {
      assert p + q == q;
    } else {
      NonEmptyAppend(p[1..], q);
      assert (p + q)[1..] == p[1..] + q;
      assert (p + q)[0] == p[0];
      var head := if p[0] == "" then [] else [p[0]];
      assert NonEmpty(p + q) == head + NonEmpty(p[1..] + q);
      Associate(head, NonEmpty(p[1..]), NonEmpty(q));
    }
  }

  lemma {:induction false} NonEmptyId(p: seq<string>)
    requires "" !in p
    ensures NonEmpty(p) == p
  {
    if p != [] {
      NonEmptyId(p[1..]);
    }
  }

  /** The entry a name stands for; what the method `Entry.Build` computes. */
  function Parse(name: string): (r: Outcome<Location, NameError>)
    ensures r.Done? ==> r.value != [] && ValidLocation(r.value)
  {
    var e := SplitCompressed(name);
    if forall s :: s in e ==> IsAllowedSubpath(s) then Done(e) else Failed(InvalidName)
  }

  function Name(e: Location): Outcome<string, NameError> {
    if e == [] then Failed(EmptyEntry) else Done(Join(e))
  }

  /** A name that parses is cut at every slash, with no empty piece left at either end. */
  lemma ParseIsNonEmptyPieces(name: string)
    requires Parse(name).Done?
    ensures Parse(name).value == NonEmpty(Pieces(name, '/'))
  {
    var p := Pieces(name, '/');
    var e := SplitCompressed(name);
    if |p| == 1 {
      assert p[0] in e;
      NonEmptyId(p);
    } else {
      var mid := p[1..|p| - 1];
      assert p == [p[0]] + mid + [p[|p| - 1]];
      assert p[0] in e && p[|p| - 1] in e;
      NonEmptyAppend([p[0]] + mid, [p[|p| - 1]]);
      NonEmptyAppend([p[0]], mid);
    }
  }

  lemma InnerPieces(e: Location)
    requires ValidLocation(e)
    ensures |e| > 1 ==> e == [e[0]] + NonEmpty(e[1..|e| - 1]) + [e[|e| - 1]]
  {
    if |e| > 1 {
      var mid := e[1..|e| - 1];
      forall i | 0 <= i < |mid|
        ensures mid[i] != ""
      {
        assert e[i + 1] in e;
      }
      NonEmptyId(mid);
    }
  }

  /** Writing an entry out by name and reading the name gives the entry back; only the
      default entry has no name. */
  lemma ParseOfName(e: Location)
    requires ValidLocation(e)
    ensures Name(e).Done? <==> e != []
    ensures e != [] ==> Parse(Name(e).value) == Done(e)
  {
    if e != [] {
      assert forall s :: s in e ==> '/' !in s;
      PiecesOfJoin(e);
      InnerPieces(e);
      hide Join, Pieces, NonEmpty;
      assert SplitCompressed(Join(e)) == e;
    }
  }

  /** A name is made of letters, digits, four kinds of marks, and neither starts nor ends with a
      slash. */
  lemma ParseAccepts(name: string)
    ensures Parse(name).Done? <==>
              name != "" && name[0] != '/' && name[|name| - 1] != '/' &&
              forall c :: c in name ==>
                c in "_-./" || '0' <= c <= '9' || 'A' <= c <= 'Z' || 'a' <= c <= 'z'
  {
    var p, e := Pieces(name, '/'), SplitCompressed(name);
    PiecesContents(name, '/');
    OuterPieces(name, '/');
    assert forall s :: s in e <==> s in p && (s != "" || s == p[0] || s == p[|p| - 1]) by {
      if |p| > 1 {
        NonEmptyContents(p[1..|p| - 1]);
        assert p == [p[0]] + p[1..|p| - 1] + [p[|p| - 1]];
      }
    }
    hide SplitCompressed, NonEmpty, Pieces;
    if Parse(name).Done? {
      assert p[0] in e && p[|p| - 1] in e;
    } else {
      var s :| s in e && !IsAllowedSubpath(s);
      assert s in p;
    }
  }

  /** A name without two slashes in a row is the name of what it stands for. */
  lemma NameOfParse(name: string)
    requires Parse(name).Done? && forall i :: 0 <= i < |name| - 1 ==> name[i] != '/' || name[i + 1] != '/'
    ensures Name(Parse(name).value) == Done(name)
  {
    var p := Pieces(name, '/');
    InnerPiecesNotEmpty(name);
    JoinOfPieces(name);
    if |p| > 1 {
      NonEmptyId(p[1..|p| - 1]);
      assert p == [p[0]] + p[1..|p| - 1] + [p[|p| - 1]];
    }
  }

  ghost predicate FullInside(p: seq<string>) {
    forall i :: 0 < i < |p| - 1 ==> p[i] != ""
  }

  lemma {:induction false} InnerPiecesNotEmpty(s: string)
    requires forall i :: 0 <= i < |s| - 1 ==> s[i] != '/' || s[i + 1] != '/'
    ensures FullInside(Pieces(s, '/'))
    ensures s != "" && s[0] != '/' ==> Pieces(s, '/')[0] != ""
  {
    if s != "" {
      InnerPiecesNotEmpty(s[1..]);
      var p, r := Pieces(s, '/'), Pieces(s[1..], '/');
      if s[0] == '/' {
        assert p == [""] + r && (s[1..] != "" ==> s[1] != '/');
      } else {
        assert |p| == |r| && forall i :: 0 < i < |p| ==> p[i] == r[i];
      }
    }
  }

  lemma {:induction false} JoinOfPieces(s: string)
    ensures Join(Pieces(s, '/')) == s
  {
    if s != "" {
      JoinOfPieces(s[1..]);
      assert s == [s[0]] + s[1..];
      var r := Pieces(s[1..], '/');
      if s[0] != '/' && |r| > 1 {
        assert ([[s[0]] + r[0]] + r[1..])[1..] == r[1..];
        assert Join(r) == r[0] + "/" + Join(r[1..]);
      }
    }
  }

  // ----- relative names -------------------------------------------------------------------

  const THIS := "."
  const PARENT := ".."

  predicate IsRelative(e: Location) {
    e != [] && (e[0] == THIS || e[0] == PARENT)
  }

  function Follow(at: Location, step: string): Location {
    if step == THIS then at
    else if step == PARENT then (if at == [] then [] else at[..|at| - 1])
    else at + [step]
  }

  /** Where one stands after following every component of `e` from the top of the repository. */
  function Normalize(e: Location): Location {
    if e == [] then [] else Follow(Normalize(e[..|e| - 1]), e[|e| - 1])
  }

  function Absolute(e: Location, root: Location): Location {
    Normalize(if IsRelative(e) then root + e else e)
  }

  predicate IsPlain(e: Location) {
    THIS !in e && PARENT !in e
  }

  lemma {:induction false} NormalizeIsPlain(e: Location)
    ensures IsPlain(Normalize(e))
    ensures ValidLocation(e) ==> ValidLocation(Normalize(e))
  {
    if e != [] {
      NormalizeIsPlain(e[..|e| - 1]);
    }
  }

  lemma {:induction false} NormalizePlain(e: Location)
    requires IsPlain(e)
    ensures Normalize(e) == e
  {
    if e != [] {
      NormalizePlain(e[..|e| - 1]);
      assert e == e[..|e| - 1] + [e[|e| - 1]];
    }
  }

  /** Resolving can be done piecewise: a resolved prefix may replace the prefix. */
  lemma {:induction false} NormalizePrefix(a: Location, b: Location)
    ensures Normalize(a + b) == Normalize(Normalize(a) + b)
  {
    if b == [] {
      assert a + b == a && Normalize(a) + b == Normalize(a);
      NormalizeIsPlain(a);
      NormalizePlain(Normalize(a));
    } else {
      var b' := b[..|b| - 1];
      NormalizePrefix(a, b');
      assert (a + b)[..|a + b| - 1] == a + b';
      assert (Normalize(a) + b)[..|Normalize(a) + b| - 1] == Normalize(a) + b';
    }
  }

  /** A step down and back up again leads nowhere, neither does `.`, and at the top `..` does not
      lead out. With plain entries these leave no choice. */
  lemma NormalizeSteps(e: Location, d: string)
    ensures d != THIS && d != PARENT ==> Normalize(e + [d, PARENT]) == Normalize(e)
    ensures Normalize(e + [THIS]) == Normalize(e)
    ensures Normalize([PARENT] + e) == Normalize(e) && Normalize([THIS] + e) == Normalize(e)
  {
    assert (e + [d, PARENT])[..|e| + 1] == e + [d];
    assert (e + [d])[..|e|] == e;
    assert (e + [THIS])[..|e|] == e;
    NormalizePrefix([PARENT], e);
    NormalizePrefix([THIS], e);
    assert [PARENT][..0] == [] && [THIS][..0] == [];
    assert [] + e == e;
  }

  /** What a relative entry stands for below a root of its own. */
  lemma AbsoluteOfRelative(e: Location, r: Location, x: string)
    requires IsPlain(e) && IsPlain(r + [x])
    ensures Absolute([PARENT] + e, r + [x]) == r + e
    ensures Absolute([THIS] + e, r + [x]) == r + [x] + e
    ensures Absolute(e, r + [x]) == e
    ensures Absolute([PARENT] + e, []) == e && Absolute([THIS] + e, []) == e
  {
    assert x in r + [x] && r <= r + [x];
    NormalizePlain(e);
    FollowFrom(r + [x], [PARENT], r, e);
    FollowFrom(r + [x], [THIS], r + [x], e);
    FollowFrom([], [PARENT], [], e);
    FollowFrom([], [THIS], [], e);
  }

  /** Going on along `e` from where `step` has led. */
  lemma FollowFrom(root: Location, step: Location, to: Location, e: Location)
    requires IsPlain(root) && IsPlain(to) && IsPlain(e) && |step| == 1
    requires Follow(root, step[0]) == to
    ensures Normalize(root + (step + e)) == to + e
  {
    NormalizePlain(root);
    assert Normalize(root + step) == to by {
      assert (root + step)[..|root|] == root;
    }
    hide Normalize, Follow;
    Associate(root, step, e);
    NormalizePrefix(root + step, e);
    NormalizePlain(to + e);
  }

  /** An absolute entry holds no `.` and no `..`, keeps valid components, is left alone by any
      further resolution, and depends on the root only through what the root resolves to. */
  lemma AbsoluteIsFixedPoint(e: Location, root: Location, other: Location)
    ensures IsPlain(Absolute(e, root))
    ensures ValidLocation(e) && ValidLocation(root) ==> ValidLocation(Absolute(e, root))
    ensures Absolute(Absolute(e, root), other) == Absolute(e, root)
    ensures Absolute(e, Normalize(root)) == Absolute(e, root)
  {
    var full := if IsRelative(e) then root + e else e;
    NormalizeIsPlain(full);
    NormalizePlain(Normalize(full));
    NormalizePrefix(root, e);
  }

  /** bunsan::pm::entry. */
  class Entry {
    var location: seq<string>

    constructor ()
      ensures location == []
    {
      location := [];
    }

    /** `entry::build`: replaces the location by the pieces of a name, or throws. */
    method Build(name: string) returns (r: Outcome<(), NameError>)
      modifies this
      ensures location == SplitCompressed(name)
      ensures r.Done? <==> Parse(name).Done?
      ensures r.Done? ==> Parse(name) == Done(location)
    {
      location := SplitCompressed(name);
      var i := 0;
      while i < |location|
        invariant 0 <= i <= |location|
        invariant location == SplitCompressed(name)
        invariant forall s :: s in location[..i] ==> IsAllowedSubpath(s)
      {
        if !IsAllowedSubpath(location[i]) {
          assert location[i] in SplitCompressed(name);
          return Failed(InvalidName);
        }
        assert location[..i + 1] == location[..i] + [location[i]];
        i := i + 1;
      }
      assert location[..i] == location;
      return Done(());
    }

    /** `entry::make_absolute`. */
    method MakeAbsolute(root: Location)
      modifies this
      ensures location == Absolute(old(location), root)
    {
      if location == [] {
        return;
      }
      if location[0] == THIS || location[0] == PARENT {
        location := root + location;
      }
      var resolved := [];
      var i := 0;
      while i < |location|
        invariant 0 <= i <= |location|
        invariant location == if IsRelative(old(location)) then root + old(location) else old(location)
        invariant resolved == Normalize(location[..i])
      {
        var e := location[i];
        assert location[..i + 1][..i] == location[..i];
        if e == THIS {
        } else if e == PARENT {
          if resolved != [] {
            resolved := resolved[..|resolved| - 1];
          }
        } else {
          resolved := resolved + [e];
        }
        i := i + 1;
      }
      assert location[..i] == location;
      location := resolved;
    }
  }
}

/** Package names as the Go client resolves them. */
module GoPath {
  import opened Common
  import opened Splitting
  import opened PmEntry

  /** `path.Split`. */
  method Split(path: string) returns (elements: seq<string>)
    ensures elements == NonEmpty(Pieces(path, '/')) && "" !in elements
  {
    var pieces := Pieces(path, '/');
    elements := [];
    var i := 0;
    while i < |pieces|
      invariant 0 <= i <= |pieces|
      invariant elements == NonEmpty(pieces[..i])
    {
      NonEmptyAppend(pieces[..i], [pieces[i]]);
      assert pieces[..i + 1] == pieces[..i] + [pieces[i]];
      if pieces[i] != "" {
        elements := elements + [pieces[i]];
      }
      i := i + 1;
    }
    assert pieces[..i] == pieces;
    NonEmptyContents(pieces);
  }

  /** What `path.Absolute` returns, piece by piece. */
  function AbsoluteElements(path: string, root: string): seq<string> {
    var p := NonEmpty(Pieces(path, '/'));
    Normalize(if IsRelative(p) then NonEmpty(Pieces(root, '/')) + p else p)
  }

  /** `path.Absolute`. */
  method AbsolutePath(path: string, root: string) returns (r: string)
    ensures r == Join(AbsoluteElements(path, root))
  {
    var pathElements := Split(path);
    if |pathElements| > 0 && (pathElements[0] == THIS || pathElements[0] == PARENT) {
      var rootElements := Split(root);
      pathElements := rootElements + pathElements;
    }
    r := JoinReduced(pathElements);
  }

  /** The second half of `path.Absolute`: drops `.`, lets `..` remove the last kept element. */
  method JoinReduced(pathElements: seq<string>) returns (r: string)
    requires "" !in pathElements
    ensures r == Join(Normalize(pathElements))
  {
    var elements := [];
    var i := 0;
    while i < |pathElements|
      invariant 0 <= i <= |pathElements|
      invariant elements == Normalize(pathElements[..i])
    {
      var elem := pathElements[i];
      assert pathElements[..i + 1][..i] == pathElements[..i];
      if elem == "" {
        assert false;
      } else if elem == THIS {
      } else if elem == PARENT {
        if |elements| > 0 {
          elements := elements[..|elements| - 1];
        }
      } else {
        elements := elements + [elem];
      }
      i := i + 1;
    }
    assert pathElements[..i] == pathElements;
    r := Join(elements);
  }

  /** The two resolvers agree on every pair of names the C++ side accepts. Where the result is
      the default entry, which has no name in C++, the Go client returns the empty string. */
  lemma ResolversAgree(path: string, root: string)
    requires Parse(path).Done? && Parse(root).Done?
    ensures var e := Absolute(Parse(path).value, Parse(root).value);
            Name(e) == if e == [] then Failed(EmptyEntry) else Done(Join(AbsoluteElements(path, root)))
    ensures Absolute(Parse(path).value, Parse(root).value) == [] ==> Join(AbsoluteElements(path, root)) == ""
  {
    ParseIsNonEmptyPieces(path);
    ParseIsNonEmptyPieces(root);
  }

  /** On the Go side a relative name stands for the same: below the root, or beside it. */
  lemma RelativeInGo(e: Location, r: Location, x: string)
    requires ValidLocation(e) && ValidLocation(r + [x]) && IsPlain(e) && IsPlain(r + [x])
    ensures AbsoluteElements(Join([PARENT] + e), Join(r + [x])) == r + e
    ensures AbsoluteElements(Join([THIS] + e), Join(r + [x])) == r + [x] + e
    ensures e != [] ==> AbsoluteElements(Join(e), Join(r + [x])) == e
  {
    JoinedElements([PARENT] + e);
    JoinedElements([THIS] + e);
    JoinedElements(r + [x]);
    AbsoluteOfRelative(e, r, x);
    if e != [] {
      JoinedElements(e);
    }
    hide Join, Pieces, NonEmpty, Normalize;
  }

  lemma JoinedElements(e: Location)
    requires e != [] && ValidLocation(e)
    ensures NonEmpty(Pieces(Join(e), '/')) == e
  {
    PiecesOfJoin(e);
    NonEmptyId(e);
  }

  /** The Go result read back by the C++ side is the resolved entry. */
  lemma GoResultParses(path: string, root: string)
    requires Parse(path).Done? && Parse(root).Done?
    requires Absolute(Parse(path).value, Parse(root).value) != []
    ensures Parse(Join(AbsoluteElements(path, root))) == Done(Absolute(Parse(path).value, Parse(root).value))
  {
    ResolversAgree(path, root);
    AbsoluteIsFixedPoint(Parse(path).value, Parse(root).value, []);
    ParseOfName(Absolute(Parse(path).value, Parse(root).value));
  }
}
