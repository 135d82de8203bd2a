/** Result types shared by the models. */
module Common {
  datatype Option<+T> = None | Some(value: T)

  /** A call that either returns or throws. */
  datatype Outcome<+T, +E> = Done(value: T) | Failed(error: E)
}

/** Paths in a directed graph given by its successor function. */
module Graphs {
  ghost predicate IsPath<T(!new)>(next: T -> set<T>, path: seq<T>) {
    |path| > 0 && forall i :: 0 <= i < |path| - 1 ==> path[i + 1] in next(path[i])
  }

  ghost predicate IsPathFromTo<T(!new)>(next: T -> set<T>, path: seq<T>, from: T, to: T) {
    IsPath(next, path) && path[0] == from && path[|path| - 1] == to
  }

  ghost predicate Reachable<T(!new)>(next: T -> set<T>, from: T, to: T) {
    exists path :: IsPathFromTo(next, path, from, to)
  }

  /** A walk of at least one edge that comes back to where it started. */
  ghost predicate IsCycle<T(!new)>(next: T -> set<T>, path: seq<T>) {
    IsPath(next, path) && |path| > 1 && path[0] == path[|path| - 1]
  }

  ghost predicate CycleReachable<T(!new)>(next: T -> set<T>, from: T) {
    exists cycle :: IsCycle(next, cycle) && Reachable(next, from, cycle[0])
  }

  /** A path of more than one node is a shorter path and one edge. */
  lemma LastEdge<T(!new)>(next: T -> set<T>, path: seq<T>)
    requires |path| > 1
    ensures IsPath(next, path) <==>
              IsPath(next, path[..|path| - 1]) && path[|path| - 1] in next(path[|path| - 2])
  {
    var init := path[..|path| - 1];
    if IsPath(next, path) {
      assert path[|path| - 2 + 1] in next(path[|path| - 2]);
      forall i | 0 <= i < |init| - 1
        ensures init[i + 1] in next(init[i])
      {
        assert path[i + 1] in next(path[i]);
      }
    } else if IsPath(next, init) && path[|path| - 1] in next(path[|path| - 2]) {
      forall i | 0 <= i < |path| - 1
        ensures path[i + 1] in next(path[i])
      {
        if i < |init| - 1 {
          assert init[i + 1] in next(init[i]);
        }
      }
    }
  }

  lemma ReachSelf<T(!new)>(next: T -> set<T>, a: T)
    ensures Reachable(next, a, a)
  {
    assert IsPathFromTo(next, [a], a, a);
  }

  lemma StepReach<T(!new)>(next: T -> set<T>, a: T, b: T, c: T)
    requires b in next(a) && Reachable(next, b, c)
    ensures Reachable(next, a, c)
  {
    var path :| IsPathFromTo(next, path, b, c);
    assert IsPathFromTo(next, [a] + path, a, c);
  }

  lemma ReachTrans<T(!new)>(next: T -> set<T>, a: T, b: T, c: T)
    requires Reachable(next, a, b) && Reachable(next, b, c)
    ensures Reachable(next, a, c)
  {
    var p :| IsPathFromTo(next, p, a, b);
    var q :| IsPathFromTo(next, q, b, c);
    var pq := p + q[1..];
    assert forall i :: 0 <= i < |pq| - 1 ==> pq[i + 1] in next(pq[i]) by {
      forall i | 0 <= i < |pq| - 1
        ensures pq[i + 1] in next(pq[i])
      {
        if i >= |p| - 1 {
          assert pq[i] == q[i - |p| + 1] && pq[i + 1] == q[i - |p| + 2];
        }
      }
    }
    assert IsPathFromTo(next, pq, a, c);
  }

  /** A set of nodes closed under `next` contains everything reachable from it. */
  lemma ClosedContainsReachable<T(!new)>(next: T -> set<T>, nodes: set<T>, a: T, b: T)
    requires a in nodes && Reachable(next, a, b)
    requires forall x :: x in nodes ==> next(x) <= nodes
    ensures b in nodes
  {
    var path :| IsPathFromTo(next, path, a, b);
    ClosedContainsPath(next, nodes, path);
  }

  lemma {:induction false} ClosedContainsPath<T(!new)>(next: T -> set<T>, nodes: set<T>, path: seq<T>)
    requires IsPath(next, path) && path[0] in nodes
    requires forall x :: x in nodes ==> next(x) <= nodes
    ensures forall i :: 0 <= i < |path| ==> path[i] in nodes
  {
    if |path| > 1 {
      var init := path[..|path| - 1];
      ClosedContainsPath(next, nodes, init);
      assert path[|path| - 1] in next(init[|path| - 2]);
    }
  }
}

/** Cutting text at a separator, and sequences in general. */
module Splitting {
  lemma Associate<T>(a: seq<T>, b: seq<T>, c: seq<T>)
    ensures a + (b + c) == a + b + c
  {
  }

  lemma SplitThree<T>(s: seq<T>)
    requires |s| >= 3
    ensures s == [s[0], s[1], s[2]] + s[3..]
  {
  }

  lemma InParts<T>(s: seq<T>, a: nat, c: nat, x: T)
    requires a <= c <= |s|
    ensures x in s <==> x in s[..a] || x in s[a..c] || x in s[c..]
  {
    assert s == s[..a] + s[a..c] + s[c..];
  }

  /** All the pieces of `s` between separators, empty ones included. */
  function Pieces(s: string, separator: char): (r: seq<string>)
    ensures r != []
  {
    if s == "" then [""]
    else if s[0] == separator then [""] + Pieces(s[1..], separator)
    else var r := Pieces(s[1..], separator); [[s[0]] + r[0]] + r[1..]
  }

  lemma {:induction false} PiecesOfWord(w: string, separator: char, rest: string)
    requires separator !in w
    ensures Pieces(w, separator) == [w]
    ensures Pieces(w + [separator] + rest, separator) == [w] + Pieces(rest, separator)
  {
    if w == "" {
      assert (w + [separator] + rest)[1..] == rest;
    } else {
      PiecesOfWord(w[1..], separator, rest);
      assert (w + [separator] + rest)[1..] == w[1..] + [separator] + rest;
      assert [w[0]] + w[1..] == w;
    }
  }

  /** The pieces hold exactly what is not a separator. */
  lemma {:induction false} PiecesContents(s: string, separator: char)
    ensures forall w, c :: w in Pieces(s, separator) && c in w ==> c in s && c != separator
    ensures forall c :: c in s && c != separator ==> exists w :: w in Pieces(s, separator) && c in w
  {
    if s != "" {
      PiecesContents(s[1..], separator);
      var p, r := Pieces(s, separator), Pieces(s[1..], separator);
      assert s == [s[0]] + s[1..] && r == [r[0]] + r[1..];
      assert s[0] == separator ==> p == [""] + r;
      assert s[0] != separator ==> p == [[s[0]] + r[0]] + r[1..];
      forall c | c in s && c != separator
        ensures exists w :: w in p && c in w
      {
        if c == s[0] || c in r[0] {
          assert c in p[0] || (s[0] == separator && r[0] in p);
        } else {
          var w :| w in r && c in w;
          assert w in r[1..] && w in p;
        }
      }
    }
  }

  /** An outer piece is empty where the text is, or where it begins or ends with a separator. */
  lemma {:induction false} OuterPieces(s: string, separator: char)
    ensures var p := Pieces(s, separator);
            (p[0] == "" <==> s == "" || s[0] == separator) &&
            (p[|p| - 1] == "" <==> s == "" || s[|s| - 1] == separator)
  {
    if s != "" {
      OuterPieces(s[1..], separator);
    }
  }
}
