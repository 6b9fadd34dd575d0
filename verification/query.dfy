/**
 * Game records and the read-only queries over a library of them: the tag test,
 * the order-preserving filter by tag and the random pick.
 */
module Query {

  /** A game the user owns: its application ID, its display name and its tags. */
  datatype Game = Game(id: int, name: string, tags: seq<string>)

  /** A library is the ordered list of the user's games. */
  type Library = seq<Game>

  /** `Game.hasTag`: scans the tags in order and stops at the first exact match. */
  method HasTag(g: Game, s: string) returns (found: bool)
    ensures found <==> s in g.tags
  {
    for i := 0 to |g.tags|
      invariant s !in g.tags[..i]
    {
      if g.tags[i] == s {
        return true;
      }
    }
    return false;
  }

  /** The games of `lib` that carry tag `s`, in library order. */
  function Tagged(lib: Library, s: string): Library
  {
    if lib == [] then []
    else Tagged(lib[..|lib| - 1], s) + (if s in lib[|lib| - 1].tags then [lib[|lib| - 1]] else [])
  }

  /** `Library.TaggedWith`: appends every game that has the tag, walking the library once. */
  method TaggedWith(lib: Library, s: string) returns (filtered: Library)
    ensures filtered == Tagged(lib, s)
  {
    filtered := [];
    for i := 0 to |lib|
      invariant filtered == Tagged(lib[..i], s)
    {
      assert lib[..i + 1][..i] == lib[..i];
      var has := HasTag(lib[i], s);
      if has {
        filtered := filtered + [lib[i]];
      }
    }
    assert lib[..|lib|] == lib;
  }

  /** No extras and no omissions: a game is in the result exactly when it is in the library and has the tag. */
  lemma {:induction false} TaggedMembers(lib: Library, s: string, g: Game)
    ensures g in Tagged(lib, s) <==> g in lib && s in g.tags
  {
    if lib != [] {
      var init := lib[..|lib| - 1];
      TaggedMembers(init, s, g);
      assert lib == init + [lib[|lib| - 1]];
    }
  }

  /** `idx` lists positions of `lib`, strictly increasing, and `sub` is what stands there. */
  ghost predicate Embeds(idx: seq<nat>, sub: Library, lib: Library)
  {
    |idx| == |sub| &&
    (forall j :: 0 <= j < |idx| ==> idx[j] < |lib| && sub[j] == lib[idx[j]]) &&
    (forall j, k :: 0 <= j < k < |idx| ==> idx[j] < idx[k])
  }

  /**
   * The result is the subsequence of `lib` taken at exactly the positions whose
   * game has the tag: input order is kept, and equal games at different
   * positions are each kept.
   */
  lemma {:induction false} TaggedPositions(lib: Library, s: string) returns (idx: seq<nat>)
    ensures Embeds(idx, Tagged(lib, s), lib)
    ensures forall i :: 0 <= i < |lib| ==> (i in idx <==> s in lib[i].tags)
  {
    if lib == [] {
      idx := [];
    } else {
      var n := |lib| - 1;
      var init := lib[..n];
      var prev := TaggedPositions(init, s);
      var t := Tagged(init, s);
      var r := Tagged(lib, s);
      assert r == t + (if s in lib[n].tags then [lib[n]] else []);
      idx := if s in lib[n].tags then prev + [n] else prev;
      forall j | 0 <= j < |idx|
        ensures idx[j] < |lib| && r[j] == lib[idx[j]]
      {
        if j < |prev| {
          assert r[j] == t[j] && init[prev[j]] == lib[prev[j]];
        }
      }
      forall j, k | 0 <= j < k < |idx|
        ensures idx[j] < idx[k]
      {
        if k == |prev| {
          assert idx[j] == prev[j] < |init|;
        }
      }
      forall i | 0 <= i < |lib|
        ensures i in idx <==> s in lib[i].tags
      {
        if i < n {
          assert init[i] == lib[i];
          assert i in idx <==> i in prev;
        } else {
          assert forall j :: 0 <= j < |prev| ==> prev[j] < n;
        }
      }
    }
  }

  /** The result is never longer than the library, and it is empty exactly when no game has the tag. */
  lemma {:induction false} TaggedLength(lib: Library, s: string)
    ensures |Tagged(lib, s)| <= |lib|
    ensures Tagged(lib, s) == [] <==> forall g :: g in lib ==> s !in g.tags
  {
    if lib != [] {
      var init := lib[..|lib| - 1];
      TaggedLength(init, s);
      assert lib == init + [lib[|lib| - 1]];
    }
  }

  /** The library of the package's test, filtered by "Arcade", is the one game A. */
  lemma ArcadeScenario()
    ensures
      var a := Game(1, "A", ["Arcade", "Sports"]);
      var b := Game(2, "B", ["Action", "Sports"]);
      var c := Game(3, "C", []);
      Tagged([a, b, c], "Arcade") == [a]
  {
    var a := Game(1, "A", ["Arcade", "Sports"]);
    var b := Game(2, "B", ["Action", "Sports"]);
    var c := Game(3, "C", []);
    assert [a, b, c][..2] == [a, b] && [a, b][..1] == [a] && [a][..0] == [];
    assert Tagged([a], "Arcade") == [a];
    assert "Arcade" !in b.tags && "Arcade" !in c.tags;
    assert Tagged([a, b], "Arcade") == [a];
  }

  /**
   * `RandomGameFrom`: the game at position `draw`, where `draw` is the value
   * `rand.Intn(len(lib))` produced; `rand.Intn` panics on an empty library.
   */
  function RandomGameFrom(lib: Library, draw: int): (g: Game)
    requires 0 <= draw < |lib|
    ensures g in lib
  {
    lib[draw]
  }

  /** Every game of the library can be drawn, and a one-game library always yields its game. */
  lemma RandomGameReachesAll(lib: Library, g: Game)
    requires g in lib
    ensures exists draw :: 0 <= draw < |lib| && RandomGameFrom(lib, draw) == g
    ensures |lib| == 1 ==> RandomGameFrom(lib, 0) == g
  {
    var draw :| 0 <= draw < |lib| && lib[draw] == g;
    assert RandomGameFrom(lib, draw) == g;
  }
}
