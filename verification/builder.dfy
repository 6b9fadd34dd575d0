/**
 * `GenerateLibraryFrom` once the document has been parsed and the name table
 * fetched: locate the games, parse each key as an application ID, look up its
 * name and gather its tags. Go visits map entries in no fixed order; the loops
 * below pick each next key with `:|`, so that every property is proved for
 * whichever order a run takes. `GenerateLibraryFrom` returns the order it used
 * as a ghost value; `CollectTags` keeps its order local and states only that
 * one exists (`Lists`).
 */
module Builder {
  import opened Outcomes
  import opened Vdf
  import opened Decimal
  import opened Query
  import opened Catalog

  /** Why no library was produced: the `apps` mapping was not found, or a key under it is not an integer. */
  datatype BuildError = AppsNotFound | BadAppId(key: string)

  /**
   * How an entry's tags mapping is located: `ByValue` is the test the code makes
   * (an attribute whose value is the string "tags"), `ByKey` the evidently
   * intended one (the attribute whose key is "tags").
   */
  datatype TagLookup = ByValue | ByKey

  /** `order` visits every key of `keys` exactly once. */
  ghost predicate IsEnumeration(order: seq<string>, keys: set<string>)
  {
    (forall i :: 0 <= i < |order| ==> order[i] in keys) &&
    (forall k :: k in keys ==> k in order) &&
    (forall i, j :: 0 <= i < j < |order| ==> order[i] != order[j])
  }

  lemma {:induction false} EnumerationLength(order: seq<string>, keys: set<string>)
    requires IsEnumeration(order, keys)
    ensures |order| == |keys|
  {
    if order != [] {
      var n := |order| - 1;
      assert forall i :: 0 <= i < n ==> order[..n][i] == order[i];
      forall k | k in keys - {order[n]}
        ensures k in order[..n]
      {
        var i :| 0 <= i < |order| && order[i] == k;
        assert i < n;
      }
      EnumerationLength(order[..n], keys - {order[n]});
    } else {
      assert forall k :: k !in keys;
    }
  }

  /** A tag value as `tag, _ := tagValue.(string)` leaves it: the string, or "" for a mapping. */
  function TagText(n: Node): string
  {
    if n.Str? then n.s else ""
  }

  /** `tags` holds one entry per key of `m`, the text of its value, in the order `order` visits the keys. */
  ghost predicate ListedBy(tags: seq<string>, order: seq<string>, m: map<string, Node>)
  {
    IsEnumeration(order, m.Keys) && |tags| == |order| &&
    forall i :: 0 <= i < |order| ==> tags[i] == TagText(m[order[i]])
  }

  /** `tags` lists the values of `m` in some order of its keys. */
  ghost predicate Lists(tags: seq<string>, m: map<string, Node>)
  {
    exists order :: ListedBy(tags, order, m)
  }

  /** What collecting from a found tags node yields: nothing from a string, a listing of a mapping. */
  ghost predicate TagsFound(tags: seq<string>, n: Node)
  {
    if n.Map? then Lists(tags, n.entries) else tags == []
  }

  /** Whatever the order, the tags list has one entry per tag key, and holds exactly the texts of the values. */
  lemma ListsContents(tags: seq<string>, m: map<string, Node>)
    requires Lists(tags, m)
    ensures |tags| == |m|
    ensures forall t :: t in tags <==> exists k :: k in m && TagText(m[k]) == t
  {
    var order :| ListedBy(tags, order, m);
    EnumerationLength(order, m.Keys);
    forall t | t in tags
      ensures exists k :: k in m && TagText(m[k]) == t
    {
      var i :| 0 <= i < |tags| && tags[i] == t;
      assert order[i] in m && TagText(m[order[i]]) == t;
    }
    forall t | exists k :: k in m && TagText(m[k]) == t
      ensures t in tags
    {
      var k :| k in m && TagText(m[k]) == t;
      var i :| 0 <= i < |order| && order[i] == k;
      assert tags[i] == t;
    }
  }

  /** The texts of the values of `m`, key by key. */
  function Texts(m: map<string, Node>): map<string, string>
  {
    map k | k in m :: TagText(m[k])
  }

  /** The keys among `order` that `m` maps to `v`. */
  ghost function KeysTo<K, V>(order: seq<K>, m: map<K, V>, v: V): set<K>
  {
    set k | k in order && k in m && m[k] == v
  }

  /** Visiting one more key adds it to the keys mapped to `v` exactly when it maps to `v`. */
  lemma KeysToStep<K, V>(order: seq<K>, k: K, m: map<K, V>, v: V)
    requires k in m
    ensures KeysTo(order + [k], m, v) == KeysTo(order, m, v) + (if m[k] == v then {k} else {})
  {
  }

  /** Listing the values of distinct keys: each value occurs as often as keys map to it. */
  lemma {:induction false} ValueCounts<K, V>(vals: seq<V>, order: seq<K>, m: map<K, V>, v: V)
    requires |vals| == |order|
    requires forall i :: 0 <= i < |order| ==> order[i] in m && vals[i] == m[order[i]]
    requires forall i, j :: 0 <= i < j < |order| ==> order[i] != order[j]
    ensures multiset(vals)[v] == |KeysTo(order, m, v)|
  {
    if order == [] {
      assert KeysTo(order, m, v) == {};
    } else {
      var n := |order| - 1;
      var vi, oi := vals[..n], order[..n];
      assert forall i :: 0 <= i < n ==> oi[i] == order[i] && vi[i] == vals[i];
      ValueCounts(vi, oi, m, v);
      assert order[n] !in oi by {
        forall i | 0 <= i < n ensures oi[i] != order[n] { }
      }
      assert vals == vi + [vals[n]] && order == oi + [order[n]];
      KeysToStep(oi, order[n], m, v);
    }
  }

  /** The keys of `m` mapped to `v`. */
  ghost function KeysMappedTo<K, V>(m: map<K, V>, v: V): set<K>
  {
    set k | k in m && m[k] == v
  }

  /** Once every key of `m` has been visited, the visited keys mapped to `v` are all of them. */
  lemma AllKeysVisited<K, V>(order: seq<K>, m: map<K, V>, v: V)
    requires forall k :: k in m ==> k in order
    ensures KeysTo(order, m, v) == KeysMappedTo(m, v)
  {
  }

  /** Whatever the order, a tag occurs in the list exactly as often as keys of `m` have it as their text. */
  lemma ListsCounts(tags: seq<string>, m: map<string, Node>, t: string)
    requires Lists(tags, m)
    ensures multiset(tags)[t] == |KeysMappedTo(Texts(m), t)|
  {
    var order :| ListedBy(tags, order, m);
    var texts := Texts(m);
    assert forall i :: 0 <= i < |order| ==> order[i] in texts && tags[i] == texts[order[i]];
    ValueCounts(tags, order, texts, t);
    AllKeysVisited(order, texts, t);
  }

  /**
   * steamcat.go:153-164: the found node must be a mapping, else only a diagnostic is
   * logged; each of its values is appended as a tag, and a value that is not a
   * string is appended as "".
   */
  method CollectTags(n: Node) returns (tags: seq<string>)
    ensures TagsFound(tags, n)
  {
    match n
    case Str(_) =>
      tags := [];
    case Map(m) =>
      tags := [];
      ghost var order: seq<string> := [];
      var remaining := m.Keys;
      while remaining != {}
        invariant remaining <= m.Keys
        invariant IsEnumeration(order, m.Keys - remaining)
        invariant |tags| == |order|
        invariant forall i :: 0 <= i < |order| ==> order[i] in m && tags[i] == TagText(m[order[i]])
        decreases remaining
      {
        var k :| k in remaining;
        tags := tags + [TagText(m[k])];
        order := order + [k];
        remaining := remaining - {k};
      }
      assert ListedBy(tags, order, m);
  }

  /** The attributes of a game entry; a value that is not a mapping reads as Go's nil map. */
  function Attributes(games: Node): map<string, Node>
  {
    if games.Map? then games.entries else map[]
  }

  /**
   * steamcat.go:146-166 as written: only an attribute whose value equals the string
   * "tags" is collected from, and a string is never a mapping, so no tag is
   * ever gathered.
   */
  method EntryTags(games: Node) returns (tags: seq<string>)
    ensures tags == []
  {
    var info := Attributes(games);
    tags := [];
    var remaining := info.Keys;
    while remaining != {}
      invariant remaining <= info.Keys
      invariant tags == []
      decreases remaining
    {
      var k :| k in remaining;
      if info[k] == Str("tags") {
        var found := CollectTags(info[k]);
        tags := tags + found;
      }
      remaining := remaining - {k};
    }
  }

  /** The same loop matching the attribute's key against "tags": the entry's tags mapping is listed. */
  method EntryTagsByKey(games: Node) returns (tags: seq<string>)
    ensures "tags" in Attributes(games) ==> TagsFound(tags, Attributes(games)["tags"])
    ensures "tags" !in Attributes(games) ==> tags == []
  {
    var info := Attributes(games);
    tags := [];
    var remaining := info.Keys;
    while remaining != {}
      invariant remaining <= info.Keys
      invariant "tags" in info && "tags" !in remaining ==> TagsFound(tags, info["tags"])
      invariant !("tags" in info && "tags" !in remaining) ==> tags == []
      decreases remaining
    {
      var k :| k in remaining;
      if k == "tags" {
        var found := CollectTags(info[k]);
        assert tags + found == found;
        tags := tags + found;
      }
      remaining := remaining - {k};
    }
  }

  /** The tags a record gets from its entry under the given lookup. */
  ghost predicate EntryTagsOk(tags: seq<string>, games: Node, lookup: TagLookup)
  {
    match lookup
    case ByValue => tags == []
    case ByKey =>
      if "tags" in Attributes(games) then TagsFound(tags, Attributes(games)["tags"]) else tags == []
  }

  /** The tags mapping of a game entry, when it has one; otherwise the empty mapping. */
  function TagMap(games: Node): map<string, Node>
  {
    var info := Attributes(games);
    if "tags" in info && info["tags"].Map? then info["tags"].entries else map[]
  }

  /**
   * With the corrected lookup an entry's record carries one tag per key of its
   * tags mapping, and a tag occurs exactly when some value of that mapping reads as it.
   */
  lemma CorrectedEntryTags(tags: seq<string>, games: Node)
    requires EntryTagsOk(tags, games, ByKey)
    ensures |tags| == |TagMap(games)|
    ensures forall t :: t in tags <==> exists k :: k in TagMap(games) && TagText(TagMap(games)[k]) == t
  {
    if tags != [] || TagMap(games) != map[] {
      ListsContents(tags, TagMap(games));
    }
  }

  /**
   * The entry `{"tags": {"0": "Arcade"}}`: the code as written gives its record
   * no tags, the corrected lookup gives it exactly ["Arcade"].
   */
  lemma ArcadeEntryExhibit(asWritten: seq<string>, corrected: seq<string>)
    requires EntryTagsOk(asWritten, Map(map["tags" := Map(map["0" := Str("Arcade")])]), ByValue)
    requires EntryTagsOk(corrected, Map(map["tags" := Map(map["0" := Str("Arcade")])]), ByKey)
    ensures asWritten == []
    ensures corrected == ["Arcade"]
  {
    var m := map["0" := Str("Arcade")];
    var order :| ListedBy(corrected, order, m);
    EnumerationLength(order, m.Keys);
    assert order[0] in m.Keys;
  }

  /**
   * `lib` holds one record per key of `apps`, in the order `order`: its ID is the
   * decimal value of the key and its name the table's entry for that ID ("" when absent).
   */
  ghost predicate RecordsFor(lib: Library, order: seq<string>, apps: map<string, Node>, names: map<int, string>)
  {
    IsEnumeration(order, apps.Keys) && |lib| == |order| &&
    forall i :: 0 <= i < |order| ==>
      Atoi(order[i]).Some? && lib[i].id == Atoi(order[i]).value && lib[i].name == NameOf(names, lib[i].id)
  }

  /**
   * `GenerateLibraryFrom` after loading: without the `apps` mapping there is no
   * library; a key that is not a Go integer is fatal; otherwise every entry
   * becomes one record, and its tags are gathered as `lookup` says.
   */
  method GenerateLibraryFrom(root: map<string, Node>, names: map<int, string>, lookup: TagLookup)
    returns (r: Result<Library, BuildError>, ghost order: seq<string>)
    ensures AppsOf(root).None? ==> r == Err(AppsNotFound)
    ensures AppsOf(root).Some? ==>
      var apps := AppsOf(root).value;
      (r.Ok? <==> forall k :: k in apps ==> Atoi(k).Some?) &&
      (r.Err? ==> r.error.BadAppId? && r.error.key in apps && Atoi(r.error.key).None?) &&
      (r.Ok? ==> RecordsFor(r.value, order, apps, names) && |r.value| == |apps|) &&
      (r.Ok? ==> forall i :: 0 <= i < |order| ==> EntryTagsOk(r.value[i].tags, apps[order[i]], lookup))
  {
    order := [];
    var located := AppsOf(root);
    if located.None? {
      return Err(AppsNotFound), order;
    }
    var apps := located.value;
    var lib: Library := [];
    var remaining := apps.Keys;
    while remaining != {}
      invariant remaining <= apps.Keys
      invariant IsEnumeration(order, apps.Keys - remaining)
      invariant |lib| == |order|
      invariant forall i :: 0 <= i < |order| ==>
        order[i] in apps && Atoi(order[i]).Some? && lib[i].id == Atoi(order[i]).value &&
        lib[i].name == NameOf(names, lib[i].id) && EntryTagsOk(lib[i].tags, apps[order[i]], lookup)
      invariant forall k :: k in apps && k !in remaining ==> Atoi(k).Some?
      decreases remaining
    {
      var k :| k in remaining;
      var parsed := Atoi(k);
      if parsed.None? {
        return Err(BadAppId(k)), order;
      }
      var id := parsed.value;
      var tags;
      match lookup {
        case ByValue => tags := EntryTags(apps[k]);
        case ByKey => tags := EntryTagsByKey(apps[k]);
      }
      lib := lib + [Game(id, NameOf(names, id), tags)];
      order := order + [k];
      remaining := remaining - {k};
    }
    EnumerationLength(order, apps.Keys);
    return Ok(lib), order;
  }

  /** The IDs of a library's records. */
  ghost function Ids(lib: Library): set<int>
  {
    set g | g in lib :: g.id
  }

  /** The IDs the keys of `apps` parse to. */
  ghost function ParsedIds(apps: map<string, Node>): set<int>
  {
    set k | k in apps && Atoi(k).Some? :: Atoi(k).value
  }

  /** The IDs in a built library are exactly the parsed keys, whatever order the entries were visited in. */
  lemma LibraryIds(lib: Library, order: seq<string>, apps: map<string, Node>, names: map<int, string>)
    requires RecordsFor(lib, order, apps, names)
    ensures |lib| == |apps|
    ensures Ids(lib) == ParsedIds(apps)
  {
    EnumerationLength(order, apps.Keys);
    forall k | k in apps && Atoi(k).Some?
      ensures Atoi(k).value in Ids(lib)
    {
      var i :| 0 <= i < |order| && order[i] == k;
      assert lib[i] in lib;
    }
    forall g | g in lib
      ensures g.id in ParsedIds(apps)
    {
      var i :| 0 <= i < |lib| && lib[i] == g;
      assert order[i] in apps;
    }
  }

  /** When every key under `apps` is canonical, no two records of a built library share an ID. */
  lemma CanonicalKeysDistinctIds(lib: Library, order: seq<string>, apps: map<string, Node>, names: map<int, string>)
    requires RecordsFor(lib, order, apps, names)
    requires forall k :: k in apps ==> Canonical(k)
    ensures forall i, j :: 0 <= i < j < |lib| ==> lib[i].id != lib[j].id
  {
    forall i, j | 0 <= i < j < |lib|
      ensures lib[i].id != lib[j].id
    {
      ItoaAtoi(order[i], lib[i].id);
      ItoaAtoi(order[j], lib[j].id);
    }
  }

  /** The keys "7" and "07" are distinct, yet both records they yield carry ID 7. */
  lemma NonCanonicalKeysShareId(lib: Library, order: seq<string>, names: map<int, string>)
    requires RecordsFor(lib, order, map["7" := Str(""), "07" := Str("")], names)
    ensures |lib| == 2 && lib[0].id == 7 && lib[1].id == 7
  {
    var apps := map["7" := Str(""), "07" := Str("")];
    EnumerationLength(order, apps.Keys);
    assert apps.Keys == {"7", "07"};
    assert "07"[1..] == "7" && "07"[..1] == "0" && "7"[..0] == [];
    assert Atoi("7") == Some(7) && Atoi("07") == Some(7);
    assert order[0] in apps && order[1] in apps;
  }

  /**
   * With the corrected lookup, filtering the library by `t` keeps a record
   * exactly when some value in its entry's tags mapping reads as `t`.
   */
  lemma CorrectedRecordTagged(lib: Library, order: seq<string>, apps: map<string, Node>, t: string, i: int)
    requires |lib| == |order| && 0 <= i < |order| && order[i] in apps
    requires EntryTagsOk(lib[i].tags, apps[order[i]], ByKey)
    ensures lib[i] in Tagged(lib, t) <==> t in Texts(TagMap(apps[order[i]])).Values
  {
    var tm := TagMap(apps[order[i]]);
    TaggedMembers(lib, t, lib[i]);
    CorrectedEntryTags(lib[i].tags, apps[order[i]]);
    if t in Texts(tm).Values {
      var k :| k in Texts(tm) && Texts(tm)[k] == t;
      assert k in tm && TagText(tm[k]) == t;
    }
    if exists k :: k in tm && TagText(tm[k]) == t {
      var k :| k in tm && TagText(tm[k]) == t;
      assert Texts(tm)[k] == t;
    }
  }

  /** As written, every library is untagged, so filtering it by any tag yields nothing. */
  lemma AsWrittenNothingTagged(lib: Library, order: seq<string>, apps: map<string, Node>, t: string)
    requires |lib| == |order|
    requires forall i :: 0 <= i < |order| ==> order[i] in apps && EntryTagsOk(lib[i].tags, apps[order[i]], ByValue)
    ensures Tagged(lib, t) == []
  {
    TaggedLength(lib, t);
  }
}
