/**
 * The ID-to-name table filled from the store's application list. The HTTP
 * request, the body read and the JSON decoding are outside the model: their
 * outcome arrives as a value, either the decoded list of apps or the error.
 */
module Catalog {
  import opened Outcomes

  /** One element of the `applist.apps` array: an application ID and its name. */
  datatype CatalogApp = CatalogApp(id: int, name: string)

  /** Why a refresh stopped before touching the table: the request, the body read or the decoding failed. */
  datatype FetchError = RequestFailed | BodyUnreadable | MalformedJson

  /** A table lookup as Go reads a map: an absent ID gives the empty string. */
  function NameOf(names: map<int, string>, id: int): string
  {
    if id in names then names[id] else ""
  }

  /** The table after writing each listed app's name under its ID, in list order. */
  function Merged(names: map<int, string>, apps: seq<CatalogApp>): map<int, string>
  {
    if apps == [] then names
    else
      var last := apps[|apps| - 1];
      Merged(names, apps[..|apps| - 1])[last.id := last.name]
  }

  /** Later duplicates win: an ID ends up with the name of its last occurrence in the list. */
  lemma {:induction false} MergedLastWins(names: map<int, string>, apps: seq<CatalogApp>, i: int)
    requires 0 <= i < |apps|
    requires forall j :: i < j < |apps| ==> apps[j].id != apps[i].id
    ensures apps[i].id in Merged(names, apps)
    ensures Merged(names, apps)[apps[i].id] == apps[i].name
  {
    if i < |apps| - 1 {
      MergedLastWins(names, apps[..|apps| - 1], i);
    }
  }

  /** A merge, not a replacement: an ID the list does not mention keeps its entry, or its absence. */
  lemma {:induction false} MergedKeepsUnlisted(names: map<int, string>, apps: seq<CatalogApp>, id: int)
    requires forall j :: 0 <= j < |apps| ==> apps[j].id != id
    ensures id in Merged(names, apps) <==> id in names
    ensures id in names ==> Merged(names, apps)[id] == names[id]
  {
    if apps != [] {
      MergedKeepsUnlisted(names, apps[..|apps| - 1], id);
    }
  }

  /** The merged table holds exactly the IDs it held before and the listed ones. */
  lemma {:induction false} MergedKeys(names: map<int, string>, apps: seq<CatalogApp>)
    ensures Merged(names, apps).Keys == names.Keys + (set a | a in apps :: a.id)
  {
    if apps != [] {
      var init := apps[..|apps| - 1];
      MergedKeys(names, init);
      assert apps == init + [apps[|apps| - 1]];
      assert (set a | a in apps :: a.id) == (set a | a in init :: a.id) + {apps[|apps| - 1].id};
    }
  }

  /** The process-wide name table (`AppMap`) that refreshes write into in place. */
  class NameTable {
    var names: map<int, string>

    constructor (initial: map<int, string>)
      ensures names == initial
    {
      names := initial;
    }

    /**
     * `nameMap.Update`: a failed fetch returns its error and leaves the table as
     * it was; otherwise every fetched app is written into the table in list order.
     */
    method Update(fetched: Result<seq<CatalogApp>, FetchError>) returns (err: Option<FetchError>)
      modifies this
      ensures fetched.Err? ==> err == Some(fetched.error) && names == old(names)
      ensures fetched.Ok? ==> err == None && names == Merged(old(names), fetched.value)
    {
      match fetched
      case Err(e) =>
        return Some(e);
      case Ok(apps) =>
        for i := 0 to |apps|
          invariant names == Merged(old(names), apps[..i])
        {
          assert apps[..i + 1][..i] == apps[..i];
          names := names[apps[i].id := apps[i].name];
        }
        assert apps[..|apps|] == apps;
        return None;
    }
  }
}
