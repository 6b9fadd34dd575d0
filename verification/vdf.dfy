/**
 * The untyped tree the VDF parser hands back (a `map[string]interface{}` whose
 * values are strings or further maps), and the walk from the document root down
 * to `UserRoamingConfigStore.Software.Valve.Steam.apps`.
 */
module Vdf {
  import opened Outcomes

  /** A value in the decoded document: a scalar string or a nested mapping. */
  datatype Node = Str(s: string) | Map(entries: map<string, Node>)

  /** The keys, in order, leading from the document root to the per-game entries. */
  const AppsPath: seq<string> := ["UserRoamingConfigStore", "Software", "Valve", "Steam", "apps"]

  /**
   * One `v, ok := m[key].(vdfMap)` step. A missing key or a string value fails the
   * assertion; Go then leaves `v` as a nil map, which reads as an empty one.
   */
  function Step(m: map<string, Node>, key: string): (map<string, Node>, bool)
  {
    if key in m && m[key].Map? then (m[key].entries, true) else (map[], false)
  }

  /**
   * The chain of five assertions that locates the games. Every step reuses the
   * same `ok`, so only the outcome of the last step decides; an earlier
   * failure reaches it through the empty map it leaves behind. Discarding the
   * intermediate `ok` values loses nothing: the games are found exactly when
   * every segment of the path is present and is a mapping, and they are then
   * the mapping at the end of the path.
   */
  function AppsOf(root: map<string, Node>): (r: Option<map<string, Node>>)
    ensures r == Resolve(root, AppsPath)
  {
    var (config, _) := Step(root, "UserRoamingConfigStore");
    var (software, _) := Step(config, "Software");
    var (valve, _) := Step(software, "Valve");
    var (steam, _) := Step(valve, "Steam");
    var (games, ok) := Step(steam, "apps");
    if ok then Some(games) else None
  }

  /** The mapping reached by following `path` from `m`, when every key on it names a mapping. */
  function Resolve(m: map<string, Node>, path: seq<string>): Option<map<string, Node>>
    decreases |path|
  {
    if path == [] then Some(m)
    else if path[0] in m && m[path[0]].Map? then Resolve(m[path[0]].entries, path[1..])
    else None
  }

  /** A document without a `Steam` node under `Valve` yields no games. */
  lemma MissingSteamMeansNoApps(root: map<string, Node>)
    requires "UserRoamingConfigStore" in root && root["UserRoamingConfigStore"].Map?
    requires "Software" in root["UserRoamingConfigStore"].entries
    requires root["UserRoamingConfigStore"].entries["Software"].Map?
    requires "Valve" in root["UserRoamingConfigStore"].entries["Software"].entries
    requires root["UserRoamingConfigStore"].entries["Software"].entries["Valve"].Map?
    requires "Steam" !in root["UserRoamingConfigStore"].entries["Software"].entries["Valve"].entries
    ensures AppsOf(root) == None
  {
  }
}
