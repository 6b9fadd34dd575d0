# steamcat in Dafny

A model of the core of `steamcat`, a small Go package. It reads the user's
Steam configuration (`sharedconfig.vdf`, a nested key/value document) into a
library of games. Names come from the store's application list, and games can
be queried by tag. The model covers three parts:

- **Query layer** (`query.dfy`): `Game.hasTag`, `Library.TaggedWith` and
  `RandomGameFrom` on a library held as a sequence of game values.
- **Library builder** (`vdf.dfy`, `decimal.dfy`, `builder.dfy`): the body of
  `GenerateLibraryFrom` once the document has been parsed. It walks
  `UserRoamingConfigStore.Software.Valve.Steam.apps` through five map
  assertions. It parses each key under `apps` with `strconv.Atoi`, looks the
  name up in the ID-to-name table and gathers tags. The document is a
  `Node = Str(string) | Map(map<string, Node>)` tree, and the name table is a
  parameter.
- **Name-table merge** (`catalog.dfy`): the loop of `nameMap.Update` that
  writes each fetched `(id, name)` pair into the table in place. The table is
  a class whose `names` map field the method reassigns.

Go visits map entries in no fixed order. The builder's loops pick each next key
with a nondeterministic choice (`:|`), so every property is proved for
whichever order a run takes. `Builder.GenerateLibraryFrom` returns the order it
used as a ghost value. `Builder.CollectTags` keeps its order local and states
only that one exists. `Builder.EntryTags` and `Builder.EntryTagsByKey` keep no
order.
Order-free consequences are proved as lemmas: record counts, the set of IDs,
and tag membership and multiplicity.

The builder takes a `TagLookup` argument. `ByValue` is the code as written,
which tests each attribute's *value* against `"tags"`. `ByKey` is the
corrected lookup, which tests the attribute's *key* (see Findings).

Behaviours of the code worth noting:

- `nameMap.Update` writes into the existing table, so IDs the fetch does not
  list keep their names (steamcat.go:88-90).
- A tag value that is not a string is appended as `""`, not skipped
  (steamcat.go:158-162).
- A missing path segment yields one fixed error, `AppsNotFound`, whichever
  segment is missing (steamcat.go:136-138).
- Distinct keys such as "7" and "07" both parse to ID 7, so a library can hold
  two records with one ID (steamcat.go:142). IDs are distinct when every key
  is in canonical decimal form.

## Model

| member | source | states |
|---|---|---|
| `Vdf.AppsOf` | steamcat.go:131-139 | The five chained assertions, which overwrite one `ok` flag, succeed exactly when every segment of `UserRoamingConfigStore.Software.Valve.Steam.apps` is present and a mapping; the games are then the mapping at the end of that path |
| `Vdf.MissingSteamMeansNoApps` | steamcat.go:131-139 | A document whose `Valve` mapping has no `Steam` key yields no games mapping |
| `Decimal.Atoi` | steamcat.go:142-145 | A parsed key is a Go 64-bit `int` and starts with a digit or a sign |
| `Decimal.AtoiItoa` | steamcat.go:142 | Every 64-bit integer written in decimal parses back to itself |
| `Decimal.ItoaAtoi` | steamcat.go:142 | A key in canonical form (no '+', no leading zero, no "-0") that parses is the decimal form of its value, so parsing is one-to-one on such keys |
| `Decimal.ItoaCanonical` | steamcat.go:142 | Every integer's decimal form is canonical |
| `Decimal.AtoiRejects` | steamcat.go:142-145 | The empty key, a lone sign, trailing letters and leading spaces are rejected; a sign and leading zeros are accepted |
| `Query.HasTag` | steamcat.go:95-102 | Returns true exactly when the tag list contains the string (exact, case-sensitive) |
| `Query.TaggedWith` | steamcat.go:105-113 | The loop's result is the library filtered by tag, in library order |
| `Query.TaggedMembers` | steamcat.go:105-113 | A game is in the result exactly when it is in the library and has the tag: no extras, no omissions |
| `Query.TaggedPositions` | steamcat.go:105-113 | The result is the subsequence of the library at exactly the positions whose game has the tag, in increasing order |
| `Query.TaggedLength` | steamcat.go:105-113 | The result is no longer than the library; it is empty exactly when no game has the tag |
| `Query.ArcadeScenario` | steamcat_test.go:11-44 | The test library of games A, B and C filtered by "Arcade" is exactly [A] |
| `Query.RandomGameFrom` | steamcat.go:116-118 | For a draw in `[0, len(lib))`, the returned game is an element of the library |
| `Query.RandomGameReachesAll` | steamcat.go:116-118 | Every game of the library is returned for some draw; a one-game library always returns its game |
| `Catalog.MergedLastWins` | steamcat.go:88-90 | After the merge, a listed ID maps to the name of its last occurrence in the list |
| `Catalog.MergedKeepsUnlisted` | steamcat.go:88-90 | An ID that is not listed keeps its previous name, or stays absent |
| `Catalog.MergedKeys` | steamcat.go:88-90 | The merged table's IDs are the previous IDs plus the listed ones |
| `Catalog.NameTable.constructor` | steamcat.go:43 | The table starts with the given contents |
| `Catalog.NameTable.Update` | steamcat.go:67-92 | A failed fetch returns its error and leaves the table unchanged; a successful one returns no error and leaves the table equal to the merge of the old table with the fetched list |
| `Builder.EnumerationLength` | steamcat.go:141 | A visiting order that visits every key once is as long as the key set |
| `Builder.ListsContents` | steamcat.go:157-163 | In any order, a listing of a tags mapping has one tag per key, and a string occurs in it exactly when some value reads as it |
| `Builder.ListsCounts` | steamcat.go:157-163 | In any order, each tag occurs in a listing exactly as often as there are keys whose value reads as it |
| `Builder.CollectTags` | steamcat.go:153-164 | A string node yields no tags; a mapping yields one tag per key, its string value or `""` for a non-string value, in the order visited |
| `Builder.EntryTags` | steamcat.go:146-166 | As written, every entry gets an empty tag list, whatever its attributes |
| `Builder.EntryTagsByKey` | steamcat.go:146-166 | With the key-based lookup, an entry gets the listing of the node under its `"tags"` attribute, and no tags if it has none |
| `Builder.CorrectedEntryTags` | steamcat.go:150-166 | With the key-based lookup, an entry has one tag per key of its tags mapping, and a tag occurs exactly when some value of that mapping reads as it |
| `Builder.ArcadeEntryExhibit` | steamcat.go:151-153 | For the entry `{"tags": {"0": "Arcade"}}`, the code as written gives no tags and the corrected lookup gives exactly ["Arcade"] |
| `Builder.GenerateLibraryFrom` | steamcat.go:131-169 | Missing `apps` gives `AppsNotFound`. A key that is not an integer gives an error naming that key, and only then is there an error. Otherwise there is one record per key, with the parsed ID, the table's name (or `""`) and the tags the chosen lookup gives |
| `Builder.LibraryIds` | steamcat.go:141-167 | A built library has as many records as there are keys, and its IDs are exactly the parsed keys, in any visiting order |
| `Builder.CanonicalKeysDistinctIds` | steamcat.go:141-167 | When every key under `apps` is canonical, no two records of a built library share an ID |
| `Builder.NonCanonicalKeysShareId` | steamcat.go:141-167 | The keys "7" and "07" give a library of two records that both carry ID 7 |
| `Builder.CorrectedRecordTagged` | steamcat.go:105-113 | In a library built with the corrected lookup, filtering by a tag keeps a record exactly when some value in its entry's tags mapping reads as that tag |
| `Builder.AsWrittenNothingTagged` | steamcat.go:151-153 | In a library built as written, filtering by any tag yields nothing |

## Left out

- The HTTP request, body read and JSON decoding of `nameMap.Update` (steamcat.go:68-86): network I/O and an external decoder. `Update` receives their outcome, either the decoded app list or one of three errors.
- `loadVDFFile` (steamcat.go:50-64) and the VDF text parser `github.com/andygrunwald/vdf`: file I/O and a library that is not part of this model. The builder starts from the parsed tree.
- Whether the parser's maps satisfy the named-type assertion `.(vdfMap)`: this depends on the parser's types. Every mapping node is taken to pass it.
- `math/rand`: `RandomGameFrom` takes the draw as a parameter in `[0, len(lib))`, the range of `rand.Intn`. The panic of `rand.Intn(0)` on an empty library is a precondition.
- Logging and `log.Fatal`: diagnostics are dropped. The fatal key-parse path becomes the `BadAppId` error.
- The global `AppMap`, its nil initial value, and the call `AppMap.Update()` at steamcat.go:122, whose error is ignored: the builder takes the name table as a parameter. A write into Go's nil map would panic; this is not modelled.
- The identity of the `*Game` records a library refers to: games are values. Keeping each matching game by position is stated by `Query.TaggedPositions`.
- Builder.LibraryIds: the library does not promise one record per ID, because the code does not. Distinct non-canonical keys can parse to one ID (`Builder.NonCanonicalKeysShareId`). Unique IDs are proved only for canonical keys (`Builder.CanonicalKeysDistinctIds`).
- Go's `int` is taken as 64 bits wide for the range `strconv.Atoi` accepts.

## Findings

| source | as written | input that shows it | evidently intended | confidence | as-written member | corrected member |
|---|---|---|---|---|---|---|
| steamcat.go:152 | Each attribute's value is compared with the string `"tags"`, and that string value is then asserted to be a map, which always fails. No tag is ever collected. | The entry `{"tags": {"0": "Arcade"}}` gets no tags, so `TaggedWith("Arcade")` finds nothing | Match the attribute whose key is `"tags"` and list its mapping's values | high, not executed | `Builder.EntryTags` | `Builder.EntryTagsByKey` |
