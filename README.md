# Favorites repository and pairing composer of the recipe server

This project models the core of a small Express server (`servidor.js`) that keeps a
volatile, in-memory list of favorite recipes taken from an external recipe catalog,
and that composes a meal-and-drink pairing from two external catalogs.

- `catalog.dfy` (module `Catalog`): the meal and drink entries as the server reads
  them, JavaScript truthiness of a string that may be null, the instructions preview
  (`substring(0, n) + '...'`) and the truthy-value filter (`.filter(i => i)`).
- `http.dfy` (module `Http`): a response as a status code plus a payload (a message,
  one record, a list of records, or nothing).
- `favorites.dfy` (module `Favorites`): the favorite record, `findIndex` and the
  removal `filter` as functions, and the class `Repository`. It owns the list
  `favorites` and the counter `nextId`, which are the module-level
  `favoriteRecipes` and `nextId` of the source. Its methods `Add`, `List`, `Rename`
  and `Remove` are the four handlers of `/api/favorites`. The ghost field `issued`
  holds every identifier ever given to a stored record. The invariant `Valid()`
  says three things: identifiers increase along the list, every stored identifier
  was issued, and every issued identifier is below `nextId`. Together these mean
  identifiers are unique and never reused. Three client scenarios call the handlers
  in sequence: `DuplicateScenario` adds the same meal twice, `RenameScenario`
  renames a record, and `RemoveScenario` removes a record and shows that its
  identifier is neither found again nor handed out again.
- `pairing.dfy` (module `Pairing`): the pairing suggestion handler as the pure
  function `Suggest`.

The external calls become parameters. `Add` receives the `meals` list of the
catalog's search reply, and `Suggest` receives the `meals` and `drinks` lists of the
two random replies (`None` when a list is null). The wall-clock timestamp of a new
favorite is the parameter `now`. The path id is an `int`.

Behaviour of the handlers worth knowing:

- There is no duplicate check on the catalog identifier. Adding the same meal twice
  stores two records under two identifiers (`DuplicateScenario` shows this).
- There is no multi-format encoder. The `format` query parameter is never read, and
  every response is the record or list itself.
- `Rename` rejects an empty name before it looks the identifier up.
- `Add` consumes the counter (line 38) before it computes the preview (line 42). A
  meal whose instructions are null therefore makes `substring` throw after the
  counter has moved. The handler answers 500 and the identifier is skipped.
  Identifiers can have gaps but are never reused.

## Model

| member | source | states |
|---|---|---|
| Catalog.Truthy | servidor.js:23 | a value is truthy exactly when it is neither null/missing nor the empty string, as the tests `!mealName`, `!newName` and `.filter(i => i)` read a string (also servidor.js:70 and 131) |
| Catalog.FirstEntry | servidor.js:30 | nothing exactly when the reply's list is null or empty, otherwise its first entry; it is also the `meals[0]` and `drinks[0]` reads of servidor.js:114 and 118 |
| Catalog.Preview | servidor.js:42 | the preview is a prefix of the text of at most n characters (all of it when shorter), followed by "...", so at most n + 3 long |
| Catalog.PreviewIsDetermined | servidor.js:42 | any string that is a prefix of at most n characters (all of the text when shorter) followed by "..." is exactly the preview |
| Catalog.KeepTruthy | servidor.js:131 | the filtered list is no longer than its input, and each entry is non-empty and occurs in the input |
| Catalog.KeepTruthyMembers | servidor.js:131 | a string is in the filtered list exactly when it occurs in the input as a present, non-empty value |
| Catalog.KeepTruthyAppend | servidor.js:131 | filtering keeps order: the filter of a concatenation is the concatenation of the filters |
| Catalog.KeepTruthyAll | servidor.js:131 | nothing is dropped exactly when every input value is truthy |
| Favorites.FindIndex | servidor.js:74-78 | the result is -1 exactly when no record has the id, otherwise the first index whose record has it |
| Favorites.WithoutId | servidor.js:93 | the filtered list is no longer than the old one and no survivor has the id; WithoutIdMembers, WithoutIdLength and WithoutIdAt below say exactly which records survive and in what order |
| Favorites.WithoutIdMembers | servidor.js:93 | after the filter, a record is present exactly when it was present and its id differs |
| Favorites.WithoutIdLength | servidor.js:90-97 | the filter never lengthens the list; the length is unchanged exactly when no record has the id, and then the list is unchanged |
| Favorites.WithoutIdIncreasing | servidor.js:93 | filtering keeps identifiers strictly increasing along the list |
| Favorites.WithoutIdAtHead | servidor.js:93 | with increasing identifiers, removing the first record's id removes that record alone |
| Favorites.WithoutIdAt | servidor.js:93 | with increasing identifiers, removing the id of the record at k removes that record alone and keeps the others in order |
| Favorites.Repository.constructor | servidor.js:13-14 | the repository starts with an empty list and the counter at 1, and satisfies the invariant |
| Favorites.Repository.Add | servidor.js:20-55 | a falsy name gives 400 and a lookup without a match gives 404, both with no change. Null instructions give 500 with the counter moved and nothing stored. Otherwise 201 with a record whose id is the old counter (never issued before), whose catalog fields are copied verbatim and whose instructions are the 100-character preview (at most 103 characters). That record is appended at the end of the unchanged old list, and the counter grows by exactly one |
| Favorites.Repository.List | servidor.js:59-62 | 200 with the stored list exactly, in insertion order |
| Favorites.Repository.Rename | servidor.js:66-84 | a falsy new name gives 400 and an unknown id gives 404, both with the list unchanged. Otherwise only the name of the matching record changes, every other record and the counter stay as they were, and the updated record is returned with 200 |
| Favorites.Repository.Remove | servidor.js:88-101 | the new list is the old one with the id filtered out, and the counter is untouched. An unknown id gives 404 with the list unchanged. Otherwise 204, with exactly the matching record removed and the survivors in their old order |
| Pairing.Ingredients | servidor.js:131 | the drink's ingredient list has at most two entries, none of them empty |
| Pairing.IngredientsByCases | servidor.js:131 | the ingredient list is the first ingredient if truthy followed by the second if truthy |
| Pairing.PairingMessage | servidor.js:133 | the message is the opening words, the meal's name, the middle words, the drink's name and the closing quote, each at its place |
| Pairing.Compose | servidor.js:121-134 | the suggestion copies the meal's name, category and area and the drink's name and alcoholic classification. Its instructions are the 150-character preview (at most 153 characters), its ingredients are the truthy values among the first two ingredient fields (at most two), and its message is the pairing message of the two names |
| Pairing.Suggest | servidor.js:110-142 | 200 exactly when both replies have a first entry and the meal has instructions; otherwise 500 with the generic message and no suggestion. On 200 the meal and drink fields are copied, the instructions are the 150-character preview, and the ingredients and message are as above |

## Left out

- Express routing, request parsing, `app.listen` and logging (servidor.js:1-8, 52, 139, 146-148): transport plumbing; responses are a status code plus payload.
- The network calls to the recipe and drinks catalogs (servidor.js:29, 113, 117): I/O; their replies are parameters, and a failing call (500 with no change) is not modelled.
- `new Date().toISOString()` (servidor.js:43): wall clock; the timestamp is the opaque parameter `now`.
- `parseInt` of the path id: the id is an `int`; a non-numeric id (NaN) matches no record, as an absent `int` does.
- Non-string request values (numbers, objects) for `mealName` and `newName`: only "missing/null", empty and non-empty strings are modelled.
- Null catalog fields other than the instructions (name, category, id, drink name): they are copied verbatim, or printed as "null" in the message, and the model takes them as strings.
- `nextId` as a JavaScript number: the counter is an unbounded integer, so the loss of precision past 2^53 is not modelled.
- `substring` counts UTF-16 code units; the model counts Unicode characters, which differ only for characters outside the Basic Multilingual Plane.
- Aliasing of stored records: JSON responses are serialized copies, so records are modelled as values and renaming replaces the record at its index.
- receitas_client.py: an HTTP client that decodes a binary reply with a generated module that is not part of this model; it is network I/O with no logic of its own.
