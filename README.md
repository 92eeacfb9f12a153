# Symbol catalog of symbol-chat, in Dafny

This project models the symbol catalog that `SymbolManager` keeps for the
symbol-chat mod, and proves properties of that model. The catalog has three
parts:

- the published tabs, each with its display metadata and the symbol lists it
  shows;
- a cache from identifier to symbol list, rebuilt by every resource reload;
- two long-lived lists, the favorites and the custom kaomojis, which the
  configuration refills in place.

A reload empties the cache and seeds it with the two long-lived lists. It then
reads every tab definition in turn. Each symbol file a definition references
is resolved through the cache: a cached list is reused as the same object, and
an uncached file is read once, split into symbols and cached. The tabs are
then published sorted by `order`. A configuration update clears and refills
the two long-lived lists. Every tab holding one of them sees the new contents.

Modules, one per file:

- `Wrappers` (`wrappers.dfy`): `Option`, `Result` and `Outcome`.
- `Identifiers` (`identifiers.dfy`): namespaced identifiers and the two fixed
  list identifiers.
- `SymbolLists` (`symbol_lists.dfy`): split types, code-point and line
  splitting, and the `SymbolList` class. A list is a class because identity
  matters: tabs share lists by reference.
- `SymbolTabs` (`symbol_tabs.dfy`): tab types, the `SymbolTab` datatype, the
  stable sort by `order`, and lookup by identifier.
- `TabDefinitions` (`tab_definitions.dfy`): already-parsed tab-definition
  resources, the JSON entries of a `symbols` array, the references those
  entries make, and when a reload succeeds.
- `Catalog` (`symbol_manager.dfy`): the `SymbolManager` class and its reload
  pass, the configuration update, the queries, and two concrete
  scenarios.

The inputs are values:

- a symbol file is an entry of a map from identifier to text or failure;
- a tab-definition resource is a parsed record whose optional fields are
  `Option`s;
- the configuration is two arguments of `OnConfigReload`.

A ghost log `filesRead` records every symbol file split since the reload
began. "Each file is read at most once per reload" is the invariant that this
log has no duplicates (`ReadOnce`, part of `Valid`).

The accessors only read state. `GetTabs` is stated against `GetTab`.
`GetFavoriteSymbols` and `IsFavorite` read the favorites list, whose contents
`OnConfigReload` states, and `OnlyFavoritesByIdentifier` states
`IsOnlyFavorites`.

A failed reload does not keep the previous tabs. Line 51 replaces `tabs`
before any definition is read, so after an exception `tabs` holds the tabs
read so far, in resource order and unsorted (`Reload`). Line 48 has already
cleared the cache, so no list from an earlier reload survives a failed one
either (`Reload`, `FailedReloadScenario`).

"🔥❤️A" is four code points, because the heart emoji is U+2764 followed by
U+FE0F (`FireHeartCodePoints`).

## Model

| member | source | states |
|---|---|---|
| `SymbolLists.SplitTypeOrDefault` | src/main/java/net/replaceitem/symbolchat/SymbolManager.java:104 | a declared split-type name selects that type; an absent or unknown name yields the fallback |
| `SymbolLists.CodePoints` | src/main/java/net/replaceitem/symbolchat/SymbolManager.java:130 | one symbol per code point of the text, in order: the i-th symbol is exactly the i-th code point |
| `SymbolLists.CodePointsRoundTrip` | src/main/java/net/replaceitem/symbolchat/SymbolManager.java:130 | concatenating the code-point symbols gives back the text |
| `SymbolLists.CodePointMembership` | src/main/java/net/replaceitem/symbolchat/SymbolManager.java:130 | a string is among the code-point symbols of a text iff it is one code point long and that code point occurs in the text |
| `SymbolLists.FireHeartCodePoints` | src/main/java/net/replaceitem/symbolchat/SymbolManager.java:130 | "🔥❤️A" splits into four code points, the heart emoji being two |
| `SymbolLists.LineLengthSpec` | src/main/java/net/replaceitem/symbolchat/SymbolManager.java:115 | the first line's length: no line feed before it, and a line feed at it unless the text ends |
| `SymbolLists.LinesNoLineFeed` | src/main/java/net/replaceitem/symbolchat/SymbolManager.java:115 | no line produced by line splitting contains a line feed |
| `SymbolLists.LinesRoundTrip` | src/main/java/net/replaceitem/symbolchat/SymbolManager.java:115 | terminating each line with a line feed restores the text, up to a missing final line feed |
| `SymbolLists.SymbolList.constructor` | src/main/java/net/replaceitem/symbolchat/SymbolManager.java:115 | a new list has the given identifier and symbols |
| `SymbolLists.SymbolList.Clear` | src/main/java/net/replaceitem/symbolchat/SymbolManager.java:129 | the list is left empty |
| `SymbolLists.SymbolList.AddSymbol` | src/main/java/net/replaceitem/symbolchat/SymbolManager.java:130 | exactly the given symbol is appended |
| `SymbolLists.SymbolList.AddCodePoints` | src/main/java/net/replaceitem/symbolchat/SymbolManager.java:130 | the code points of the text are appended, in order, as single-code-point symbols |
| `SymbolLists.SymbolList.AddAll` | src/main/java/net/replaceitem/symbolchat/SymbolManager.java:132 | the given strings are appended, in order |
| `SymbolTabs.TabTypeOrDefault` | src/main/java/net/replaceitem/symbolchat/SymbolManager.java:88 | a declared tab-type name selects that type; an absent or unknown name yields the fallback |
| `SymbolTabs.SortByOrderSortedPermutation` | src/main/java/net/replaceitem/symbolchat/SymbolManager.java:63 | the sorted tabs are non-decreasing in `order` and are a permutation of the input |
| `SymbolTabs.SortByOrderStable` | src/main/java/net/replaceitem/symbolchat/SymbolManager.java:63 | the sort is stable: for every order value, the tabs with that order keep their relative order |
| `SymbolTabs.FirstWithId` | src/main/java/net/replaceitem/symbolchat/SymbolManager.java:76 | none iff no tab has the identifier; otherwise the index of a tab with it and no earlier one |
| `TabDefinitions.EntryRefsSpec` | src/main/java/net/replaceitem/symbolchat/SymbolManager.java:96-109 | an array's references are found iff no object entry lacks `symbols`; there are at most as many as entries, and each is the single reference some entry makes |
| `TabDefinitions.EntryRefsAppend` | src/main/java/net/replaceitem/symbolchat/SymbolManager.java:98-107 | entries are handled left to right: two arrays end to end reference the first's lists then the second's, and the first error wins |
| `TabDefinitions.FirstSplitSpec` | src/main/java/net/replaceitem/symbolchat/SymbolManager.java:113 | a split type is found iff some reference names the file, and it is that of the first such reference |
| `TabDefinitions.FirstSplitAppend` | src/main/java/net/replaceitem/symbolchat/SymbolManager.java:113 | a file referenced earlier keeps the split type of its earlier reference whatever later references ask |
| `TabDefinitions.ListsLoadAppend` | src/main/java/net/replaceitem/symbolchat/SymbolManager.java:98-107 | a `symbols` array loads iff each of two parts placed end to end loads |
| `Catalog.LoadedByTrans` | src/main/java/net/replaceitem/symbolchat/SymbolManager.java:112-117 | resolving one batch of references after another loads the cache exactly as resolving their concatenation |
| `Catalog.SymbolManager.constructor` | src/main/java/net/replaceitem/symbolchat/SymbolManager.java:36-39 | no tabs, an empty cache, and two fresh empty lists with the favorites and custom-kaomojis identifiers |
| `Catalog.SymbolManager.AddList` | src/main/java/net/replaceitem/symbolchat/SymbolManager.java:124-126 | the list is cached under its own identifier and no other entry changes |
| `Catalog.SymbolManager.ReadSymbolList` | src/main/java/net/replaceitem/symbolchat/SymbolManager.java:112-122 | a cached identifier returns the cached object and reads nothing; otherwise a readable file yields a fresh list of its text split as asked, cached under the identifier and logged as read; an unreadable file is an error that changes nothing |
| `Catalog.SymbolManager.ReadEntry` | src/main/java/net/replaceitem/symbolchat/SymbolManager.java:99-106 | a string entry is read by code point, an object entry with its `split` (code point by default), any other element contributes nothing; failure iff the entry's list is unavailable or an object lacks `symbols` |
| `Catalog.SymbolManager.ReadSymbolLists` | src/main/java/net/replaceitem/symbolchat/SymbolManager.java:96-109 | success iff every referenced list is available; the result is the cached list of each reference in entry order, no longer than the array, and the cache grows by exactly the referenced files |
| `Catalog.SymbolManager.ReadTab` | src/main/java/net/replaceitem/symbolchat/SymbolManager.java:84-93 | `icon` and `order` are required; `type` defaults to SYMBOLS, `search_bar` to false, `symbols` to empty; success iff the definition loads, and the tab is the one it defines |
| `Catalog.SymbolManager.ReadNextTab` | src/main/java/net/replaceitem/symbolchat/SymbolManager.java:53-61 | the next definition's tab is appended when it loads; otherwise the tabs are unchanged and that definition does not load |
| `Catalog.SymbolManager.ReadTabs` | src/main/java/net/replaceitem/symbolchat/SymbolManager.java:52-62 | every tab read is the one its resource defines; all are read iff no definition fails, and then the cache holds exactly what all their references load |
| `Catalog.SymbolManager.Reload` | src/main/java/net/replaceitem/symbolchat/SymbolManager.java:47-65 | success iff every definition loads with only the seeded lists cached; then the published tabs are the stable sort by `order` of one tab per definition, sorted and a permutation, with the cache seeded plus exactly the referenced files, each read once; on both paths every cached file-backed list is a new object, so none survives from an earlier reload; on failure the tabs read so far stay, in resource order; the long-lived lists keep their contents |
| `Catalog.SymbolManager.OnConfigReload` | src/main/java/net/replaceitem/symbolchat/SymbolManager.java:128-133 | favorites become the configured string's code points and custom kaomojis the configured strings, in order; `IsFavorite(s)` iff `s` is one configured code point; tabs, cache and file-backed lists are unchanged; tabs holding the favorites show the new code points, and tabs holding the custom kaomojis show the new kaomojis |
| `Catalog.SymbolManager.LongLivedShared` | src/main/java/net/replaceitem/symbolchat/SymbolManager.java:49-50 | a list a tab holds under the favorites or custom-kaomojis identifier is that long-lived object itself, so a refill shows in that tab |
| `Catalog.SymbolManager.FileBackedIsNotLongLived` | src/main/java/net/replaceitem/symbolchat/SymbolManager.java:113-117 | a cached list under any other identifier is neither long-lived list, so a refill leaves it alone |
| `Catalog.SymbolManager.GetTabs` | src/main/java/net/replaceitem/symbolchat/SymbolManager.java:71-73 | every published tab is found by its identifier, and is the tab found unless an earlier tab has that identifier; every tab found by identifier is published |
| `Catalog.SymbolManager.GetFavoriteSymbols` | src/main/java/net/replaceitem/symbolchat/SymbolManager.java:79-81 | the favorites list's current contents, in order, which `IsFavorite` tests membership in; `OnConfigReload` fixes them as the configured code points |
| `Catalog.SymbolManager.IsFavorite` | src/main/java/net/replaceitem/symbolchat/SymbolManager.java:67-69 | membership in the current favorites list; what that means after a configuration update is stated by `OnConfigReload` |
| `Catalog.SymbolManager.IsOnlyFavorites` | src/main/java/net/replaceitem/symbolchat/SymbolManager.java:135-137 | the tab holds exactly one list, and that list is the favorites object itself; `OnlyFavoritesByIdentifier` restates this by identifier |
| `Catalog.SymbolManager.GetTab` | src/main/java/net/replaceitem/symbolchat/SymbolManager.java:75-77 | none iff no published tab has the identifier; otherwise the first published tab with it |
| `Catalog.SymbolManager.OnlyFavoritesByIdentifier` | src/main/java/net/replaceitem/symbolchat/SymbolManager.java:135-137 | for a published tab, holding only the favorites object is the same as holding one list with the favorites identifier, whatever a file-backed list contains |
| `Catalog.SymbolManager.SharedByIdentifier` | src/main/java/net/replaceitem/symbolchat/SymbolManager.java:113 | two lists published tabs hold under one identifier are the same object |
| `Catalog.SymbolManager.PublishedListContents` | src/main/java/net/replaceitem/symbolchat/SymbolManager.java:112-117 | after a full reload every list a tab shows is a long-lived list or its file's text split as the first reference to it asks |
| `Catalog.OneTabScenario` | src/main/java/net/replaceitem/symbolchat/SymbolManager.java:47-77 | one definition (`order` 1, `icon` "a", symbols ["ns:emoji"]) and a file "AB" publish one tab, found by its identifier, whose list is ["A", "B"] |
| `Catalog.FailedReloadScenario` | src/main/java/net/replaceitem/symbolchat/SymbolManager.java:47-65 | after a reload that reads file "ns:emoji", a reload whose only definition lacks `order` fails, and the list read before is no longer cached |

## Left out

- JSON decoding (Gson and `JsonHelper`) is left out. A definition arrives parsed, and each field is present or absent. A field of the wrong JSON type is not modelled, for example an object-valued `icon`, or `"type": null`, which the model reads as an absent `type` and so as SYMBOLS.
- `new Identifier(String)` at lines 100 and 105 is left out. Entries carry identifiers already, and the exception for an invalid identifier string is not modelled. A primitive entry that is not a string (a number, a boolean) is taken as an identifier like the rest.
- The resource manager, `ResourceFinder` path rewriting and `BufferedReader` I/O are replaced by maps of values. The order of `findResources` (line 52) is unspecified, so the definitions are an arbitrary sequence.
- Logging (lines 59 and 119) is left out. The wrapping of failures into `RuntimeException` becomes an `Error` value.
- Catalog.SymbolManager.ReadSymbolLists: states when a failure happens, not which `Error` it reports. `ReadEntry`, `ReadTab` and `Reload` are stated the same way.
- `getFabricId`, the listener registration and the constants at lines 31-34 are host plumbing and are left out.
- `Collections.unmodifiableList` (line 64) needs no model: tabs are a `seq` value.
- `SymbolList.java`, `SymbolTab.java` and `SymbolChat.java` are not part of this model.
  - Split type LINE and tab type KAOMOJI, with their names, are assumed alongside CODEPOINT and SYMBOLS.
  - Line splitting treats only `\n` as a terminator, not `\r` or `\r\n`.
  - A file's CODEPOINT split keeps every code point, line feeds and whitespace included. Any skipping of empty or whitespace-only pieces that `SplitType.split` does is not modelled.
  - The namespace value `symbol_chat` stands in for `SymbolChat.NAMESPACE`. Only the two list paths matter.
  - `SymbolTab.compareTo` is taken to compare by `order`, ascending. `List.sort` is stable, and any two stable sorts by one key agree, so it is modelled as a stable insertion sort.
- A tab's `order` is an unbounded `int`. The Java `int` range of `JsonHelper.getInt` is not modelled.
- Text is a sequence of Unicode scalar values, Dafny's `char`. Unpaired UTF-16 surrogates, which Java's `codePoints()` would yield one by one, are not modelled.
- Reload runs single-threaded. Concurrency between readers and a reload is out of scope.
- `ScrollableGridWidget.java` is user-interface rendering and is left out.
