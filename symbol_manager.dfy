/** The symbol catalog: the per-reload list cache, the published tabs, and
    the two long-lived lists that configuration refills. */
module Catalog {
  import opened Wrappers
  import opened Identifiers
  import opened SymbolLists
  import opened SymbolTabs
  import opened TabDefinitions

  /** `after` is `before` extended by the lists the references `refs` name:
      old entries stay, exactly the referenced identifiers are added, and each
      added list holds its file's text split the way its first reference
      asks. */
  ghost predicate LoadedBy(
    before: map<Identifier, SymbolList>, after: map<Identifier, SymbolList>,
    files: SymbolFiles, refs: seq<ListRef>)
    reads after.Values
  {
    && (forall k :: k in before ==> k in after && after[k] == before[k])
    && after.Keys == before.Keys + RefIds(refs)
    && (forall k :: k in after && k !in before ==>
          && k in files && files[k].Success?
          && FirstSplit(refs, k).Some?
          && after[k].symbols == Split(FirstSplit(refs, k).value, files[k].value))
  }

  lemma LoadedByNothing(cache: map<Identifier, SymbolList>, files: SymbolFiles)
    ensures LoadedBy(cache, cache, files, [])
  {
  }

  /** Loading references one batch after another loads their concatenation. */
  lemma LoadedByTrans(
    a: map<Identifier, SymbolList>, b: map<Identifier, SymbolList>, c: map<Identifier, SymbolList>,
    files: SymbolFiles, r1: seq<ListRef>, r2: seq<ListRef>)
    requires LoadedBy(a, b, files, r1) && LoadedBy(b, c, files, r2)
    ensures LoadedBy(a, c, files, r1 + r2)
  {
    RefIdsAppend(r1, r2);
    forall k | k in c && k !in a
      ensures FirstSplit(r1 + r2, k).Some?
      ensures c[k].symbols == Split(FirstSplit(r1 + r2, k).value, files[k].value)
    {
      FirstSplitAppend(r1, r2, k);
      FirstSplitSpec(r1, k);
    }
  }

  /** Lists resolved earlier keep resolving to the same objects as the
      cache grows. */
  lemma AppendResolved(
    lists: seq<SymbolList>, refs: seq<ListRef>, more: seq<SymbolList>, moreRefs: seq<ListRef>,
    c1: map<Identifier, SymbolList>, c2: map<Identifier, SymbolList>)
    requires |lists| == |refs| && |more| == |moreRefs|
    requires forall m :: 0 <= m < |refs| ==> refs[m].id in c1 && lists[m] == c1[refs[m].id]
    requires forall m :: 0 <= m < |moreRefs| ==> moreRefs[m].id in c2 && more[m] == c2[moreRefs[m].id]
    requires forall k :: k in c1 ==> k in c2 && c2[k] == c1[k]
    ensures forall m :: 0 <= m < |refs + moreRefs| ==>
      (refs + moreRefs)[m].id in c2 && (lists + more)[m] == c2[(refs + moreRefs)[m].id]
  {
    forall m | 0 <= m < |refs + moreRefs|
      ensures (refs + moreRefs)[m].id in c2 && (lists + more)[m] == c2[(refs + moreRefs)[m].id]
    {
      if m < |refs| {
        assert (refs + moreRefs)[m] == refs[m] && (lists + more)[m] == lists[m];
      } else {
        assert (refs + moreRefs)[m] == moreRefs[m - |refs|] && (lists + more)[m] == more[m - |refs|];
      }
    }
  }

  /** A single successful `ReadSymbolList` loads its one reference. */
  lemma ReadOneLoaded(
    before: map<Identifier, SymbolList>, after: map<Identifier, SymbolList>,
    files: SymbolFiles, ref: ListRef, list: SymbolList)
    requires (ref.id in before && after == before) ||
             (ref.id !in before && Loadable(files, {}, ref.id) && list.id == ref.id
              && list.symbols == Split(ref.split, files[ref.id].value) && after == before[ref.id := list])
    ensures LoadedBy(before, after, files, [ref])
  {
    RefIdsSingle(ref);
  }

  lemma BuiltFromGrows(t: SymbolTab, res: TabResource, c1: map<Identifier, SymbolList>, c2: map<Identifier, SymbolList>)
    requires BuiltFrom(t, res, c1)
    requires forall k :: k in c1 ==> k in c2 && c2[k] == c1[k]
    ensures BuiltFrom(t, res, c2)
  {
  }

  /** Each of `tabs` is the tab the resource at its position defines,
      loaded with only the seeded lists cached in advance. */
  ghost predicate TabsBuilt(files: SymbolFiles, defs: seq<TabResource>, tabs: seq<SymbolTab>, cache: map<Identifier, SymbolList>) {
    && |tabs| <= |defs|
    && forall j :: 0 <= j < |tabs| ==> TabLoads(files, Seeded, defs[j]) && BuiltFrom(tabs[j], defs[j], cache)
  }

  /** Tabs stay built as the cache grows. */
  lemma TabsBuiltGrows(
    files: SymbolFiles, defs: seq<TabResource>, tabs: seq<SymbolTab>,
    c1: map<Identifier, SymbolList>, c2: map<Identifier, SymbolList>)
    requires TabsBuilt(files, defs, tabs, c1)
    requires forall k :: k in c1 ==> k in c2 && c2[k] == c1[k]
    ensures TabsBuilt(files, defs, tabs, c2)
  {
    forall j | 0 <= j < |tabs| ensures BuiltFrom(tabs[j], defs[j], c2) {
      BuiltFromGrows(tabs[j], defs[j], c1, c2);
    }
  }

  /** Appending the tab the next resource defines. */
  lemma TabsBuiltStep(
    files: SymbolFiles, defs: seq<TabResource>, tabs: seq<SymbolTab>, t: SymbolTab,
    c1: map<Identifier, SymbolList>, c2: map<Identifier, SymbolList>)
    requires TabsBuilt(files, defs, tabs, c1) && |tabs| < |defs|
    requires TabLoads(files, Seeded, defs[|tabs|]) && BuiltFrom(t, defs[|tabs|], c2)
    requires forall k :: k in c1 ==> k in c2 && c2[k] == c1[k]
    ensures TabsBuilt(files, defs, tabs + [t], c2)
  {
    TabsBuiltGrows(files, defs, tabs, c1, c2);
    var ts := tabs + [t];
    forall j | 0 <= j < |ts| ensures TabLoads(files, Seeded, defs[j]) && BuiltFrom(ts[j], defs[j], c2) {
      if j < |tabs| {
        assert ts[j] == tabs[j];
      }
    }
  }

  /** A cache loaded from the seeded one holds the seeded identifiers, and
      every other list in it came from a readable file. */
  lemma LoadedFromSeed(seed: map<Identifier, SymbolList>, cache: map<Identifier, SymbolList>, files: SymbolFiles, refs: seq<ListRef>)
    requires seed.Keys == Seeded
    requires LoadedBy(seed, cache, files, refs)
    ensures Seeded <= cache.Keys
    ensures forall k :: k in cache && k !in Seeded ==> k in files && files[k].Success?
  {
  }

  /** Reordering tabs keeps every list they hold. */
  lemma PermutedLists(ts: seq<SymbolTab>, us: seq<SymbolTab>, i: nat)
    requires multiset(ts) == multiset(us) && i < |ts|
    ensures exists j :: 0 <= j < |us| && us[j] == ts[i]
  {
    assert ts[i] in multiset(us);
  }

  /** Each cached list sits under its own identifier, and the fixed
      identifiers under the long-lived lists. */
  ghost predicate CacheKeyed(cache: map<Identifier, SymbolList>, favorites: SymbolList, custom: SymbolList) {
    && (forall k :: k in cache ==> cache[k].id == k)
    && (FavoritesId in cache ==> cache[FavoritesId] == favorites)
    && (CustomKaomojisId in cache ==> cache[CustomKaomojisId] == custom)
  }

  /** Every list the tabs hold is the cached list for its identifier. */
  ghost predicate ListsCached(tabs: seq<SymbolTab>, cache: map<Identifier, SymbolList>) {
    forall i, m :: 0 <= i < |tabs| && 0 <= m < |tabs[i].lists| ==>
      tabs[i].lists[m].id in cache && cache[tabs[i].lists[m].id] == tabs[i].lists[m]
  }

  /** The files read in this reload are distinct, file-backed, and account
      for every cached list but the two seeded ones. */
  ghost predicate ReadOnce(filesRead: seq<Identifier>, cache: map<Identifier, SymbolList>) {
    && (forall i :: 0 <= i < |filesRead| ==> filesRead[i] in cache && filesRead[i] !in Seeded)
    && (forall i, j :: 0 <= i < j < |filesRead| ==> filesRead[i] != filesRead[j])
    && (forall k :: k in cache ==> k in Seeded || k in filesRead)
  }

  /** Appending a tab built against a grown cache keeps every tab's lists
      cached. */
  lemma ListsCachedAppend(
    tabs: seq<SymbolTab>, t: SymbolTab, res: TabResource,
    c1: map<Identifier, SymbolList>, c2: map<Identifier, SymbolList>)
    requires ListsCached(tabs, c1)
    requires forall k :: k in c1 ==> k in c2 && c2[k] == c1[k]
    requires forall k :: k in c2 ==> c2[k].id == k
    requires BuiltFrom(t, res, c2)
    ensures ListsCached(tabs + [t], c2)
  {
    var ts := tabs + [t];
    forall i, m | 0 <= i < |ts| && 0 <= m < |ts[i].lists|
      ensures ts[i].lists[m].id in c2 && c2[ts[i].lists[m].id] == ts[i].lists[m]
    {
      if i < |tabs| {
        assert ts[i] == tabs[i];
      } else {
        var k := TabRefs(res)[m].id;
        assert t.lists[m] == c2[k];
      }
    }
  }

  /** Reordering the tabs keeps their lists cached. */
  lemma ListsCachedPermuted(ts: seq<SymbolTab>, us: seq<SymbolTab>, cache: map<Identifier, SymbolList>)
    requires ListsCached(ts, cache) && multiset(ts) == multiset(us)
    ensures ListsCached(us, cache)
  {
    forall i, m | 0 <= i < |us| && 0 <= m < |us[i].lists|
      ensures us[i].lists[m].id in cache && cache[us[i].lists[m].id] == us[i].lists[m]
    {
      PermutedLists(us, ts, i);
      var j :| 0 <= j < |ts| && ts[j] == us[i];
      assert ts[j].lists[m] == us[i].lists[m];
    }
  }

  class SymbolManager {
    /** The published tabs. */
    var tabs: seq<SymbolTab>
    /** Identifier to list; rebuilt by every reload. */
    var listCache: map<Identifier, SymbolList>
    const favoritesList: SymbolList
    const customKaomojisList: SymbolList
    /** The symbol files read and split since the current reload began. */
    ghost var filesRead: seq<Identifier>

    /** Every cached list is keyed by its own identifier; the fixed
        identifiers can only map to the long-lived lists; every list a tab
        holds is the cached list for its identifier; and no symbol file has
        been read twice in the current reload. */
    ghost predicate Valid()
      reads this
    {
      && favoritesList.id == FavoritesId
      && customKaomojisList.id == CustomKaomojisId
      && CacheKeyed(listCache, favoritesList, customKaomojisList)
      && ListsCached(tabs, listCache)
      && ReadOnce(filesRead, listCache)
    }

    /** The cache holds both long-lived lists. */
    ghost predicate CacheSeeded()
      reads this
    {
      FavoritesId in listCache && CustomKaomojisId in listCache
    }

    /** The cache as every reload starts it. */
    function SeedCache(): map<Identifier, SymbolList> {
      map[FavoritesId := favoritesList, CustomKaomojisId := customKaomojisList]
    }

    constructor ()
      ensures Valid()
      ensures tabs == [] && listCache == map[]
      ensures favoritesList.symbols == [] && customKaomojisList.symbols == []
      ensures fresh(favoritesList) && fresh(customKaomojisList)
    {
      tabs := [];
      listCache := map[];
      favoritesList := new SymbolList(FavoritesId, []);
      customKaomojisList := new SymbolList(CustomKaomojisId, []);
      filesRead := [];
    }

    /** Caches a list under its own identifier. */
    method AddList(list: SymbolList)
      modifies this`listCache
      ensures listCache == old(listCache)[list.id := list]
    {
      listCache := listCache[list.id := list];
    }

    /** The list for `id`: the cached object when there is one, reading no
        file; otherwise the file split with `split`, cached under `id`. */
    method ReadSymbolList(files: SymbolFiles, id: Identifier, split: SplitType) returns (r: Result<SymbolList, Error>)
      requires Valid() && CacheSeeded()
      modifies this`listCache, this`filesRead
      ensures Valid() && CacheSeeded()
      ensures forall k :: k in listCache && k !in old(listCache) ==> fresh(listCache[k])
      ensures id in old(listCache) ==>
        r == Success(old(listCache)[id]) && listCache == old(listCache) && filesRead == old(filesRead)
      ensures id !in old(listCache) && Loadable(files, {}, id) ==>
        && r.Success? && fresh(r.value)
        && r.value.id == id && r.value.symbols == Split(split, files[id].value)
        && listCache == old(listCache)[id := r.value]
        && filesRead == old(filesRead) + [id]
      ensures id !in old(listCache) && !Loadable(files, {}, id) ==>
        r == Failure(SymbolFileUnreadable(id)) && listCache == old(listCache) && filesRead == old(filesRead)
    {
      if id in listCache {
        return Success(listCache[id]);
      }
      if id in files && files[id].Success? {
        var list := new SymbolList(id, Split(split, files[id].value));
        AddList(list);
        filesRead := filesRead + [id];
        return Success(list);
      }
      return Failure(SymbolFileUnreadable(id));
    }

    /** The list one entry of a `symbols` array references: a string entry
        is read by code point, an object entry with its `split` (by code point
        when absent or unknown), and any other element yields nothing. */
    method ReadEntry(files: SymbolFiles, entry: JsonEntry) returns (r: Result<seq<SymbolList>, Error>)
      requires Valid() && CacheSeeded()
      modifies this`listCache, this`filesRead
      ensures Valid() && CacheSeeded()
      ensures forall k :: k in old(listCache) ==> k in listCache && listCache[k] == old(listCache)[k]
      ensures forall k :: k in listCache && k !in old(listCache) ==> fresh(listCache[k])
      ensures r.Success? <==> ListsLoad(files, old(listCache).Keys, [entry])
      ensures r.Success? ==>
        && var refs := EntryRef(entry).value;
        && |r.value| == |refs|
        && (forall m :: 0 <= m < |refs| ==> refs[m].id in listCache && r.value[m] == listCache[refs[m].id])
        && LoadedBy(old(listCache), listCache, files, refs)
    {
      EntryRefsSingle(entry);
      var ref: ListRef;
      if entry.Primitive? {
        ref := ListRef(entry.id, CodePoint);
      } else if !entry.Object? {
        LoadedByNothing(listCache, files);
        return Success([]);
      } else {
        var split := SplitTypeOrDefault(entry.split, CodePoint);
        if entry.symbols.None? {
          return Failure(MissingField("symbols"));
        }
        ref := ListRef(entry.symbols.value, split);
      }
      assert EntryRef(entry).value == [ref];
      ghost var before := listCache;
      var list := ReadSymbolList(files, ref.id, ref.split);
      if list.Failure? {
        assert EntryRefs([entry]).value[0] == ref;
        return Failure(list.error);
      }
      ReadOneLoaded(before, listCache, files, ref, list.value);
      return Success([list.value]);
    }

    /** The lists a `symbols` array references, in entry order, skipping
        entries that are neither strings nor objects. */
    method ReadSymbolLists(files: SymbolFiles, entries: seq<JsonEntry>) returns (r: Result<seq<SymbolList>, Error>)
      requires Valid() && CacheSeeded()
      modifies this`listCache, this`filesRead
      ensures Valid() && CacheSeeded()
      ensures forall k :: k in old(listCache) ==> k in listCache && listCache[k] == old(listCache)[k]
      ensures forall k :: k in listCache && k !in old(listCache) ==> fresh(listCache[k])
      ensures r.Success? <==> ListsLoad(files, old(listCache).Keys, entries)
      ensures r.Success? ==> |r.value| <= |entries|
      ensures r.Success? ==>
        && var refs := EntryRefs(entries).value;
        && |r.value| == |refs|
        && (forall m :: 0 <= m < |refs| ==> refs[m].id in listCache && r.value[m] == listCache[refs[m].id])
        && LoadedBy(old(listCache), listCache, files, refs)
    {
      var symbols: seq<SymbolList> := [];
      ghost var done: seq<ListRef> := [];
      var i := 0;
      LoadedByNothing(listCache, files);
      while i < |entries|
        invariant 0 <= i <= |entries|
        invariant Valid() && CacheSeeded()
        invariant ListsLoad(files, old(listCache).Keys, entries[..i])
        invariant EntryRefs(entries[..i]) == Success(done)
        invariant |symbols| == |done|
        invariant forall m :: 0 <= m < |done| ==> done[m].id in listCache && symbols[m] == listCache[done[m].id]
        invariant LoadedBy(old(listCache), listCache, files, done)
        invariant forall k :: k in listCache && k !in old(listCache) ==> fresh(listCache[k])
      {
        ghost var before := listCache;
        var entry := entries[i];
        ListsLoadStep(files, old(listCache).Keys, entries, i);
        ListsLoadCacheIndependent(files, old(listCache).Keys, before.Keys, [entry]);
        var lists := ReadEntry(files, entry);
        if lists.Failure? {
          return Failure(lists.error);
        }
        EntryRefsSingle(entry);
        LoadedByTrans(old(listCache), before, listCache, files, done, EntryRef(entry).value);
        AppendResolved(symbols, done, lists.value, EntryRef(entry).value, before, listCache);
        symbols := symbols + lists.value;
        done := done + EntryRef(entry).value;
        i := i + 1;
      }
      assert entries[..i] == entries;
      EntryRefsSpec(entries);
      return Success(symbols);
    }

    /** The tab a definition describes: `icon` and `order` are required,
        `type` defaults to SYMBOLS, `search_bar` to false and `symbols` to an
        empty array. */
    method ReadTab(files: SymbolFiles, res: TabResource) returns (r: Result<SymbolTab, Error>)
      requires Valid() && CacheSeeded()
      modifies this`listCache, this`filesRead
      ensures Valid() && CacheSeeded()
      ensures forall k :: k in old(listCache) ==> k in listCache && listCache[k] == old(listCache)[k]
      ensures forall k :: k in listCache && k !in old(listCache) ==> fresh(listCache[k])
      ensures r.Success? <==> TabLoads(files, old(listCache).Keys, res)
      ensures r.Success? ==>
        BuiltFrom(r.value, res, listCache) && LoadedBy(old(listCache), listCache, files, TabRefs(res))
    {
      if res.content.Failure? {
        return Failure(res.content.error);
      }
      var def := res.content.value;
      if def.icon.None? {
        return Failure(MissingField("icon"));
      }
      if def.order.None? {
        return Failure(MissingField("order"));
      }
      var tabType := TabTypeOrDefault(def.typeName, Symbols);
      var searchBar := def.searchBar.GetOr(false);
      var symbolFiles := def.symbols.GetOr([]);
      var symbols := ReadSymbolLists(files, symbolFiles);
      if symbols.Failure? {
        return Failure(symbols.error);
      }
      r := Success(SymbolTab(res.id, def.icon.value, def.order.value, tabType, searchBar, symbols.value));
    }

    /** Each tab read so far is the one its resource defines, read with only
        the seeded lists cached in advance. */
    ghost predicate TabsRead(files: SymbolFiles, defs: seq<TabResource>)
      reads this
    {
      Valid() && CacheSeeded() && TabsBuilt(files, defs, tabs, listCache)
    }

    /** The first `i` resources have been read into `tabs`, referencing
        `done`, on top of the seeded cache. */
    ghost predicate ReadSoFar(files: SymbolFiles, defs: seq<TabResource>, i: nat, done: seq<ListRef>)
      reads this, listCache.Values
    {
      && TabsRead(files, defs)
      && |tabs| == i
      && AllRefs(defs[..i]) == done
      && LoadedBy(SeedCache(), listCache, files, done)
    }

    /** Reads the next tab resource and appends its tab. */
    method ReadNextTab(files: SymbolFiles, defs: seq<TabResource>, ghost done: seq<ListRef>)
      returns (outcome: Outcome<Error>, ghost done': seq<ListRef>)
      requires |tabs| < |defs| && ReadSoFar(files, defs, |tabs|, done)
      modifies this`tabs, this`listCache, this`filesRead
      ensures forall k :: k in old(listCache) ==> k in listCache && listCache[k] == old(listCache)[k]
      ensures forall k :: k in listCache && k !in old(listCache) ==> fresh(listCache[k])
      ensures outcome.Pass? ==> ReadSoFar(files, defs, old(|tabs|) + 1, done')
      ensures outcome.Fail? ==>
        TabsRead(files, defs) && tabs == old(tabs) && !TabLoads(files, Seeded, defs[|tabs|])
    {
      var i := |tabs|;
      ghost var before := listCache;
      LoadedFromSeed(SeedCache(), listCache, files, done);
      if WellFormed(defs[i]) {
        ListsLoadCacheIndependent(files, Seeded, listCache.Keys, SymbolEntries(defs[i].content.value));
      }
      var tab := ReadTab(files, defs[i]);
      if tab.Failure? {
        TabsBuiltGrows(files, defs, tabs, before, listCache);
        return Fail(tab.error), done;
      }
      LoadedByTrans(SeedCache(), before, listCache, files, done, TabRefs(defs[i]));
      TabsBuiltStep(files, defs, tabs, tab.value, before, listCache);
      ListsCachedAppend(tabs, tab.value, defs[i], before, listCache);
      AllRefsStep(defs, i);
      tabs := tabs + [tab.value];
      return Pass, done + TabRefs(defs[i]);
    }

    /** Reads the tab resources in order, appending each tab as it is read,
        and stops at the first resource that fails to load. */
    method ReadTabs(files: SymbolFiles, defs: seq<TabResource>) returns (outcome: Outcome<Error>)
      requires Valid() && CacheSeeded()
      requires listCache == SeedCache() && tabs == []
      modifies this`tabs, this`listCache, this`filesRead
      ensures TabsRead(files, defs)
      ensures outcome.Pass? <==> |tabs| == |defs|
      ensures outcome.Pass? ==> LoadedBy(SeedCache(), listCache, files, AllRefs(defs))
      ensures outcome.Fail? ==> |tabs| < |defs| && !TabLoads(files, Seeded, defs[|tabs|])
      ensures forall k :: k in listCache && k !in Seeded ==> fresh(listCache[k])
    {
      LoadedByNothing(listCache, files);
      ghost var done: seq<ListRef> := [];
      var i := 0;
      while i < |defs|
        invariant ReadSoFar(files, defs, i, done)
        invariant forall k :: k in listCache && k !in Seeded ==> fresh(listCache[k])
      {
        outcome, done := ReadNextTab(files, defs, done);
        if outcome.Fail? {
          return;
        }
        i := i + 1;
      }
      assert defs[..i] == defs;
      outcome := Pass;
    }

    /** Rebuilds the catalog: the cache is emptied and seeded with the two
        long-lived lists, every tab definition is read in turn, and the tabs
        are published sorted by order. The first definition that does not
        load aborts the reload, leaving the tabs read before it, unsorted. */
    method Reload(files: SymbolFiles, defs: seq<TabResource>) returns (outcome: Outcome<Error>, ghost built: seq<SymbolTab>)
      requires Valid()
      modifies this
      ensures Valid() && CacheSeeded()
      ensures listCache[FavoritesId] == favoritesList && listCache[CustomKaomojisId] == customKaomojisList
      ensures favoritesList.symbols == old(favoritesList.symbols)
      ensures customKaomojisList.symbols == old(customKaomojisList.symbols)
      ensures outcome.Pass? <==> ReloadSucceeds(files, defs)
      ensures forall k :: k in listCache && k !in Seeded ==> fresh(listCache[k])
      ensures outcome.Pass? ==>
        && |built| == |defs|
        && (forall j :: 0 <= j < |defs| ==> BuiltFrom(built[j], defs[j], listCache))
        && tabs == SortByOrder(built)
        && SortedByOrder(tabs)
        && multiset(tabs) == multiset(built)
        && LoadedBy(SeedCache(), listCache, files, AllRefs(defs))
      ensures outcome.Fail? ==>
        && |tabs| < |defs|
        && (forall j :: 0 <= j < |tabs| ==> TabLoads(files, Seeded, defs[j]) && BuiltFrom(tabs[j], defs[j], listCache))
        && !TabLoads(files, Seeded, defs[|tabs|])
    {
      listCache := map[];
      AddList(favoritesList);
      AddList(customKaomojisList);
      filesRead := [];
      assert listCache == SeedCache();
      tabs := [];
      built := [];
      outcome := ReadTabs(files, defs);
      if outcome.Pass? {
        built := tabs;
        tabs := SortByOrder(tabs);
        SortByOrderSortedPermutation(built);
        ListsCachedPermuted(built, tabs, listCache);
      }
    }

    /** Clears and refills the two long-lived lists in place: one favorite per
        code point of the configured string, the custom kaomojis as
        configured. Nothing else changes, and tabs holding these lists see
        the new contents. */
    method OnConfigReload(favoriteSymbols: string, customKaomojis: seq<string>)
      requires Valid()
      modifies favoritesList, customKaomojisList
      ensures unchanged(this) && Valid()
      ensures favoritesList.symbols == CodePoints(favoriteSymbols)
      ensures customKaomojisList.symbols == customKaomojis
      ensures forall s :: IsFavorite(s) <==> |s| == 1 && s[0] in favoriteSymbols
      ensures forall k :: k in listCache && k !in Seeded ==> listCache[k].symbols == old(listCache[k].symbols)
      ensures forall i, m :: 0 <= i < |tabs| && 0 <= m < |tabs[i].lists| && tabs[i].lists[m].id == FavoritesId ==>
        tabs[i].lists[m].symbols == CodePoints(favoriteSymbols)
      ensures forall i, m :: 0 <= i < |tabs| && 0 <= m < |tabs[i].lists| && tabs[i].lists[m].id == CustomKaomojisId ==>
        tabs[i].lists[m].symbols == customKaomojis
    {
      favoritesList.Clear();
      favoritesList.AddCodePoints(favoriteSymbols);
      customKaomojisList.Clear();
      customKaomojisList.AddAll(customKaomojis);
      forall s ensures IsFavorite(s) <==> |s| == 1 && s[0] in favoriteSymbols {
        CodePointMembership(favoriteSymbols, s);
      }
      forall k | k in listCache && k !in Seeded
        ensures listCache[k] != favoritesList && listCache[k] != customKaomojisList
      {
        FileBackedIsNotLongLived(k);
      }
      forall i, m | 0 <= i < |tabs| && 0 <= m < |tabs[i].lists| && tabs[i].lists[m].id in Seeded
        ensures tabs[i].lists[m].id == FavoritesId ==> tabs[i].lists[m] == favoritesList
        ensures tabs[i].lists[m].id == CustomKaomojisId ==> tabs[i].lists[m] == customKaomojisList
      {
        LongLivedShared(i, m);
      }
    }

    /** A cached list under any identifier but the two fixed ones is neither
        long-lived list. */
    lemma FileBackedIsNotLongLived(k: Identifier)
      requires Valid() && k in listCache && k !in Seeded
      ensures listCache[k] != favoritesList && listCache[k] != customKaomojisList
    {
    }

    /** A tab list under either fixed identifier is that long-lived object. */
    lemma LongLivedShared(i: nat, m: nat)
      requires Valid() && i < |tabs| && m < |tabs[i].lists|
      ensures tabs[i].lists[m].id == FavoritesId ==> tabs[i].lists[m] == favoritesList
      ensures tabs[i].lists[m].id == CustomKaomojisId ==> tabs[i].lists[m] == customKaomojisList
    {
      assert listCache[tabs[i].lists[m].id] == tabs[i].lists[m];
    }

    /** Whether `symbol` is one of the current favorites. */
    predicate IsFavorite(symbol: string)
      reads favoritesList
    {
      favoritesList.Contains(symbol)
    }

    /** The published tabs, in order; each is found by its identifier
        unless an earlier tab has the same one, and a tab found by identifier
        is one of them. */
    function GetTabs(): (r: seq<SymbolTab>)
      reads this
      ensures forall i :: 0 <= i < |r| ==> GetTab(r[i].id).Some? && GetTab(r[i].id).value.id == r[i].id
      ensures forall i :: 0 <= i < |r| && (forall j :: 0 <= j < i ==> r[j].id != r[i].id) ==> GetTab(r[i].id) == Some(r[i])
      ensures forall id :: GetTab(id).Some? ==> GetTab(id).value in r
    {
      tabs
    }

    /** The first published tab with identifier `id`, if any. */
    function GetTab(id: Identifier): (r: Option<SymbolTab>)
      reads this
      ensures r.None? <==> forall i :: 0 <= i < |tabs| ==> tabs[i].id != id
      ensures r.Some? ==> exists i :: 0 <= i < |tabs| && tabs[i] == r.value && r.value.id == id
                                     && forall j :: 0 <= j < i ==> tabs[j].id != id
    {
      match FirstWithId(tabs, id)
      case None => None
      case Some(i) => Some(tabs[i])
    }

    /** The current favorites, in order. */
    function GetFavoriteSymbols(): (r: seq<string>)
      reads favoritesList
      ensures forall s :: s in r <==> IsFavorite(s)
    {
      favoritesList.symbols
    }

    /** Whether the tab shows the favorites list object and nothing else. */
    predicate IsOnlyFavorites(tab: SymbolTab) {
      |tab.lists| == 1 && tab.lists[0] == favoritesList
    }

    /** For a published tab, showing only favorites is referencing only the
        favorites identifier; a file-backed list never qualifies, whatever
        symbols it holds. */
    lemma OnlyFavoritesByIdentifier(i: nat)
      requires Valid() && i < |tabs|
      ensures IsOnlyFavorites(tabs[i]) <==> |tabs[i].lists| == 1 && tabs[i].lists[0].id == FavoritesId
    {
      if |tabs[i].lists| == 1 && tabs[i].lists[0].id == FavoritesId {
        assert listCache[tabs[i].lists[0].id] == tabs[i].lists[0];
      }
    }

    /** Once the cache holds what the references of all definitions load,
        every list a tab shows is one of the two long-lived lists or the text
        of its symbol file, split the way the first reference to it asks. */
    lemma PublishedListContents(files: SymbolFiles, defs: seq<TabResource>, i: nat, m: nat)
      requires Valid() && LoadedBy(SeedCache(), listCache, files, AllRefs(defs))
      requires i < |tabs| && m < |tabs[i].lists|
      ensures var l := tabs[i].lists[m];
        || l == favoritesList
        || l == customKaomojisList
        || (&& l.id in files && files[l.id].Success?
            && FirstSplit(AllRefs(defs), l.id).Some?
            && l.symbols == Split(FirstSplit(AllRefs(defs), l.id).value, files[l.id].value))
    {
      var l := tabs[i].lists[m];
      assert listCache[l.id] == l;
      if l.id !in Seeded {
        assert l.id !in SeedCache();
      }
    }

    /** Two lists that published tabs hold under the same identifier are one
        object. */
    lemma SharedByIdentifier(i: nat, m: nat, j: nat, n: nat)
      requires Valid() && i < |tabs| && j < |tabs| && m < |tabs[i].lists| && n < |tabs[j].lists|
      requires tabs[i].lists[m].id == tabs[j].lists[n].id
      ensures tabs[i].lists[m] == tabs[j].lists[n]
    {
    }
  }

  /** One tab resource (`order` 1, `icon` "a", symbols ["ns:emoji"]) and one
      symbol file `ns:emoji` holding "AB": the reload publishes one tab, it
      can be looked up by its identifier, and its single list holds "A" and
      "B". */
  method OneTabScenario() returns (tabCount: nat, found: bool, symbols: seq<string>)
    ensures tabCount == 1 && found && symbols == ["A", "B"]
  {
    var manager := new SymbolManager();
    var emoji := Identifier("ns", "emoji");
    var tabId := Identifier("ns", "tab");
    var files: SymbolFiles := map[emoji := Success("AB")];
    var def := TabDefinition(Some("a"), Some(1), None, None, Some([Primitive(emoji)]));
    var defs := [TabResource(tabId, Success(def))];
    EntryRefsSingle(Primitive(emoji));
    assert TabLoads(files, Seeded, defs[0]);
    var outcome, built := manager.Reload(files, defs);
    assert AllRefs(defs) == [ListRef(emoji, CodePoint)];
    assert manager.tabs == built;
    tabCount := |manager.GetTabs()|;
    var tab := manager.GetTab(tabId);
    found := tab.Some?;
    symbols := [];
    if tab.Some? && |tab.value.lists| == 1 {
      assert emoji !in manager.SeedCache();
      assert CodePoints("AB") == ["A", "B"];
      symbols := tab.value.lists[0].symbols;
    }
  }

  /** A reload that fails keeps no list from the reload before it: the
      second reload aborts on a definition without `order`, and the list the
      first one read for the same file is no longer cached. */
  method FailedReloadScenario() returns (firstPassed: bool, secondFailed: bool, kept: bool)
    ensures firstPassed && secondFailed && !kept
  {
    var manager := new SymbolManager();
    var emoji := Identifier("ns", "emoji");
    var tabId := Identifier("ns", "tab");
    var files: SymbolFiles := map[emoji := Success("AB")];
    var def := TabDefinition(Some("a"), Some(1), None, None, Some([Primitive(emoji)]));
    var defs := [TabResource(tabId, Success(def))];
    EntryRefsSingle(Primitive(emoji));
    assert TabLoads(files, Seeded, defs[0]);
    var outcome, _ := manager.Reload(files, defs);
    firstPassed := outcome.Pass?;
    assert AllRefs(defs) == [ListRef(emoji, CodePoint)];
    RefIdsSingle(ListRef(emoji, CodePoint));
    var first := manager.listCache[emoji];
    var unordered := TabDefinition(Some("a"), None, None, None, Some([Primitive(emoji)]));
    var outcome2, _ := manager.Reload(files, [TabResource(tabId, Success(unordered))]);
    secondFailed := outcome2.Fail?;
    kept := emoji in manager.listCache && manager.listCache[emoji] == first;
  }
}
