/** Already-parsed tab-definition resources, the list references their
    `symbols` arrays make, and the conditions under which a reload succeeds. */
module TabDefinitions {
  import opened Wrappers
  import opened Identifiers
  import opened SymbolLists
  import opened SymbolTabs

  /** Why a reload aborts. */
  datatype Error =
    | Unreadable(resource: Identifier)      // a tab resource could not be read or deserialized
    | MissingField(name: string)            // a required JSON field is absent
    | SymbolFileUnreadable(file: Identifier)

  /** An element of a tab's `symbols` array: a bare identifier string, an
      object with `symbols` (identifier) and optional `split`, or any other
      JSON element. */
  datatype JsonEntry =
    | Primitive(id: Identifier)
    | Object(symbols: Option<Identifier>, split: Option<string>)
    | Other

  /** The fields of a tab-definition object; `None` is an absent field. */
  datatype TabDefinition = TabDefinition(
    icon: Option<string>,
    order: Option<int>,
    typeName: Option<string>,
    searchBar: Option<bool>,
    symbols: Option<seq<JsonEntry>>)

  /** A tab-definition resource: its identifier and its parsed content, or
      the failure reading or deserializing it raised. */
  datatype TabResource = TabResource(id: Identifier, content: Result<TabDefinition, Error>)

  /** The symbol files: text, or the failure opening or reading it. A missing
      key is a file that does not exist. */
  type SymbolFiles = map<Identifier, Result<string, Error>>

  /** A reference to a symbol file with the split type it asks for. */
  datatype ListRef = ListRef(id: Identifier, split: SplitType)

  /** The references one array entry makes: at most one. */
  function EntryRef(e: JsonEntry): Result<seq<ListRef>, Error> {
    match e
    case Primitive(id) => Success([ListRef(id, CodePoint)])
    case Object(symbols, split) =>
      if symbols.None? then Failure(MissingField("symbols"))
      else Success([ListRef(symbols.value, SplitTypeOrDefault(split, CodePoint))])
    case Other => Success([])
  }

  /** The references of a whole `symbols` array, in entry order; the first
      object entry without `symbols` is an error. */
  function EntryRefs(entries: seq<JsonEntry>): Result<seq<ListRef>, Error> {
    if entries == [] then Success([])
    else match (EntryRef(entries[0]), EntryRefs(entries[1..]))
      case (Failure(e), _) => Failure(e)
      case (Success(_), Failure(e)) => Failure(e)
      case (Success(head), Success(tail)) => Success(head + tail)
  }

  /** An array's references are found iff no object entry lacks `symbols`;
      there are at most as many as entries, and each is the one reference
      some entry makes. */
  lemma {:induction false} EntryRefsSpec(entries: seq<JsonEntry>)
    ensures EntryRefs(entries).Success? <==>
      forall i :: 0 <= i < |entries| ==> !(entries[i].Object? && entries[i].symbols.None?)
    ensures EntryRefs(entries).Success? ==> |EntryRefs(entries).value| <= |entries|
    ensures EntryRefs(entries).Success? ==>
      forall i :: 0 <= i < |EntryRefs(entries).value| ==>
        exists j :: 0 <= j < |entries| && EntryRef(entries[j]) == Success([EntryRefs(entries).value[i]])
  {
    if entries != [] {
      var rest := entries[1..];
      EntryRefsSpec(rest);
      forall i | 0 <= i < |rest| ensures rest[i] == entries[i + 1] { }
      if EntryRefs(entries).Success? {
        var head, tail := EntryRef(entries[0]).value, EntryRefs(rest).value;
        var r := EntryRefs(entries).value;
        assert r == head + tail;
        forall i | 0 <= i < |r|
          ensures exists j :: 0 <= j < |entries| && EntryRef(entries[j]) == Success([r[i]])
        {
          if i < |head| {
            assert EntryRef(entries[0]) == Success([r[i]]);
          } else {
            var j :| 0 <= j < |rest| && EntryRef(rest[j]) == Success([tail[i - |head|]]);
            assert EntryRef(entries[j + 1]) == Success([r[i]]);
          }
        }
      }
    }
  }

  lemma EntryRefsSingle(e: JsonEntry)
    ensures EntryRefs([e]) == EntryRef(e)
  {
    assert [e][1..] == [];
    if EntryRef(e).Success? {
      assert EntryRef(e).value + [] == EntryRef(e).value;
    }
  }

  /** Entries are handled one after another: the references of two arrays
      placed end to end are the first's followed by the second's, and the
      first error wins. */
  lemma {:induction false} EntryRefsAppend(a: seq<JsonEntry>, b: seq<JsonEntry>)
    ensures EntryRefs(a + b) ==
      match EntryRefs(a)
      case Failure(e) => Failure(e)
      case Success(x) =>
        match EntryRefs(b)
        case Failure(e) => Failure(e)
        case Success(y) => Success(x + y)
  {
    if a == [] {
      assert a + b == b;
      if EntryRefs(b).Success? {
        assert [] + EntryRefs(b).value == EntryRefs(b).value;
      }
    } else {
      assert (a + b)[0] == a[0];
      assert (a + b)[1..] == a[1..] + b;
      EntryRefsAppend(a[1..], b);
      if EntryRef(a[0]).Success? && EntryRefs(a[1..]).Success? && EntryRefs(b).Success? {
        var h, x, y := EntryRef(a[0]).value, EntryRefs(a[1..]).value, EntryRefs(b).value;
        assert h + (x + y) == (h + x) + y;
      }
    }
  }

  /** The identifiers a sequence of references names. */
  function RefIds(refs: seq<ListRef>): set<Identifier> {
    set i | 0 <= i < |refs| :: refs[i].id
  }

  /** The split type of the first reference to `id`: the one its list is
      built with, whatever later references ask for. */
  function FirstSplit(refs: seq<ListRef>, id: Identifier): Option<SplitType> {
    if refs == [] then None
    else if refs[0].id == id then Some(refs[0].split)
    else FirstSplit(refs[1..], id)
  }

  /** `FirstSplit` finds a split type iff some reference names `id`, and then
      it is the split type of the first such reference. */
  lemma {:induction false} FirstSplitSpec(refs: seq<ListRef>, id: Identifier)
    ensures FirstSplit(refs, id).None? <==> id !in RefIds(refs)
    ensures FirstSplit(refs, id).Some? ==>
      exists i :: 0 <= i < |refs| && refs[i] == ListRef(id, FirstSplit(refs, id).value)
               && forall j :: 0 <= j < i ==> refs[j].id != id
  {
    if refs != [] && refs[0].id != id {
      var rest := refs[1..];
      FirstSplitSpec(rest, id);
      assert RefIds(refs) == {refs[0].id} + RefIds(rest) by {
        assert refs == [refs[0]] + rest;
        RefIdsAppend([refs[0]], rest);
        RefIdsSingle(refs[0]);
      }
      if FirstSplit(rest, id).Some? {
        var i :| 0 <= i < |rest| && rest[i] == ListRef(id, FirstSplit(rest, id).value)
                 && forall j :: 0 <= j < i ==> rest[j].id != id;
        assert refs[i + 1] == rest[i];
        forall j | 0 <= j < i + 1 ensures refs[j].id != id {
          if j > 0 { assert refs[j] == rest[j - 1]; }
        }
      }
    } else if refs != [] {
      assert refs[0].id in RefIds(refs);
    }
  }

  lemma RefIdsAppend(a: seq<ListRef>, b: seq<ListRef>)
    ensures RefIds(a + b) == RefIds(a) + RefIds(b)
  {
    var ab := a + b;
    forall k | k in RefIds(ab) ensures k in RefIds(a) + RefIds(b) {
      var i :| 0 <= i < |ab| && ab[i].id == k;
      if i >= |a| { assert b[i - |a|] == ab[i]; }
    }
    forall k | k in RefIds(b) ensures k in RefIds(ab) {
      var i :| 0 <= i < |b| && b[i].id == k;
      assert ab[i + |a|] == b[i];
    }
    forall k | k in RefIds(a) ensures k in RefIds(ab) {
      var i :| 0 <= i < |a| && a[i].id == k;
      assert ab[i] == a[i];
    }
  }

  lemma RefIdsSingle(ref: ListRef)
    ensures RefIds([ref]) == {ref.id}
  {
    assert [ref][0] == ref;
  }

  /** The first reference to an identifier in `a + b` is in `a` when `a`
      names it at all. */
  lemma {:induction false} FirstSplitAppend(a: seq<ListRef>, b: seq<ListRef>, id: Identifier)
    ensures FirstSplit(a + b, id) == if FirstSplit(a, id).Some? then FirstSplit(a, id) else FirstSplit(b, id)
  {
    if a == [] {
      assert a + b == b;
    } else {
      assert (a + b)[0] == a[0];
      assert (a + b)[1..] == a[1..] + b;
      FirstSplitAppend(a[1..], b, id);
    }
  }

  /** The entries of the `symbols` array, empty when the field is absent. */
  function SymbolEntries(def: TabDefinition): seq<JsonEntry> {
    def.symbols.GetOr([])
  }

  /** The resource was read, has `icon` and `order`, and every object entry
      of its `symbols` array names a symbol file. */
  predicate WellFormed(res: TabResource) {
    && res.content.Success?
    && res.content.value.icon.Some?
    && res.content.value.order.Some?
    && EntryRefs(SymbolEntries(res.content.value)).Success?
  }

  /** The references a tab definition makes, in declaration order. */
  function TabRefs(res: TabResource): seq<ListRef> {
    if WellFormed(res) then EntryRefs(SymbolEntries(res.content.value)).value else []
  }

  /** A list is available when it is cached already or its file can be read. */
  predicate Loadable(files: SymbolFiles, cached: set<Identifier>, id: Identifier) {
    id in cached || (id in files && files[id].Success?)
  }

  /** Every list a `symbols` array references is available. */
  predicate ListsLoad(files: SymbolFiles, cached: set<Identifier>, entries: seq<JsonEntry>) {
    && EntryRefs(entries).Success?
    && forall i :: 0 <= i < |EntryRefs(entries).value| ==> Loadable(files, cached, EntryRefs(entries).value[i].id)
  }

  /** A `symbols` array loads iff each of two parts placed end to end does. */
  lemma ListsLoadAppend(files: SymbolFiles, cached: set<Identifier>, a: seq<JsonEntry>, b: seq<JsonEntry>)
    ensures ListsLoad(files, cached, a + b) <==> ListsLoad(files, cached, a) && ListsLoad(files, cached, b)
  {
    EntryRefsAppend(a, b);
    if EntryRefs(a).Success? && EntryRefs(b).Success? {
      var x, y := EntryRefs(a).value, EntryRefs(b).value;
      if ListsLoad(files, cached, a + b) {
        forall m | 0 <= m < |x| ensures Loadable(files, cached, x[m].id) {
          assert (x + y)[m] == x[m];
        }
        forall m | 0 <= m < |y| ensures Loadable(files, cached, y[m].id) {
          assert (x + y)[|x| + m] == y[m];
        }
      }
      if ListsLoad(files, cached, a) && ListsLoad(files, cached, b) {
        forall m | 0 <= m < |x + y| ensures Loadable(files, cached, (x + y)[m].id) {
          if m < |x| {
            assert (x + y)[m] == x[m];
          } else {
            assert (x + y)[m] == y[m - |x|];
          }
        }
      }
    }
  }

  /** One more entry of a `symbols` array: what the prefix then references
      and whether it loads. */
  lemma ListsLoadStep(files: SymbolFiles, cached: set<Identifier>, entries: seq<JsonEntry>, i: nat)
    requires i < |entries|
    ensures ListsLoad(files, cached, entries[..i + 1]) <==>
      ListsLoad(files, cached, entries[..i]) && ListsLoad(files, cached, [entries[i]])
    ensures ListsLoad(files, cached, entries) ==> ListsLoad(files, cached, entries[..i + 1])
    ensures EntryRefs(entries[..i]).Success? && EntryRef(entries[i]).Success? ==>
      EntryRefs(entries[..i + 1]) == Success(EntryRefs(entries[..i]).value + EntryRef(entries[i]).value)
  {
    assert entries[..i + 1] == entries[..i] + [entries[i]];
    ListsLoadAppend(files, cached, entries[..i], [entries[i]]);
    EntryRefsAppend(entries[..i], [entries[i]]);
    EntryRefsSingle(entries[i]);
    assert entries == entries[..i + 1] + entries[i + 1..];
    ListsLoadAppend(files, cached, entries[..i + 1], entries[i + 1..]);
  }

  /** A tab definition yields a tab. */
  predicate TabLoads(files: SymbolFiles, cached: set<Identifier>, res: TabResource) {
    && WellFormed(res)
    && ListsLoad(files, cached, SymbolEntries(res.content.value))
  }

  /** A reload succeeds when every tab definition yields a tab with only the
      seeded lists cached in advance. */
  predicate ReloadSucceeds(files: SymbolFiles, defs: seq<TabResource>) {
    forall i :: 0 <= i < |defs| ==> TabLoads(files, Seeded, defs[i])
  }

  /** The references of all definitions, in the order they are processed. */
  function AllRefs(defs: seq<TabResource>): seq<ListRef> {
    if defs == [] then [] else AllRefs(defs[..|defs| - 1]) + TabRefs(defs[|defs| - 1])
  }

  lemma AllRefsStep(defs: seq<TabResource>, i: nat)
    requires i < |defs|
    ensures AllRefs(defs[..i + 1]) == AllRefs(defs[..i]) + TabRefs(defs[i])
  {
    assert defs[..i + 1][..i] == defs[..i];
  }

  /** `t` is the tab `res` defines, its lists being the cache's lists for the
      referenced identifiers; absent optional fields take their defaults. */
  ghost predicate BuiltFrom(t: SymbolTab, res: TabResource, cache: map<Identifier, SymbolList>) {
    && WellFormed(res)
    && var def := res.content.value;
    && t.id == res.id
    && t.icon == def.icon.value
    && t.order == def.order.value
    && t.tabType == TabTypeOrDefault(def.typeName, Symbols)
    && t.searchBar == def.searchBar.GetOr(false)
    && |t.lists| == |TabRefs(res)|
    && forall m :: 0 <= m < |t.lists| ==>
         TabRefs(res)[m].id in cache && t.lists[m] == cache[TabRefs(res)[m].id]
  }

  /** Whether a `symbols` array loads does not depend on lists cached in
      addition to `fewer`, as long as those came from readable files. */
  lemma ListsLoadCacheIndependent(files: SymbolFiles, fewer: set<Identifier>, more: set<Identifier>, entries: seq<JsonEntry>)
    requires fewer <= more
    requires forall k :: k in more && k !in fewer ==> k in files && files[k].Success?
    ensures ListsLoad(files, fewer, entries) <==> ListsLoad(files, more, entries)
  {
  }
}
