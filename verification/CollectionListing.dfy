/** The configuration file manager's collections: looking one up, and listing them page by page. */
module CollectionListing {
  import opened Wrappers
  import opened Text
  import opened Sorting
  import opened Dictionaries
  import opened Scopes
  import opened Authorization
  import Pagination

  datatype Geometry = Geometry(wkt: string)

  datatype Collection = Collection(resource: Resource, type_: string, extent: Option<Geometry>) {
    function Id(): string { resource.identifier }
  }

  datatype Filter = Filter(identifiers: Option<seq<string>>, type_: Option<string>, area: Option<Geometry>)

  /** A configured collection as it is written down: owner, type, extent and provider kinds are still text. */
  datatype RawEntry = RawEntry(identifier: string, ownerId: string, isPublic: bool, type_: string,
                               extent: Option<string>, providerKinds: seq<string>)

  datatype Error =
    | UnknownOwner(ownerId: string)
    | UnknownType(type_: string)
    | UnreadableExtent(extent: string)
    | UnknownProviderKind(kind: string)

  const COLLECTION_TYPES := {"coverage", "feature", "record"}
  const PROVIDER_KINDS := {"coverage", "edr", "feature", "map", "record", "stac", "tile"}

  /** What entries refer to: the accounts, and how extents are read. */
  datatype Context = Context(users: map<string, User>, readExtent: string -> Option<Geometry>)

  function IdOf(c: Collection): string { c.Id() }

  // ---------------------------------------------------------------- the dictionary of collections

  /** The configured collections; a later entry replaces an earlier one with its identifier. */
  function Parsed(entries: seq<Collection>): seq<Collection> {
    if entries == [] then [] else Put(Parsed(entries[..|entries| - 1]), entries[|entries| - 1], IdOf)
  }

  function FirstUnknown(kinds: seq<string>): Option<string> {
    if kinds == [] then None else if kinds[0] !in PROVIDER_KINDS then Some(kinds[0]) else FirstUnknown(kinds[1..])
  }

  /** The first thing wrong with an entry, in the order in which its parts are looked at. */
  function Problem(c: Context, entry: RawEntry): Option<Error> {
    if entry.ownerId !in c.users then Some(UnknownOwner(entry.ownerId))
    else if entry.type_ !in COLLECTION_TYPES then Some(UnknownType(entry.type_))
    else if entry.extent.Some? && c.readExtent(entry.extent.value).None? then Some(UnreadableExtent(entry.extent.value))
    else
      var unknown := FirstUnknown(entry.providerKinds);
      if unknown.Some? then Some(UnknownProviderKind(unknown.value)) else None
  }

  /** What an entry is refused for: everything looked at before is in order. */
  predicate IsFirstProblem(c: Context, entry: RawEntry, error: Error) {
    match error
    case UnknownOwner(id) => id == entry.ownerId && id !in c.users
    case UnknownType(t) => t == entry.type_ && t !in COLLECTION_TYPES && entry.ownerId in c.users
    case UnreadableExtent(e) =>
      && entry.extent == Some(e) && c.readExtent(e).None?
      && entry.ownerId in c.users && entry.type_ in COLLECTION_TYPES
    case UnknownProviderKind(kind) =>
      && entry.ownerId in c.users && entry.type_ in COLLECTION_TYPES
      && (entry.extent.Some? ==> c.readExtent(entry.extent.value).Some?)
      && exists i: nat :: i < |entry.providerKinds| && entry.providerKinds[i] == kind && kind !in PROVIDER_KINDS
                          && forall earlier <- entry.providerKinds[..i] :: earlier in PROVIDER_KINDS
  }

  predicate IsFine(c: Context, entry: RawEntry) { Problem(c, entry).None? }

  function FromEntry(c: Context, entry: RawEntry): Collection
    requires IsFine(c, entry)
  {
    Collection(Resource(entry.identifier, c.users[entry.ownerId], entry.isPublic), entry.type_,
               if entry.extent.Some? then c.readExtent(entry.extent.value) else None)
  }

  function Converted(c: Context, raw: seq<RawEntry>): seq<Collection>
    requires forall entry <- raw :: IsFine(c, entry)
  {
    seq(|raw|, i requires 0 <= i < |raw| => assert raw[i] in raw; FromEntry(c, raw[i]))
  }

  /** The entry at which parsing stops, with what is wrong with it. */
  predicate StopsAt(c: Context, raw: seq<RawEntry>, i: nat, error: Error) {
    i < |raw| && Problem(c, raw[i]) == Some(error) && forall entry <- raw[..i] :: IsFine(c, entry)
  }

  method ParseEntry(c: Context, entry: RawEntry) returns (r: Result<Collection, Error>)
    ensures r.Success? <==>
      && entry.ownerId in c.users && entry.type_ in {"coverage", "feature", "record"}
      && (entry.extent.Some? ==> c.readExtent(entry.extent.value).Some?)
      && forall kind <- entry.providerKinds ::
           kind in {"coverage", "edr", "feature", "map", "record", "stac", "tile"}
    ensures r.Success? ==>
      && r.value.resource == Resource(entry.identifier, c.users[entry.ownerId], entry.isPublic)
      && r.value.type_ == entry.type_
      && r.value.extent == if entry.extent.None? then None else c.readExtent(entry.extent.value)
    ensures r.Failure? ==> IsFirstProblem(c, entry, r.error)
    ensures r == if IsFine(c, entry) then Success(FromEntry(c, entry)) else Failure(Problem(c, entry).value)
  {
    if entry.ownerId !in c.users {
      return Failure(UnknownOwner(entry.ownerId));
    }
    var owner := c.users[entry.ownerId];
    if entry.type_ !in COLLECTION_TYPES {
      return Failure(UnknownType(entry.type_));
    }
    var extent := None;
    if entry.extent.Some? {
      extent := c.readExtent(entry.extent.value);
      if extent.None? {
        return Failure(UnreadableExtent(entry.extent.value));
      }
    }
    for i := 0 to |entry.providerKinds|
      invariant forall kind <- entry.providerKinds[..i] :: kind in PROVIDER_KINDS
      invariant FirstUnknown(entry.providerKinds) == FirstUnknown(entry.providerKinds[i..])
    {
      if entry.providerKinds[i] !in PROVIDER_KINDS {
        assert entry.providerKinds[i] in entry.providerKinds;
        return Failure(UnknownProviderKind(entry.providerKinds[i]));
      }
    }
    assert entry.providerKinds[..|entry.providerKinds|] == entry.providerKinds;
    r := Success(Collection(Resource(entry.identifier, owner, entry.isPublic), entry.type_, extent));
  }

  /** Parsing stops at the first entry that something is wrong with. */
  method ParseCollections(c: Context, raw: seq<RawEntry>) returns (r: Result<seq<Collection>, Error>)
    ensures r.Success? <==> forall entry <- raw :: IsFine(c, entry)
    ensures r.Success? ==> r.value == Parsed(Converted(c, raw))
    ensures r.Failure? ==> exists i :: StopsAt(c, raw, i, r.error)
  {
    var dict := [];
    for i := 0 to |raw|
      invariant forall entry <- raw[..i] :: IsFine(c, entry)
      invariant dict == Parsed(Converted(c, raw[..i]))
    {
      var collection := ParseEntry(c, raw[i]);
      if collection.Failure? {
        assert raw[i] in raw && StopsAt(c, raw, i, collection.error);
        return Failure(collection.error);
      }
      dict := Put(dict, collection.value, IdOf);
      assert raw[..i + 1] == raw[..i] + [raw[i]];
      var converted := Converted(c, raw[..i + 1]);
      assert converted[..|converted| - 1] == Converted(c, raw[..i]);
    }
    assert raw[..|raw|] == raw;
    r := Success(dict);
  }

  function Lookup(dict: seq<Collection>, identifier: string): Option<Collection> {
    if dict == [] then None
    else if dict[0].Id() == identifier then Some(dict[0])
    else Lookup(dict[1..], identifier)
  }

  function GetVisible(dict: seq<Collection>, identifier: string, principal: Option<Principal>): Option<Collection> {
    var found := Lookup(dict, identifier);
    if found.Some? && MayView(Collections, principal, found.value.resource) then found else None
  }

  // ---------------------------------------------------------------- pages

  /** A bound of a Python slice, counted from the end if it is negative. */
  function Bound(i: int, n: nat): (b: nat)
    ensures b <= n
  {
    if i < 0 then Pagination.Max(0, n + i) else Pagination.Min(i, n)
  }

  function Slice<T>(items: seq<T>, start: int, stop: int): seq<T> {
    var lo, hi := Bound(start, |items|), Bound(stop, |items|);
    if lo < hi then items[lo..hi] else []
  }

  function Paginate<T>(items: seq<T>, page: int, pageSize: int): seq<T> {
    var offset := pageSize * (page - 1);
    Slice(items, offset, offset + pageSize)
  }

  /** The first pages, one after the other. */
  function Pages<T>(items: seq<T>, pageSize: int, count: nat): seq<T> {
    if count == 0 then [] else Pages(items, pageSize, count - 1) + Paginate(items, count, pageSize)
  }

  lemma {:induction false} PagesArePrefix<T>(items: seq<T>, pageSize: nat, count: nat)
    requires pageSize >= 1
    ensures Pages(items, pageSize, count) == items[..Pagination.Min(count * pageSize, |items|)]
  {
    if count > 0 {
      PagesArePrefix(items, pageSize, count - 1);
      var start := Start(items, pageSize, count);
      PageFollows(items, start, pageSize);
    }
  }

  lemma Start<T>(items: seq<T>, pageSize: nat, count: nat) returns (start: nat)
    requires count > 0
    ensures start == (count - 1) * pageSize && start + pageSize == count * pageSize
    ensures Paginate(items, count, pageSize) == Slice(items, start, start + pageSize)
  {
    start := (count - 1) * pageSize;
    Pagination.NextMultiple(count - 1, pageSize);
    assert pageSize * (count - 1) == start;
  }

  lemma PageFollows<T>(items: seq<T>, start: nat, length: nat)
    ensures items[..Pagination.Min(start, |items|)] + Slice(items, start, start + length) ==
            items[..Pagination.Min(start + length, |items|)]
  {
  }

  /** The pages cover a list exactly, without repeats, and a page past the last is empty. */
  lemma {:induction false} PagesCover<T>(items: seq<T>, pageSize: nat)
    requires pageSize >= 1
    ensures Pages(items, pageSize, Pagination.CeilDiv(|items|, pageSize)) == items
    ensures forall page :: page > Pagination.CeilDiv(|items|, pageSize) ==> Paginate(items, page, pageSize) == []
  {
    var last := Pagination.CeilDiv(|items|, pageSize);
    Pagination.DivisionBounds(|items| + pageSize - 1, pageSize);
    PagesArePrefix(items, pageSize, last);
    forall page | page > last ensures Paginate(items, page, pageSize) == [] {
      PageBeyond(items, pageSize, last, page);
    }
  }

  lemma SliceFromTheEnd<T>(items: seq<T>, skipped: int, length: int)
    requires skipped >= 1 && length >= 1
    ensures Slice(items, -skipped - length, -skipped) ==
      if |items| - skipped <= 0 then []
      else items[Pagination.Max(0, |items| - skipped - length)..|items| - skipped]
  {
  }

  /** Page 0 is empty; pages before it count from the end of the list, page -1 being the last page size but one. */
  lemma PagesBefore<T>(items: seq<T>, page: int, pageSize: nat)
    requires pageSize >= 1 && page <= 0
    ensures page == 0 ==> Paginate(items, page, pageSize) == []
    ensures page < 0 ==>
      var skipped, stop := pageSize * -page, |items| - pageSize * -page;
      Paginate(items, page, pageSize) ==
        (if stop <= 0 then [] else items[Pagination.Max(0, |items| - skipped - pageSize)..stop])
  {
    var skipped := pageSize * -page;
    assert pageSize * (page - 1) == -skipped - pageSize;
    if page < 0 {
      Pagination.MulMonotone(1, -page, pageSize);
      SliceFromTheEnd(items, skipped, pageSize);
    }
  }

  lemma PageBeyond<T>(items: seq<T>, pageSize: nat, last: nat, page: int)
    requires last * pageSize >= |items| && page > last
    ensures Paginate(items, page, pageSize) == []
  {
    Pagination.MulMonotone(last, page - 1, pageSize);
  }

  // ---------------------------------------------------------------- the listing

  class ConfigurationFileManager {
    const collections: seq<Collection>
    const intersects: (Geometry, Geometry) -> bool

    constructor (collections: seq<Collection>, intersects: (Geometry, Geometry) -> bool)
      ensures this.collections == collections && this.intersects == intersects
    {
      this.collections, this.intersects := collections, intersects;
    }

    /** Set the manager up from its configuration file. */
    static method Load(c: Context, raw: seq<RawEntry>, intersects: (Geometry, Geometry) -> bool)
      returns (r: Result<ConfigurationFileManager, Error>)
      ensures r.Success? <==> forall entry <- raw :: IsFine(c, entry)
      ensures r.Success? ==>
        && fresh(r.value) && r.value.collections == Parsed(Converted(c, raw)) && r.value.intersects == intersects
      ensures r.Failure? ==> exists i :: StopsAt(c, raw, i, r.error)
    {
      var parsed := ParseCollections(c, raw);
      if parsed.Failure? {
        return Failure(parsed.error);
      }
      var manager := new ConfigurationFileManager(parsed.value, intersects);
      r := Success(manager);
    }

    predicate Passes(filter: Option<Filter>, c: Collection) {
      filter.Some? ==>
        && (filter.value.identifiers.Some? && filter.value.identifiers.value != [] ==>
              c.Id() in filter.value.identifiers.value)
        && (filter.value.type_.Some? ==> c.type_ == filter.value.type_.value)
        && (filter.value.area.Some? && c.extent.Some? ==> intersects(c.extent.value, filter.value.area.value))
    }

    function Accessible(candidates: seq<Collection>, principal: Option<Principal>, filter: Option<Filter>)
      : seq<Collection>
    {
      if candidates == [] then [] else
      (if Passes(filter, candidates[0]) && MayView(Collections, principal, candidates[0].resource)
       then [candidates[0]] else [])
      + Accessible(candidates[1..], principal, filter)
    }

    function Listed(principal: Option<Principal>, filter: Option<Filter>): seq<Collection> {
      Accessible(Sort(collections, IdOf), principal, filter)
    }

    method GetCollection(identifier: string, principal: Option<Principal>) returns (r: Option<Collection>)
      ensures r == GetVisible(collections, identifier, principal)
    {
      var collection := Lookup(collections, identifier);
      if collection.None? {
        return None;
      }
      r := if MayView(Collections, principal, collection.value.resource) then collection else None;
    }

    method PaginatedListCollections(principal: Option<Principal>, page: int, pageSize: int, includeTotal: bool,
                                    filter: Option<Filter>)
      returns (items: seq<Collection>, total: Option<nat>)
      ensures items == Paginate(Listed(principal, filter), page, pageSize)
      ensures total == if includeTotal then Some(|Listed(principal, filter)|) else None
    {
      var candidates := Sort(collections, IdOf);
      var accessible := Accessible(candidates, principal, filter);
      total := if includeTotal then Some(|accessible|) else None;
      items := Paginate(accessible, page, pageSize);
    }

    lemma {:induction false} AccessibleExactly(candidates: seq<Collection>, principal: Option<Principal>,
                                               filter: Option<Filter>)
      ensures forall c :: c in Accessible(candidates, principal, filter) <==>
        c in candidates && Passes(filter, c) && MayView(Collections, principal, c.resource)
    {
      if candidates != [] {
        AccessibleExactly(candidates[1..], principal, filter);
      }
    }

    lemma {:induction false} AccessibleIsSorted(candidates: seq<Collection>, principal: Option<Principal>,
                                                filter: Option<Filter>)
      requires SortedBy(candidates, IdOf)
      ensures SortedBy(Accessible(candidates, principal, filter), IdOf)
    {
      if candidates != [] {
        var accessible := Accessible(candidates[1..], principal, filter);
        AccessibleIsSorted(candidates[1..], principal, filter);
        AccessibleExactly(candidates[1..], principal, filter);
        forall c | c in accessible ensures Less(IdOf(candidates[0]), IdOf(c)) {
          var j :| 1 <= j < |candidates| && candidates[j] == c;
        }
      }
    }

    /** One of the identifiers, if there are any, the type, and an extent that is unknown or meets the area. */
    predicate IsAskedFor(filter: Filter, c: Collection) {
      && (|| filter.identifiers.None? || filter.identifiers.value == []
          || c.resource.identifier in filter.identifiers.value)
      && (filter.type_.None? || filter.type_.value == c.type_)
      && (filter.area.None? || c.extent.None? || intersects(c.extent.value, filter.area.value))
    }

    /** What is listed, by the parts of the filter. */
    lemma ListedExactly(principal: Option<Principal>, filter: Option<Filter>)
      requires DistinctBy(collections, IdOf)
      ensures forall c :: c in Listed(principal, filter) <==>
        && c in collections && MayView(Collections, principal, c.resource)
        && (filter.Some? ==> IsAskedFor(filter.value, c))
    {
      SortSorts(collections, IdOf);
      AccessibleExactly(Sort(collections, IdOf), principal, filter);
      forall c ensures Passes(filter, c) <==> (filter.Some? ==> IsAskedFor(filter.value, c)) {
        assert c.Id() == c.resource.identifier;
      }
    }

    /**
     The pages of a listing, one after the other, are in identifier order and without repeats exactly
     the collections that pass the filter and that a lookup returns, and the total is their number.
     */
    lemma {:induction false} ListingAgreesWithLookup(entries: seq<Collection>, principal: Option<Principal>,
                                                     filter: Option<Filter>, pageSize: nat)
      requires collections == Parsed(entries) && pageSize >= 1
      ensures var listed := Listed(principal, filter);
        && Pages(listed, pageSize, Pagination.CeilDiv(|listed|, pageSize)) == listed
        && SortedBy(listed, IdOf)
        && (forall c :: c in listed <==> GetVisible(collections, c.Id(), principal) == Some(c) && Passes(filter, c))
    {
      var listed, sorted := Listed(principal, filter), Sort(collections, IdOf);
      ParsedIsDistinct(entries);
      SortSorts(collections, IdOf);
      AccessibleExactly(sorted, principal, filter);
      AccessibleIsSorted(sorted, principal, filter);
      PagesCover(listed, pageSize);
      forall c ensures c in listed <==> GetVisible(collections, c.Id(), principal) == Some(c) && Passes(filter, c) {
        assert c in sorted <==> c in collections;
        LookupExactly(collections, c.Id());
      }
    }
  }

  lemma {:induction false} ParsedIsDistinct(entries: seq<Collection>)
    ensures DistinctBy(Parsed(entries), IdOf)
  {
    if entries != [] {
      ParsedIsDistinct(entries[..|entries| - 1]);
      PutReplaces(Parsed(entries[..|entries| - 1]), entries[|entries| - 1], IdOf);
    }
  }

  /** An entry is in the dictionary exactly when no later one has its identifier. */
  lemma {:induction false} ParsedExactly(entries: seq<Collection>)
    ensures forall c :: c in Parsed(entries) <==> exists i :: IsLastOf(entries, i, c)
  {
    if entries != [] {
      var n := |entries| - 1;
      ParsedExactly(entries[..n]);
      ParsedIsDistinct(entries[..n]);
      PutReplaces(Parsed(entries[..n]), entries[n], IdOf);
      forall c ensures c in Parsed(entries) <==> exists i :: IsLastOf(entries, i, c) {
        LastOfMore(entries[..n], entries[n], c);
        assert entries == entries[..n] + [entries[n]];
      }
    }
  }

  lemma LastOfMore(before: seq<Collection>, last: Collection, c: Collection)
    ensures (exists i :: IsLastOf(before + [last], i, c)) <==>
      c == last || (c.Id() != last.Id() && exists i :: IsLastOf(before, i, c))
  {
    var n := |before|;
    if c == last {
      assert IsLastOf(before + [last], n, c);
    }
    forall i: nat | i < n ensures IsLastOf(before + [last], i, c) <==> IsLastOf(before, i, c) && c.Id() != last.Id() {
      assert (before + [last])[n] == last;
      assert forall j :: i < j < n ==> (before + [last])[j] == before[j];
    }
  }

  predicate IsLastOf(entries: seq<Collection>, i: nat, c: Collection) {
    i < |entries| && entries[i] == c && forall j :: i < j < |entries| ==> entries[j].Id() != c.Id()
  }

  lemma {:induction false} LookupExactly(dict: seq<Collection>, identifier: string)
    requires DistinctBy(dict, IdOf)
    ensures forall c :: Lookup(dict, identifier) == Some(c) <==> c in dict && c.Id() == identifier
  {
    if dict != [] {
      LookupExactly(dict[1..], identifier);
      OthersDiffer(dict, IdOf);
    }
  }
}
