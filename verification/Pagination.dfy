/**
 Listing the items of a collection page by page: the limit that is used, the window a page shows,
 and what a client collects by following the links.
 */
module Pagination {
  import opened Wrappers
  import opened Filtering

  datatype Settings = Settings(pageSize: int, pageSizeMax: int)

  datatype Collection = Collection(customPageSize: Option<int>, customPageSizeMax: Option<int>)

  /** Python's `or`: absent and zero both give way. */
  function Or(o: Option<int>, default: int): int { if o.Some? && o.value != 0 then o.value else default }

  function Min(a: int, b: int): int { if a <= b then a else b }

  function Max(a: int, b: int): int { if a >= b then a else b }

  function Cap(collection: Collection, settings: Settings): int {
    Or(collection.customPageSizeMax, settings.pageSizeMax)
  }

  function EffectiveLimit(request: Option<int>, collection: Collection, settings: Settings): int {
    Min(Or(request, Or(collection.customPageSize, settings.pageSize)), Cap(collection, settings))
  }

  datatype Filter<!T> = Filter(limit: int, offset: int, matches: T -> bool) {
    /** What the request model enforces. */
    predicate Valid() { limit >= 1 && offset >= 0 }
  }

  /** Python's slice for a non-negative start and length: it stops at the end of the list. */
  function Window<T>(items: seq<T>, offset: nat, length: nat): seq<T> {
    if offset >= |items| then []
    else if offset + length >= |items| then items[offset..]
    else items[offset..offset + length]
  }

  datatype PaginationContext = PaginationContext(limit: int, matched: int, returned: int, offset: int)

  datatype Link = Prev(offset: int) | Next(offset: int)

  function Links(p: PaginationContext): seq<Link> {
    (if p.offset > 0 then [Prev(Max(0, p.offset - p.limit))] else [])
    + (if p.matched > p.offset + p.limit then [Next(p.offset + p.limit)] else [])
  }

  method GetLinks(p: PaginationContext) returns (links: seq<Link>)
    ensures links == Links(p)
  {
    links := [];
    if p.offset > 0 {
      var prevOffset := Max(0, p.offset - p.limit);
      links := links + [Prev(prevOffset)];
    }
    if p.matched > p.offset + p.limit {
      var nextOffset := p.offset + p.limit;
      links := links + [Next(nextOffset)];
    }
  }

  datatype FeatureList<T> = FeatureList(features: seq<T>, pagination: PaginationContext)

  datatype Error = CollectionNotFound

  /** The page of a request: its window takes the requested limit, its links take the effective one. */
  function Page<T>(matched: seq<T>, limit: nat, effective: int, offset: nat): FeatureList<T> {
    var window := Window(matched, offset, limit);
    FeatureList(window, PaginationContext(effective, |matched|, |window|, offset))
  }

  /** `provider` is what the collection's feature provider holds; None without one. */
  method ListCollectionItems<T>(collection: Option<Collection>, settings: Settings, provider: Option<seq<T>>,
                                filter: Filter<T>)
    returns (r: Result<FeatureList<T>, Error>)
    requires filter.Valid()
    ensures r.Failure? <==> collection.None?
    ensures collection.Some? ==>
      var matched := if provider.Some? then Matching(provider.value, filter.matches) else [];
      var effective := EffectiveLimit(Some(filter.limit), collection.value, settings);
      && r == Success(Page(matched, filter.limit, effective, filter.offset))
      && r.value.pagination == PaginationContext(effective, |matched|, |r.value.features|, filter.offset)
      && |r.value.features| == Max(0, Min(filter.limit, |matched| - filter.offset))
      && forall i :: 0 <= i < |r.value.features| ==> r.value.features[i] == matched[filter.offset + i]
  {
    if collection.None? {
      return Failure(CollectionNotFound);
    }
    var effective := EffectiveLimit(Some(filter.limit), collection.value, settings);
    if provider.None? {
      return Success(FeatureList([], PaginationContext(effective, 0, 0, filter.offset)));
    }
    var matched := Matching(provider.value, filter.matches);
    var features := Window(matched, filter.offset, filter.limit);
    r := Success(FeatureList(features, PaginationContext(effective, |matched|, |features|, filter.offset)));
  }

  // ---------------------------------------------------------------- following the links

  /** The links a client finds on a page; a previous link comes first, a next link last. */
  function NextIn(links: seq<Link>): Option<int> {
    if links != [] && links[|links| - 1].Next? then Some(links[|links| - 1].offset) else None
  }

  function PrevIn(links: seq<Link>): Option<int> {
    if links != [] && links[0].Prev? then Some(links[0].offset) else None
  }

  function NextOffset(effective: int, matched: nat, offset: int): Option<int> {
    NextIn(Links(PaginationContext(effective, matched, 0, offset)))
  }

  function PrevOffset(effective: int, matched: nat, offset: int): Option<int> {
    PrevIn(Links(PaginationContext(effective, matched, 0, offset)))
  }

  lemma OffsetsAre(effective: int, matched: nat, offset: int)
    ensures NextOffset(effective, matched, offset) ==
            if matched > offset + effective then Some(offset + effective) else None
    ensures PrevOffset(effective, matched, offset) == if offset > 0 then Some(Max(0, offset - effective)) else None
  {
  }

  /**
   The limit in effect is the one requested, or for lack of one the collection's own page size, or the
   general one; but never more than the collection's own maximum, or for lack of one the general one.
   */
  lemma LimitInEffect(request: Option<int>, collection: Collection, settings: Settings)
    ensures var effective := EffectiveLimit(request, collection, settings);
      var own, ownMax := collection.customPageSize, collection.customPageSizeMax;
      && (ownMax.Some? && ownMax.value >= 1 ==> effective <= ownMax.value)
      && (ownMax.None? ==> effective <= settings.pageSizeMax)
      && (forall n, max :: request == Some(n) && 1 <= n <= max && ownMax == Some(max) ==> effective == n)
      && (forall n :: request == Some(n) && 1 <= n <= settings.pageSizeMax && ownMax.None? ==> effective == n)
      && (forall n, max :: request == Some(n) && n >= max >= 1 && ownMax == Some(max) ==> effective == max)
      && (forall n, max :: request.None? && own == Some(n) && 1 <= n <= max && ownMax == Some(max) ==> effective == n)
      && (request.None? && own.None? && ownMax.None? && settings.pageSize >= 1 ==>
            effective == settings.pageSize || effective == settings.pageSizeMax < settings.pageSize)
  {
  }

  /** A next link leads forward exactly when the effective limit is positive, as it is unless the cap is not. */
  lemma NextLeadsForward(limit: int, collection: Collection, settings: Settings, matched: nat, offset: nat)
    requires limit >= 1
    ensures var effective := EffectiveLimit(Some(limit), collection, settings);
      && (effective >= 1 <==> Cap(collection, settings) >= 1)
      && (NextOffset(effective, matched, offset).Some? ==>
            (NextOffset(effective, matched, offset).value > offset <==> Cap(collection, settings) >= 1))
  {
    OffsetsAre(EffectiveLimit(Some(limit), collection, settings), matched, offset);
  }

  /** The offsets a client visits by following the next links from some page on. */
  function Chain(effective: nat, matched: nat, offset: nat): (offsets: seq<nat>)
    requires effective >= 1
    ensures offsets != []
    decreases Max(0, matched - offset)
  {
    OffsetsAre(effective, matched, offset);
    var next := NextOffset(effective, matched, offset);
    [offset] + if next.Some? then Chain(effective, matched, next.value) else []
  }

  function CeilDiv(a: nat, b: nat): nat
    requires b >= 1
  {
    (a + b - 1) / b
  }

  /** From the start the pages lie one effective limit apart, and there are as many as it takes. */
  lemma ChainFromStart(effective: nat, matched: nat)
    requires effective >= 1
    ensures var chain := Chain(effective, matched, 0);
      && |chain| == Max(1, CeilDiv(matched, effective))
      && forall i :: 0 <= i < |chain| ==> chain[i] == i * effective
  {
    ChainIsRegular(effective, matched, 0);
    var n := |Chain(effective, matched, 0)|;
    if matched > 0 {
      CeilDivIs(matched, effective, n);
    }
  }

  lemma CeilDivIs(a: nat, b: nat, n: nat)
    requires b >= 1 && n >= 1 && (n - 1) * b < a <= n * b
    ensures CeilDiv(a, b) == n
  {
    DivisionBounds(a + b - 1, b);
    var q := CeilDiv(a, b);
    NextMultiple(n - 1, b);
    NextMultiple(n, b);
    if q < n {
      MulMonotone(q, n - 1, b);
    }
    if q > n {
      MulMonotone(n + 1, q, b);
    }
  }

  lemma MulMonotone(x: int, y: int, b: nat)
    requires x <= y
    ensures x * b <= y * b
  {
  }

  lemma NextMultiple(i: int, b: nat)
    ensures (i + 1) * b == i * b + b
  {
  }

  lemma DivisionBounds(a: nat, b: nat)
    requires b >= 1
    ensures (a / b) * b <= a < (a / b) * b + b
  {
  }

  lemma {:induction false} ChainIsRegular(effective: nat, matched: nat, offset: nat)
    requires effective >= 1
    ensures var chain := Chain(effective, matched, offset);
      && (forall i :: 0 <= i < |chain| ==> chain[i] == offset + i * effective)
      && offset + |chain| * effective >= matched
      && (|chain| > 1 ==> offset + (|chain| - 1) * effective < matched)
    decreases Max(0, matched - offset)
  {
    OffsetsAre(effective, matched, offset);
    if matched > offset + effective {
      var rest := Chain(effective, matched, offset + effective);
      ChainIsRegular(effective, matched, offset + effective);
      assert Chain(effective, matched, offset) == [offset] + rest;
      forall i | 0 <= i < |rest| ensures rest[i] == offset + (i + 1) * effective {
        NextMultiple(i, effective);
      }
      NextMultiple(|rest|, effective);
      NextMultiple(|rest| - 1, effective);
    }
  }

  /** What a client collects from a chain of pages. */
  function Collected<T>(matched: seq<T>, limit: nat, offsets: seq<nat>): seq<T> {
    if offsets == [] then [] else Window(matched, offsets[0], limit) + Collected(matched, limit, offsets[1..])
  }

  /** Following the next links from the start leaves no gap: every matched feature is on some page. */
  lemma NoGap<T>(matched: seq<T>, limit: nat, effective: nat, k: nat) returns (i: nat)
    requires 1 <= effective <= limit && k < |matched|
    ensures var chain := Chain(effective, |matched|, 0);
      i < |chain| && chain[i] <= k < chain[i] + limit
      && Window(matched, chain[i], limit)[k - chain[i]] == matched[k]
  {
    i := k / effective;
    DivisionBounds(k, effective);
    var chain := Chain(effective, |matched|, 0);
    PageHolds(effective, |matched|, i, k);
    WindowAt(matched, chain[i], limit, k);
  }

  /** The page that an index falls on is in the chain. */
  lemma PageHolds(effective: nat, matched: nat, i: nat, k: nat)
    requires effective >= 1 && k < matched && i * effective <= k < i * effective + effective
    ensures var chain := Chain(effective, matched, 0);
      i < |chain| && chain[i] <= k < chain[i] + effective
  {
    ChainIsRegular(effective, matched, 0);
    var chain := Chain(effective, matched, 0);
    if i >= |chain| {
      MulMonotone(|chain|, i, effective);
    }
    assert chain[i] == i * effective;
  }

  lemma WindowAt<T>(items: seq<T>, offset: nat, length: nat, k: nat)
    requires offset <= k < offset + length && k < |items|
    ensures |Window(items, offset, length)| > k - offset && Window(items, offset, length)[k - offset] == items[k]
  {
  }

  /** With the requested limit in effect, the pages from an offset on are the rest of the matched features. */
  lemma {:induction false} CollectsRest<T>(matched: seq<T>, limit: nat, offset: nat)
    requires limit >= 1 && offset <= |matched|
    ensures Collected(matched, limit, Chain(limit, |matched|, offset)) == matched[offset..]
    decreases |matched| - offset
  {
    CollectedUnfolds(matched, limit, limit, offset);
    if |matched| > offset + limit {
      CollectsRest(matched, limit, offset + limit);
      WindowThenRest(matched, offset, limit);
    } else {
      LastWindow(matched, offset, limit);
    }
  }

  lemma CollectedUnfolds<T>(matched: seq<T>, limit: nat, effective: nat, offset: nat)
    requires effective >= 1
    ensures Collected(matched, limit, Chain(effective, |matched|, offset)) == Window(matched, offset, limit) +
      if |matched| > offset + effective then Collected(matched, limit, Chain(effective, |matched|, offset + effective))
      else []
  {
    ChainUnfolds(effective, |matched|, offset);
  }

  lemma ChainUnfolds(effective: nat, matched: nat, offset: nat)
    requires effective >= 1
    ensures var chain := Chain(effective, matched, offset);
      && chain[0] == offset
      && chain[1..] == if matched > offset + effective then Chain(effective, matched, offset + effective) else []
  {
    OffsetsAre(effective, matched, offset);
  }

  lemma WindowLength<T>(items: seq<T>, offset: nat, length: nat)
    requires offset <= |items|
    ensures |Window(items, offset, length)| == Min(length, |items| - offset)
  {
  }

  lemma LastWindow<T>(items: seq<T>, offset: nat, length: nat)
    requires offset <= |items| <= offset + length
    ensures Window(items, offset, length) + [] == items[offset..]
  {
  }

  lemma WindowThenRest<T>(items: seq<T>, offset: nat, length: nat)
    requires offset + length <= |items|
    ensures Window(items, offset, length) + items[offset + length..] == items[offset..]
  {
  }

  /** A chain of pages never collects less than the rest. */
  lemma {:induction false} CollectsEnough<T>(matched: seq<T>, limit: nat, effective: nat, offset: nat)
    requires 1 <= effective <= limit && offset <= |matched|
    ensures |Collected(matched, limit, Chain(effective, |matched|, offset))| >= |matched| - offset
    decreases |matched| - offset
  {
    CollectedUnfolds(matched, limit, effective, offset);
    WindowLength(matched, offset, limit);
    if |matched| > offset + effective {
      CollectsEnough(matched, limit, effective, offset + effective);
    }
  }

  /**
   Following the next links from the start collects exactly the matched features, in order and without
   repeats, exactly when the requested limit is within the cap or everything fits on the first page:
   above the cap, pages are longer than the links' step and overlap.
   */
  lemma {:induction false} CollectsExactlyWhen<T>(matched: seq<T>, limit: nat, collection: Collection,
                                                  settings: Settings)
    requires limit >= 1 && Cap(collection, settings) >= 1
    ensures var cap, effective := Cap(collection, settings), EffectiveLimit(Some(limit), collection, settings);
      Collected(matched, limit, Chain(effective, |matched|, 0)) == matched <==> limit <= cap || |matched| <= cap
  {
    var effective := EffectiveLimit(Some(limit), collection, settings);
    if effective == limit {
      CollectsRest(matched, limit, 0);
    } else {
      CollectsInSteps(matched, limit, effective);
    }
  }

  /** Steps shorter than the pages collect exactly the matched features only if there is a single page. */
  lemma CollectsInSteps<T>(matched: seq<T>, limit: nat, effective: nat)
    requires 1 <= effective < limit
    ensures Collected(matched, limit, Chain(effective, |matched|, 0)) == matched <==> |matched| <= effective
  {
    ChainUnfolds(effective, |matched|, 0);
    if |matched| > effective {
      CollectsEnough(matched, limit, effective, effective);
      assert |Window(matched, 0, limit)| > effective;
    }
  }

  /**
   A client that asks for the first page and then follows the next links it is given: it makes as many
   requests as it takes, and has the matched features exactly when CollectsExactlyWhen says so.
   */
  method FollowLinks<T(==)>(collection: Collection, settings: Settings, features: seq<T>, limit: nat,
                       matches: T -> bool)
    returns (collected: seq<T>, requests: nat)
    requires limit >= 1 && Cap(collection, settings) >= 1
    ensures var matched, effective := Matching(features, matches), EffectiveLimit(Some(limit), collection, settings);
      && requests == Max(1, CeilDiv(|matched|, effective))
      && collected == Collected(matched, limit, Chain(effective, |matched|, 0))
      && (collected == matched <==> limit <= Cap(collection, settings) || |matched| <= Cap(collection, settings))
  {
    ghost var matched, effective := Matching(features, matches), EffectiveLimit(Some(limit), collection, settings);
    FollowingGives(matched, limit, collection, settings);
    ghost var everything, count := Ahead(matched, limit, effective, Some(0)), PagesAhead(matched, effective, Some(0));
    collected, requests := [], 0;
    var next := Some(0);
    while next.Some?
      invariant next.Some? ==> next.value >= 0
      invariant collected + Ahead(matched, limit, effective, next) == everything
      invariant requests + PagesAhead(matched, effective, next) == count
      decreases PagesAhead(matched, effective, next)
    {
      AheadUnfolds(matched, limit, effective, next.value, collected);
      var page, following := RequestPage(collection, settings, features, limit, next.value, matches);
      collected, requests, next := collected + page, requests + 1, following;
    }
  }

  /** One request: the features of a page, and where its next link leads. */
  method RequestPage<T>(collection: Collection, settings: Settings, features: seq<T>, limit: nat, offset: nat,
                        matches: T -> bool)
    returns (page: seq<T>, next: Option<int>)
    requires limit >= 1
    ensures page == Window(Matching(features, matches), offset, limit)
    ensures next == NextOffset(EffectiveLimit(Some(limit), collection, settings), |Matching(features, matches)|, offset)
  {
    var list := ListCollectionItems(Some(collection), settings, Some(features), Filter(limit, offset, matches));
    var links := GetLinks(list.value.pagination);
    page, next := list.value.features, NextIn(links);
  }

  /** What is still to come from an offset on, and on how many pages. */
  ghost function Ahead<T>(matched: seq<T>, limit: nat, effective: int, next: Option<int>): seq<T>
    requires effective >= 1 && (next.Some? ==> next.value >= 0)
  {
    if next.Some? then Collected(matched, limit, Chain(effective, |matched|, next.value)) else []
  }

  ghost function PagesAhead<T>(matched: seq<T>, effective: int, next: Option<int>): nat
    requires effective >= 1 && (next.Some? ==> next.value >= 0)
  {
    if next.Some? then |Chain(effective, |matched|, next.value)| else 0
  }

  lemma AheadUnfolds<T>(matched: seq<T>, limit: nat, effective: int, offset: nat, before: seq<T>)
    requires effective >= 1
    ensures var next := NextOffset(effective, |matched|, offset);
      && (next.Some? ==> next.value >= 0)
      && before + Ahead(matched, limit, effective, Some(offset)) ==
         before + Window(matched, offset, limit) + Ahead(matched, limit, effective, next)
      && PagesAhead(matched, effective, Some(offset)) == 1 + PagesAhead(matched, effective, next)
  {
    OffsetsAre(effective, |matched|, offset);
    ChainUnfolds(effective, |matched|, offset);
    CollectedUnfolds(matched, limit, effective, offset);
    var next := NextOffset(effective, |matched|, offset);
    var window, ahead := Window(matched, offset, limit), Ahead(matched, limit, effective, next);
    assert before + (window + ahead) == before + window + ahead;
  }

  lemma FollowingGives<T>(matched: seq<T>, limit: nat, collection: Collection, settings: Settings)
    requires limit >= 1 && Cap(collection, settings) >= 1
    ensures var effective := EffectiveLimit(Some(limit), collection, settings);
      && effective >= 1
      && PagesAhead(matched, effective, Some(0)) == Max(1, CeilDiv(|matched|, effective))
      && Ahead(matched, limit, effective, Some(0)) == Collected(matched, limit, Chain(effective, |matched|, 0))
      && (Ahead(matched, limit, effective, Some(0)) == matched <==>
            limit <= Cap(collection, settings) || |matched| <= Cap(collection, settings))
  {
    var effective: nat := EffectiveLimit(Some(limit), collection, settings);
    ChainFromStart(effective, |matched|);
    CollectsExactlyWhen(matched, limit, collection, settings);
    assert PagesAhead(matched, effective, Some(0)) == |Chain(effective, |matched|, 0)|;
    assert Ahead(matched, limit, effective, Some(0)) == Collected(matched, limit, Chain(effective, |matched|, 0));
  }

  /**
   The previous link of the next page leads back; the next link of the previous page does if no page was
   cut short at the start.
   */
  lemma PrevUndoesNext(effective: nat, matched: nat, offset: nat)
    requires effective >= 1
    ensures var next := NextOffset(effective, matched, offset);
      next.Some? ==> PrevOffset(effective, matched, next.value) == Some(offset)
    ensures var prev := PrevOffset(effective, matched, offset);
      prev.Some? ==> (NextOffset(effective, matched, prev.value) == Some(offset) <==> effective <= offset < matched)
  {
    OffsetsAre(effective, matched, offset);
    OffsetsAre(effective, matched, offset + effective);
    if offset > 0 {
      OffsetsAre(effective, matched, Max(0, offset - effective));
    }
  }
}
