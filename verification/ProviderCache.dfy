/**
 The bounded first-in-first-out cache of feature providers. A lookup that misses is suspended while
 its provider is being built, and any number of other lookups may run meanwhile.
 */
module ProviderCache {
  import opened Wrappers
  import opened Sorting
  import opened Dictionaries

  datatype ProviderConfiguration = ProviderConfiguration(providerName: string, config: string)

  /** A collection, with its feature provider if it has one. */
  datatype Collection = Collection(identifier: string, provider: Option<ProviderConfiguration>)

  /** What a provider is built for; the configuration is the interpolated one. */
  datatype Request = Request(collection: string, providerName: string, config: string)

  /** A request together with the cache size configured when it is made. */
  datatype Lookup = Lookup(request: Request, cacheSize: nat)

  /** A built provider; builds are numbered. */
  datatype Instance = Instance(builtBy: Lookup, build: nat)

  datatype CacheKey = CacheKey(collection: string, digest: string)

  datatype Entry = Entry(key: CacheKey, instance: Instance)

  /** The registered providers, and the truncated hash of provider name and configuration. */
  datatype Registry = Registry(registered: set<string>, digest: (string, string) -> string)

  function KeyOf(registry: Registry, r: Request): CacheKey {
    CacheKey(r.collection, registry.digest(r.providerName, r.config))
  }

  // ---------------------------------------------------------------- the dictionary, in insertion order

  function EntryKey(entry: Entry): CacheKey { entry.key }

  function Find(cache: seq<Entry>, key: CacheKey): Option<Instance> {
    if cache == [] then None
    else if cache[0].key == key then Some(cache[0].instance)
    else Find(cache[1..], key)
  }

  function Keys(cache: seq<Entry>): (keys: seq<CacheKey>)
    ensures |keys| == |cache| && forall i :: 0 <= i < |cache| ==> keys[i] == cache[i].key
  {
    if cache == [] then [] else [cache[0].key] + Keys(cache[1..])
  }

  /** The oldest entry has to go when the cache is full. */
  predicate IsFull(cache: seq<Entry>, cacheSize: nat) { |cache| >= cacheSize && cache != [] }

  function Shrunk(cache: seq<Entry>, cacheSize: nat): seq<Entry> {
    if IsFull(cache, cacheSize) then cache[1..] else cache
  }

  /** How a lookup goes on when it starts: it ends at once, or has to build. */
  datatype Start = NoProvider | UnknownProvider | Hit(instance: Instance) | Miss(lookup: Lookup)

  function LookupOf(collection: Collection, interpolated: string, cacheSize: nat): Lookup
    requires collection.provider.Some?
  {
    Lookup(Request(collection.identifier, collection.provider.value.providerName, interpolated), cacheSize)
  }

  function Started(registry: Registry, cache: seq<Entry>, collection: Collection, interpolated: string, cacheSize: nat)
    : Start
  {
    if collection.provider.None? then NoProvider
    else if collection.provider.value.providerName !in registry.registered then UnknownProvider
    else
      var lookup := LookupOf(collection, interpolated, cacheSize);
      var found := if cacheSize == 0 then None else Find(cache, KeyOf(registry, lookup.request));
      if found.Some? then Hit(found.value) else Miss(lookup)
  }

  function Completed(registry: Registry, cache: seq<Entry>, lookup: Lookup, instance: Instance): seq<Entry> {
    if lookup.cacheSize == 0 then cache
    else Put(Shrunk(cache, lookup.cacheSize), Entry(KeyOf(registry, lookup.request), instance), EntryKey)
  }

  /** The keys that leave the cache, and those that are new to it, when a lookup completes. */
  function Leaving(cache: seq<Entry>, cacheSize: nat): seq<CacheKey> {
    if cacheSize > 0 && IsFull(cache, cacheSize) then [cache[0].key] else []
  }

  function Entering(registry: Registry, cache: seq<Entry>, lookup: Lookup): seq<CacheKey> {
    var key := KeyOf(registry, lookup.request);
    if lookup.cacheSize > 0 && Find(Shrunk(cache, lookup.cacheSize), key).None? then [key] else []
  }

  // ---------------------------------------------------------------- interleaved lookups

  datatype Response = Response(lookup: Lookup, instance: Instance)

  /** `inserted` and `evicted` list the keys that entered and left the cache, in order. */
  datatype State = State(cache: seq<Entry>, suspended: map<nat, Lookup>, lookups: nat, builds: nat,
                         responses: seq<Response>, inserted: seq<CacheKey>, evicted: seq<CacheKey>)

  datatype Step =
    | Begin(collection: Collection, interpolated: string, cacheSize: nat)
    | Finish(id: nat)      // the factory returns
    | Fail(id: nat)        // the factory raises

  const INITIAL := State([], map[], 0, 0, [], [], [])

  function Next(registry: Registry, s: State, step: Step): Option<State> {
    match step
    case Begin(collection, interpolated, cacheSize) =>
      (match Started(registry, s.cache, collection, interpolated, cacheSize)
       case Hit(instance) =>
         var lookup := LookupOf(collection, interpolated, cacheSize);
         Some(s.(lookups := s.lookups + 1, responses := s.responses + [Response(lookup, instance)]))
       case Miss(lookup) => Some(s.(lookups := s.lookups + 1, suspended := s.suspended[s.lookups := lookup]))
       case _ => Some(s.(lookups := s.lookups + 1)))
    case Finish(id) =>
      if id !in s.suspended then None
      else
        var lookup := s.suspended[id];
        var instance := Instance(lookup, s.builds);
        Some(s.(cache := Completed(registry, s.cache, lookup, instance),
                suspended := s.suspended - {id},
                builds := s.builds + 1,
                responses := s.responses + [Response(lookup, instance)],
                inserted := s.inserted + Entering(registry, s.cache, lookup),
                evicted := s.evicted + Leaving(s.cache, lookup.cacheSize)))
    case Fail(id) =>
      if id in s.suspended then Some(s.(suspended := s.suspended - {id})) else None
  }

  datatype Trace = Nothing | Then(earlier: Trace, step: Step)

  function After(registry: Registry, trace: Trace): Option<State> {
    match trace
    case Nothing => Some(INITIAL)
    case Then(earlier, step) =>
      var s := After(registry, earlier);
      if s.Some? then Next(registry, s.value, step) else None
  }

  /** All lookups that begin in a run are of a certain kind. */
  predicate OnlyAsks(trace: Trace, asked: Lookup -> bool) {
    match trace
    case Nothing => true
    case Then(earlier, step) =>
      && OnlyAsks(earlier, asked)
      && (step.Begin? && step.collection.provider.Some? ==>
            asked(LookupOf(step.collection, step.interpolated, step.cacheSize)))
  }

  // ---------------------------------------------------------------- what every run keeps

  /** The instance was built by a lookup that may be made, with that key and with caching on. */
  predicate IsStored(registry: Registry, asked: Lookup -> bool, entry: Entry) {
    var builder := entry.instance.builtBy;
    entry.key == KeyOf(registry, builder.request) && builder.cacheSize > 0 && MayBuild(registry, asked, builder)
  }

  predicate MayBuild(registry: Registry, asked: Lookup -> bool, lookup: Lookup) {
    asked(lookup) && lookup.request.providerName in registry.registered
  }

  /** A lookup is answered with the instance it built, or with one stored under its key. */
  predicate IsAnswer(registry: Registry, asked: Lookup -> bool, response: Response) {
    && MayBuild(registry, asked, response.lookup)
    && (|| response.instance.builtBy == response.lookup
        || (&& response.lookup.cacheSize > 0
            && IsStored(registry, asked, Entry(KeyOf(registry, response.lookup.request), response.instance))))
  }

  predicate AllStored(registry: Registry, asked: Lookup -> bool, cache: seq<Entry>) {
    forall entry <- cache :: IsStored(registry, asked, entry)
  }

  ghost predicate IsCache(registry: Registry, asked: Lookup -> bool, bound: nat, cache: seq<Entry>) {
    |cache| <= bound && DistinctBy(cache, EntryKey) && AllStored(registry, asked, cache)
  }

  ghost predicate Sound(registry: Registry, asked: Lookup -> bool, bound: nat, s: State) {
    && IsCache(registry, asked, bound, s.cache)
    && (forall id <- s.suspended :: MayBuild(registry, asked, s.suspended[id]))
    && (forall response <- s.responses :: IsAnswer(registry, asked, response))
    && s.inserted == s.evicted + Keys(s.cache)
  }

  ghost predicate SizesWithin(asked: Lookup -> bool, bound: nat) {
    forall lookup :: asked(lookup) ==> lookup.cacheSize <= bound
  }

  lemma {:induction false} FindIsMember(cache: seq<Entry>, key: CacheKey)
    ensures Find(cache, key).Some? <==> key in Keys(cache)
    ensures Find(cache, key).Some? ==> Entry(key, Find(cache, key).value) in cache
  {
    if cache != [] {
      FindIsMember(cache[1..], key);
      assert forall entry :: entry in cache[1..] ==> entry in cache;
    }
  }

  lemma {:induction false} PutKeys(cache: seq<Entry>, entry: Entry)
    ensures Keys(Put(cache, entry, EntryKey)) ==
            if entry.key in Keys(cache) then Keys(cache) else Keys(cache) + [entry.key]
    ensures Find(Put(cache, entry, EntryKey), entry.key) == Some(entry.instance)
  {
    if cache != [] {
      PutKeys(cache[1..], entry);
    }
  }

  /** Making room keeps the order and takes the oldest key away, if any. */
  lemma ShrinkingKeeps(registry: Registry, asked: Lookup -> bool, bound: nat, cache: seq<Entry>, cacheSize: nat)
    requires 0 < cacheSize <= bound && IsCache(registry, asked, bound, cache)
    ensures var shrunk := Shrunk(cache, cacheSize);
      && |shrunk| < bound && IsCache(registry, asked, bound, shrunk)
      && Keys(cache) == Leaving(cache, cacheSize) + Keys(shrunk)
  {
    if IsFull(cache, cacheSize) {
      OthersDiffer(cache, EntryKey);
      assert forall entry :: entry in cache[1..] ==> entry in cache;
    }
  }

  lemma StoringKeeps(registry: Registry, asked: Lookup -> bool, bound: nat, shrunk: seq<Entry>, entry: Entry)
    requires IsCache(registry, asked, bound, shrunk) && |shrunk| < bound && IsStored(registry, asked, entry)
    ensures IsCache(registry, asked, bound, Put(shrunk, entry, EntryKey))
    ensures Keys(Put(shrunk, entry, EntryKey)) ==
            Keys(shrunk) + if Find(shrunk, entry.key).None? then [entry.key] else []
  {
    FindIsMember(shrunk, entry.key);
    PutKeys(shrunk, entry);
    PutReplaces(shrunk, entry, EntryKey);
    assert |Put(shrunk, entry, EntryKey)| == |Keys(Put(shrunk, entry, EntryKey))|;
  }

  lemma Regroup(a: seq<CacheKey>, b: seq<CacheKey>, c: seq<CacheKey>)
    ensures a + b + c == a + (b + c)
  {
  }

  lemma CompletingKeeps(registry: Registry, asked: Lookup -> bool, bound: nat, cache: seq<Entry>, lookup: Lookup,
                        build: nat)
    requires SizesWithin(asked, bound) && IsCache(registry, asked, bound, cache) && MayBuild(registry, asked, lookup)
    ensures var completed := Completed(registry, cache, lookup, Instance(lookup, build));
      && IsCache(registry, asked, bound, completed)
      && Keys(cache) + Entering(registry, cache, lookup) == Leaving(cache, lookup.cacheSize) + Keys(completed)
  {
    if lookup.cacheSize > 0 {
      var entry := Entry(KeyOf(registry, lookup.request), Instance(lookup, build));
      ShrinkingKeeps(registry, asked, bound, cache, lookup.cacheSize);
      StoringKeeps(registry, asked, bound, Shrunk(cache, lookup.cacheSize), entry);
      Regroup(Leaving(cache, lookup.cacheSize), Keys(Shrunk(cache, lookup.cacheSize)),
              Entering(registry, cache, lookup));
    } else {
      assert Keys(cache) + [] == [] + Keys(cache);
    }
  }

  lemma FinishIsSound(registry: Registry, asked: Lookup -> bool, bound: nat, s: State, id: nat)
    requires SizesWithin(asked, bound) && Sound(registry, asked, bound, s) && id in s.suspended
    ensures Sound(registry, asked, bound, Next(registry, s, Finish(id)).value)
  {
    var lookup, cache := s.suspended[id], s.cache;
    CompletingKeeps(registry, asked, bound, cache, lookup, s.builds);
    Regroup(s.evicted, Keys(cache), Entering(registry, cache, lookup));
    Regroup(s.evicted, Leaving(cache, lookup.cacheSize),
            Keys(Completed(registry, cache, lookup, Instance(lookup, s.builds))));
  }

  lemma BeginIsSound(registry: Registry, asked: Lookup -> bool, bound: nat, s: State,
                     collection: Collection, interpolated: string, cacheSize: nat)
    requires Sound(registry, asked, bound, s)
    requires collection.provider.Some? ==> asked(LookupOf(collection, interpolated, cacheSize))
    ensures Sound(registry, asked, bound, Next(registry, s, Begin(collection, interpolated, cacheSize)).value)
  {
    if Started(registry, s.cache, collection, interpolated, cacheSize).Hit? {
      FindIsMember(s.cache, KeyOf(registry, LookupOf(collection, interpolated, cacheSize).request));
    }
  }

  lemma {:induction false} AlwaysSound(registry: Registry, asked: Lookup -> bool, bound: nat, trace: Trace)
    requires SizesWithin(asked, bound) && OnlyAsks(trace, asked) && After(registry, trace).Some?
    ensures Sound(registry, asked, bound, After(registry, trace).value)
  {
    match trace
    case Nothing =>
    case Then(earlier, step) =>
      AlwaysSound(registry, asked, bound, earlier);
      var s := After(registry, earlier).value;
      if step.Begin? {
        BeginIsSound(registry, asked, bound, s, step.collection, step.interpolated, step.cacheSize);
      } else if step.Finish? {
        FinishIsSound(registry, asked, bound, s, step.id);
      }
  }

  /** The largest cache size that a run uses. */
  function Largest(trace: Trace): nat {
    match trace
    case Nothing => 0
    case Then(earlier, step) =>
      if step.Begin? && step.cacheSize > Largest(earlier) then step.cacheSize else Largest(earlier)
  }

  function Narrow(asked: Lookup -> bool, bound: nat): Lookup -> bool {
    (lookup: Lookup) => asked(lookup) && lookup.cacheSize <= bound
  }

  lemma {:induction false} AsksWithin(trace: Trace, asked: Lookup -> bool, bound: nat)
    requires OnlyAsks(trace, asked) && Largest(trace) <= bound
    ensures OnlyAsks(trace, Narrow(asked, bound))
  {
    if trace.Then? {
      AsksWithin(trace.earlier, asked, bound);
    }
  }

  lemma {:induction false} AnythingIsAsked(trace: Trace)
    ensures OnlyAsks(trace, _ => true)
  {
    if trace.Then? {
      AnythingIsAsked(trace.earlier);
    }
  }

  /**
   Under any interleaving the cache holds at most as many providers as were ever configured, one per
   key, and keys leave it in the order in which they entered, even if the configured size changes.
   */
  lemma BoundedAndFirstInFirstOut(registry: Registry, trace: Trace, s: State)
    requires After(registry, trace) == Some(s)
    ensures |s.cache| <= Largest(trace) && DistinctBy(s.cache, EntryKey)
    ensures s.evicted <= s.inserted && s.inserted[|s.evicted|..] == Keys(s.cache)
    ensures forall id <- s.suspended ::
      var t, size := Next(registry, s, Finish(id)).value, s.suspended[id].cacheSize;
      && (t.evicted != s.evicted ==> 0 < size <= |s.cache|)
      && (size == 0 ==> t.cache == s.cache)
  {
    AnythingIsAsked(trace);
    AsksWithin(trace, _ => true, Largest(trace));
    AlwaysSound(registry, Narrow(_ => true, Largest(trace)), Largest(trace), trace);
  }

  /** A provider that was just built with caching on is found by the next such lookup for the same request. */
  lemma JustBuiltIsFound(registry: Registry, s: State, id: nat, collection: Collection, cacheSize: nat)
    requires id in s.suspended && s.suspended[id].cacheSize > 0 && cacheSize > 0
    requires collection.provider.Some? && collection.provider.value.providerName in registry.registered
    requires s.suspended[id].request.collection == collection.identifier
    requires s.suspended[id].request.providerName == collection.provider.value.providerName
    ensures var lookup := s.suspended[id];
      Started(registry, Next(registry, s, Finish(id)).value.cache, collection, lookup.request.config, cacheSize)
      == Hit(Instance(lookup, s.builds))
  {
    var lookup := s.suspended[id];
    PutKeys(Shrunk(s.cache, lookup.cacheSize), Entry(KeyOf(registry, lookup.request), Instance(lookup, s.builds)));
  }

  // ---------------------------------------------------------------- when everybody gets what they asked for

  /** Every instance handed out was built for the very request. */
  predicate AllRight(s: State) {
    forall response <- s.responses :: response.instance.builtBy.request == response.lookup.request
  }

  /**
   Two lookups that may be made, with caching on, are for one collection and have equal digests of
   provider name and configuration, though these differ.
   */
  predicate Collide(registry: Registry, asked: Lookup -> bool, a: Lookup, b: Lookup) {
    && asked(a) && asked(b) && a.cacheSize > 0 && b.cacheSize > 0
    && a.request.providerName in registry.registered && b.request.providerName in registry.registered
    && a.request.collection == b.request.collection
    && (a.request.providerName != b.request.providerName || a.request.config != b.request.config)
    && registry.digest(a.request.providerName, a.request.config)
       == registry.digest(b.request.providerName, b.request.config)
  }

  /**
   In all interleavings of lookups of a certain kind everybody gets a provider built for its collection,
   provider name and configuration, exactly when no two lookups of that kind collide.
   */
  lemma AlwaysRightExactlyWhen(registry: Registry, asked: Lookup -> bool)
    ensures (forall trace :: OnlyAsks(trace, asked) && After(registry, trace).Some? ==>
               AllRight(After(registry, trace).value))
            <==> (forall a, b :: !Collide(registry, asked, a, b))
  {
    if a, b :| Collide(registry, asked, a, b) {
      var trace := CollidingRun(registry, asked, a, b);
    } else {
      forall trace | OnlyAsks(trace, asked) && After(registry, trace).Some?
        ensures AllRight(After(registry, trace).value)
      {
        AlwaysAnswers(registry, asked, trace);
        AnswersAreRight(registry, asked, After(registry, trace).value);
      }
    }
  }

  lemma AnswersAreRight(registry: Registry, asked: Lookup -> bool, s: State)
    requires forall a, b :: !Collide(registry, asked, a, b)
    requires forall response <- s.responses :: IsAnswer(registry, asked, response)
    ensures AllRight(s)
  {
    forall response | response in s.responses ensures response.instance.builtBy.request == response.lookup.request {
      assert !Collide(registry, asked, response.lookup, response.instance.builtBy);
    }
  }

  lemma AlwaysAnswers(registry: Registry, asked: Lookup -> bool, trace: Trace)
    requires OnlyAsks(trace, asked) && After(registry, trace).Some?
    ensures forall response <- After(registry, trace).value.responses :: IsAnswer(registry, asked, response)
  {
    var bound := Largest(trace);
    var narrow := Narrow(asked, bound);
    AsksWithin(trace, asked, bound);
    AlwaysSound(registry, narrow, bound, trace);
    forall response | response in After(registry, trace).value.responses ensures IsAnswer(registry, asked, response) {
      assert IsAnswer(registry, narrow, response);
    }
  }

  // ---------------------------------------------------------------- every lookup is answered once

  /** A lookup of a provider that exists begins. */
  predicate Asks(registry: Registry, step: Step) {
    && step.Begin? && step.collection.provider.Some?
    && step.collection.provider.value.providerName in registry.registered
  }

  function Asked(registry: Registry, trace: Trace): nat {
    if trace.Nothing? then 0 else Asked(registry, trace.earlier) + if Asks(registry, trace.step) then 1 else 0
  }

  function Finished(trace: Trace): nat {
    if trace.Nothing? then 0 else Finished(trace.earlier) + if trace.step.Finish? then 1 else 0
  }

  function Failed(trace: Trace): nat {
    if trace.Nothing? then 0 else Failed(trace.earlier) + if trace.step.Fail? then 1 else 0
  }

  lemma SizeAfter(m: map<nat, Lookup>, id: nat, lookup: Lookup)
    ensures id !in m ==> |m[id := lookup].Keys| == |m.Keys| + 1
    ensures id in m ==> |(m - {id}).Keys| == |m.Keys| - 1
  {
    assert m[id := lookup].Keys == m.Keys + {id};
    assert (m - {id}).Keys == m.Keys - {id};
  }

  lemma StepConserves(registry: Registry, s: State, step: Step)
    requires Next(registry, s, step).Some? && forall id <- s.suspended :: id < s.lookups
    ensures var t := Next(registry, s, step).value;
      && (forall id <- t.suspended :: id < t.lookups)
      && t.builds == s.builds + (if step.Finish? then 1 else 0)
      && |t.responses| + |t.suspended.Keys| + (if step.Fail? then 1 else 0) ==
         |s.responses| + |s.suspended.Keys| + (if Asks(registry, step) then 1 else 0)
  {
    if !step.Begin? {
      SizeAfter(s.suspended, step.id, s.suspended[step.id]);
    } else if Started(registry, s.cache, step.collection, step.interpolated, step.cacheSize).Miss? {
      SizeAfter(s.suspended, s.lookups, LookupOf(step.collection, step.interpolated, step.cacheSize));
    }
  }

  /** Every lookup for a provider that exists is answered once, suspended, or failed; each that finished built one. */
  lemma {:induction false} LookupsAreConserved(registry: Registry, trace: Trace, s: State)
    requires After(registry, trace) == Some(s)
    ensures forall id <- s.suspended :: id < s.lookups
    ensures Asked(registry, trace) == |s.responses| + |s.suspended.Keys| + Failed(trace)
    ensures s.builds == Finished(trace)
  {
    match trace
    case Nothing =>
    case Then(earlier, step) =>
      var before := After(registry, earlier).value;
      LookupsAreConserved(registry, earlier, before);
      StepConserves(registry, before, step);
  }

  /** What was handed out or is stored was built before, and is known by its number. */
  ghost predicate AreNumbered(s: State) {
    && (forall r <- s.responses :: r.instance.build < s.builds)
    && (forall q, r | q in s.responses && r in s.responses ::
          q.instance.build == r.instance.build ==> q.instance == r.instance)
    && (forall entry <- s.cache :: exists r :: r in s.responses && r.instance == entry.instance)
  }

  lemma {:induction false} PutMembers(cache: seq<Entry>, entry: Entry)
    ensures forall e <- Put(cache, entry, EntryKey) :: e == entry || e in cache
  {
    if cache != [] {
      PutMembers(cache[1..], entry);
    }
  }

  /** No two instances that are handed out share a number, and what is stored was handed out to who built it. */
  lemma {:induction false} AlwaysNumbered(registry: Registry, trace: Trace, s: State)
    requires After(registry, trace) == Some(s)
    ensures AreNumbered(s)
  {
    match trace
    case Nothing =>
    case Then(earlier, step) =>
      var before := After(registry, earlier).value;
      AlwaysNumbered(registry, earlier, before);
      match step
      case Begin(collection, interpolated, cacheSize) => BeginIsNumbered(registry, before, step);
      case Finish(id) => FinishIsNumbered(registry, before, id);
      case Fail(id) =>
  }

  lemma HitIsNumbered(s: State, last: Response)
    requires AreNumbered(s) && exists r :: r in s.responses && r.instance == last.instance
    ensures AreNumbered(s.(lookups := s.lookups + 1, responses := s.responses + [last]))
  {
    forall entry | entry in s.cache ensures exists q :: q in s.responses + [last] && q.instance == entry.instance {
      var q :| q in s.responses && q.instance == entry.instance;
      assert q in s.responses + [last];
    }
  }

  lemma BeginIsNumbered(registry: Registry, s: State, step: Step)
    requires AreNumbered(s) && step.Begin?
    ensures AreNumbered(Next(registry, s, step).value)
  {
    var start := Started(registry, s.cache, step.collection, step.interpolated, step.cacheSize);
    if start.Hit? {
      var lookup := LookupOf(step.collection, step.interpolated, step.cacheSize);
      FindIsMember(s.cache, KeyOf(registry, lookup.request));
      HitIsNumbered(s, Response(lookup, start.instance));
    }
  }

  lemma FinishIsNumbered(registry: Registry, s: State, id: nat)
    requires AreNumbered(s) && id in s.suspended
    ensures AreNumbered(Next(registry, s, Finish(id)).value)
  {
    var t, lookup := Next(registry, s, Finish(id)).value, s.suspended[id];
    var last := Response(lookup, Instance(lookup, s.builds));
    assert last in t.responses && forall r <- s.responses :: r in t.responses;
    PutMembers(Shrunk(s.cache, lookup.cacheSize), Entry(KeyOf(registry, lookup.request), last.instance));
    forall entry | entry in t.cache ensures exists q :: q in t.responses && q.instance == entry.instance {
      if entry.instance != last.instance {
        assert entry in s.cache;
        var q :| q in s.responses && q.instance == entry.instance;
        assert q in t.responses;
      }
    }
  }

  lemma Extend(registry: Registry, trace: Trace, s: State, step: Step) returns (longer: Trace, t: State)
    requires After(registry, trace) == Some(s) && Next(registry, s, step).Some?
    ensures longer == Then(trace, step) && After(registry, longer) == Some(t) && Some(t) == Next(registry, s, step)
  {
    longer, t := Then(trace, step), Next(registry, s, step).value;
  }

  function CollectionFor(r: Request): Collection {
    Collection(r.collection, Some(ProviderConfiguration(r.providerName, r.config)))
  }

  /** The second of two colliding lookups is answered with what was built for the first. */
  lemma CollidingRun(registry: Registry, asked: Lookup -> bool, a: Lookup, b: Lookup) returns (trace: Trace)
    requires Collide(registry, asked, a, b)
    ensures OnlyAsks(trace, asked) && After(registry, trace).Some? && !AllRight(After(registry, trace).value)
  {
    assert LookupOf(CollectionFor(a.request), a.request.config, a.cacheSize) == a;
    assert LookupOf(CollectionFor(b.request), b.request.config, b.cacheSize) == b;
    var s;
    trace, s := Extend(registry, Nothing, INITIAL, Begin(CollectionFor(a.request), a.request.config, a.cacheSize));
    assert OnlyAsks(trace, asked);
    assert s.cache == [] && 0 in s.suspended && s.suspended[0] == a && s.builds == 0;
    trace, s := Extend(registry, trace, s, Finish(0));
    assert OnlyAsks(trace, asked);
    assert s.cache == [Entry(KeyOf(registry, a.request), Instance(a, 0))];
    trace, s := Extend(registry, trace, s, Begin(CollectionFor(b.request), b.request.config, b.cacheSize));
    assert s.responses[|s.responses| - 1] == Response(b, Instance(a, 0));
  }

  // ---------------------------------------------------------------- the registry

  /** The module-level dictionary, and the two halves of a lookup around the await of the factory. */
  class FeatureProviders {
    const registry: Registry
    var entries: map<CacheKey, Instance>
    var order: seq<CacheKey>

    ghost predicate Valid()
      reads this
    {
      DistinctKeys(order) && forall key :: key in order <==> key in entries
    }

    ghost function Contents(): seq<Entry>
      requires Valid()
      reads this
    {
      Pairs(entries, order)
    }

    constructor (registry: Registry)
      ensures Valid() && this.registry == registry && Contents() == []
    {
      this.registry, entries, order := registry, map[], [];
    }

    method BeginLookup(collection: Collection, interpolated: string, cacheSize: nat) returns (r: Start)
      requires Valid()
      ensures r == Started(registry, Contents(), collection, interpolated, cacheSize)
      ensures r == NoProvider <==> collection.provider == None
      ensures r == UnknownProvider <==>
        collection.provider.Some? && collection.provider.value.providerName !in registry.registered
      ensures r.Miss? || r.Hit? ==>
        var name := collection.provider.value.providerName;
        var key := CacheKey(collection.identifier, registry.digest(name, interpolated));
        if cacheSize > 0 && key in entries then r == Hit(entries[key])
        else r == Miss(Lookup(Request(collection.identifier, name, interpolated), cacheSize))
    {
      if collection.provider.None? {
        return NoProvider;
      }
      var provider := collection.provider.value;
      if provider.providerName !in registry.registered {
        return UnknownProvider;
      }
      var request := Request(collection.identifier, provider.providerName, interpolated);
      if cacheSize == 0 {
        return Miss(Lookup(request, cacheSize));
      }
      var key := KeyOf(registry, request);
      FindInPairs(entries, order, key);
      if key in entries {
        return Hit(entries[key]);
      }
      r := Miss(Lookup(request, cacheSize));
    }

    method FinishLookup(lookup: Lookup, instance: Instance)
      requires Valid()
      modifies this
      ensures Valid() && Contents() == Completed(registry, old(Contents()), lookup, instance)
      ensures lookup.cacheSize > 0 ==>
        var key := CacheKey(lookup.request.collection,
                            registry.digest(lookup.request.providerName, lookup.request.config));
        key in entries && entries[key] == instance
    {
      if lookup.cacheSize == 0 {
        return;
      }
      if |order| >= lookup.cacheSize {
        DeleteFirst();
      }
      PutKeys(Contents(), Entry(KeyOf(registry, lookup.request), instance));
      Assign(KeyOf(registry, lookup.request), instance);
      FindInPairs(entries, order, KeyOf(registry, lookup.request));
    }

    /** Delete the key that comes first in the order. */
    method DeleteFirst()
      requires Valid() && order != []
      modifies this
      ensures Valid() && Contents() == old(Contents())[1..]
    {
      RestOfPairs(entries, order);
      entries, order := entries - {order[0]}, order[1..];
    }

    /** Assign to a key, which keeps its position if it has one. */
    method Assign(key: CacheKey, instance: Instance)
      requires Valid()
      modifies this
      ensures Valid() && Contents() == Put(old(Contents()), Entry(key, instance), EntryKey)
    {
      PutInPairs(entries, order, key, instance);
      if key !in entries {
        DistinctAppend(order, key);
        order := order + [key];
      }
      entries := entries[key := instance];
    }
  }

  ghost predicate DistinctKeys(keys: seq<CacheKey>) {
    forall i, j :: 0 <= i < j < |keys| ==> keys[i] != keys[j]
  }

  lemma DistinctAppend(keys: seq<CacheKey>, key: CacheKey)
    requires DistinctKeys(keys) && key !in keys
    ensures DistinctKeys(keys + [key])
  {
  }

  /** An insertion-ordered dictionary as the list of its items. */
  function Pairs(entries: map<CacheKey, Instance>, order: seq<CacheKey>): (items: seq<Entry>)
    requires forall key :: key in order ==> key in entries
    ensures |items| == |order|
    ensures forall i :: 0 <= i < |order| ==> items[i] == Entry(order[i], entries[order[i]])
  {
    seq(|order|, i requires 0 <= i < |order| => Entry(order[i], entries[order[i]]))
  }

  lemma {:induction false} FindInPairs(entries: map<CacheKey, Instance>, order: seq<CacheKey>, key: CacheKey)
    requires forall k :: k in order ==> k in entries
    ensures Find(Pairs(entries, order), key) == if key in order then Some(entries[key]) else None
  {
    if order != [] {
      FindInPairs(entries, order[1..], key);
      assert Pairs(entries, order)[1..] == Pairs(entries, order[1..]);
    }
  }

  lemma RestOfPairs(entries: map<CacheKey, Instance>, order: seq<CacheKey>)
    requires order != [] && DistinctKeys(order) && forall k :: k in order ==> k in entries
    ensures forall k :: k in order[1..] ==> k in order && k != order[0]
    ensures Pairs(entries - {order[0]}, order[1..]) == Pairs(entries, order)[1..]
  {
    forall k | k in order[1..] ensures k in order && k != order[0] {
      var i :| 0 <= i < |order[1..]| && order[1..][i] == k;
      assert order[i + 1] == k;
    }
  }

  lemma FirstOfPairs(entries: map<CacheKey, Instance>, first: CacheKey, rest: seq<CacheKey>)
    requires first in entries && forall k :: k in rest ==> k in entries
    ensures Pairs(entries, [first] + rest) == [Entry(first, entries[first])] + Pairs(entries, rest)
  {
  }

  lemma PairsAgree(entries: map<CacheKey, Instance>, order: seq<CacheKey>, key: CacheKey, instance: Instance)
    requires key !in order && forall k :: k in order ==> k in entries
    ensures Pairs(entries[key := instance], order) == Pairs(entries, order)
  {
  }

  lemma {:induction false} PutInPairs(entries: map<CacheKey, Instance>, order: seq<CacheKey>, key: CacheKey,
                                      instance: Instance)
    requires DistinctKeys(order) && forall k :: k in order ==> k in entries
    ensures var updated := if key in order then order else order + [key];
      Pairs(entries[key := instance], updated) == Put(Pairs(entries, order), Entry(key, instance), EntryKey)
  {
    if order != [] {
      var first, rest := order[0], order[1..];
      assert order == [first] + rest;
      FirstOfPairs(entries, first, rest);
      if first == key {
        assert key !in rest;
        FirstOfPairs(entries[key := instance], key, rest);
        PairsAgree(entries, rest, key, instance);
      } else {
        var updated := if key in rest then rest else rest + [key];
        PutInPairs(entries, rest, key, instance);
        FirstOfPairs(entries[key := instance], first, updated);
        assert [first] + updated == if key in order then order else order + [key];
      }
    }
  }
}
