/**
 What JSON schemas accept, and that the nullable rewrite preserves it. In a schema `nullable: true`
 says that null is also accepted; references are resolved in the document that is at hand.
 */
module NullableMeaning {
  import opened Wrappers
  import opened NullableRewrite

  /** The two versions differ in whether keywords beside a `$ref` count: in OpenAPI 3.0 they do not. */
  datatype Dialect = OAS30 | OAS31

  /** What a schema says about a value and its parts. */
  datatype Verdict = Verdict(onValue: bool, onItems: seq<bool>, onFields: map<Key, bool>)

  /** What the schemas that a keyword holds say. */
  datatype Held = One(verdict: Verdict) | Several(verdicts: seq<Verdict>) | ByName(named: map<Key, Verdict>)

  /**
   What a reader brings along: how keywords that contain no schemas constrain a value (keyword,
   argument, value), how the less common keywords that hold schemas do so (keyword, what the schemas
   say, value), and which component schema a reference names.
   */
  datatype Reading = Reading(holds: (Key, Json, Json) -> bool, combines: (Key, Held, Json) -> bool,
                             target: string -> Option<Key>)

  datatype Context = Context(dialect: Dialect, reading: Reading, doc: Json)

  ghost predicate ReadsNullType(r: Reading) {
    forall v :: r.holds(Type, Str("null"), v) <==> v.Null?
  }

  /** Keywords whose argument is, or holds, schemas or a reference to one. */
  predicate IsApplicator(k: Key) {
    k.AnyOf? || k.AllOf? || k.OneOf? || k.Not? || k.Items? || k.Properties? || k.AdditionalProperties? || k.Ref?
  }

  predicate IsHolder(k: Key) { k.HoldsOne? || k.HoldsList? || k.HoldsNamed? }

  predicate IsAssertion(k: Key) { !IsApplicator(k) && !IsHolder(k) && !k.Annotation? && !k.Nullable? }

  predicate IsNullable(f: map<Key, Json>) { Nullable in f && f[Nullable] == Bool(true) }

  function Get(j: Option<Json>, key: Key): Option<Json> {
    if j.Some? && j.value.Obj? && key in j.value.fields then Some(j.value.fields[key]) else None
  }

  /** The component schema a reference points to. */
  function Resolve(c: Context, ref: Json): Option<Json> {
    if !ref.Str? || c.reading.target(ref.s).None? then None
    else Get(Get(Get(Some(c.doc), Components), Schemas), c.reading.target(ref.s).value)
  }

  // ---------------------------------------------------------------- what a schema accepts

  /** Whether a schema accepts a value, following at most `depth` references along any path. */
  ghost predicate Accepts(c: Context, depth: nat, schema: Json, v: Json)
    decreases depth, Height(schema), 0
  {
    match schema
    case Bool(b) => b
    case Obj(f) =>
      assert Height(schema) == 1 + MapHeight(f);
      if c.dialect.OAS30? && Ref in f then Follow(c, depth, f[Ref], v)
      else (IsNullable(f) && v.Null?) || KeywordsHold(c, depth, f, v)
    case _ => true
  }

  ghost predicate Follow(c: Context, depth: nat, ref: Json, v: Json)
    decreases depth, 0, 1
  {
    depth > 0 && Resolve(c, ref).Some? && Accepts(c, depth - 1, Resolve(c, ref).value, v)
  }

  ghost predicate KeywordsHold(c: Context, depth: nat, f: map<Key, Json>, v: Json)
    decreases depth, MapHeight(f), 4
  {
    && CombinationsHold(c, depth, f, v)
    && PartsHold(c, depth, f, v)
    && HoldersHold(c, depth, f, v)
    && (Ref in f ==> Follow(c, depth, f[Ref], v))
    && AssertionsHold(c, f, v)
  }

  predicate AssertionsHold(c: Context, f: map<Key, Json>, v: Json) {
    forall k <- f :: IsAssertion(k) ==> c.reading.holds(k, f[k], v)
  }

  /** The keywords that combine the verdicts of several schemas, or negate one. */
  ghost predicate CombinationsHold(c: Context, depth: nat, f: map<Key, Json>, v: Json)
    decreases depth, MapHeight(f), 2
  {
    && (AnyOf in f && f[AnyOf].Arr? ==> true in Verdicts(c, depth, f[AnyOf].items, v))
    && (AllOf in f && f[AllOf].Arr? ==> false !in Verdicts(c, depth, f[AllOf].items, v))
    && (OneOf in f && f[OneOf].Arr? ==> multiset(Verdicts(c, depth, f[OneOf].items, v))[true] == 1)
    && (Not in f ==> !Accepts(c, depth, f[Not], v))
  }

  /** Each schema's verdict on a value. */
  ghost function Verdicts(c: Context, depth: nat, schemas: seq<Json>, v: Json): (verdicts: seq<bool>)
    ensures |verdicts| == |schemas|
    ensures forall i :: 0 <= i < |schemas| ==> verdicts[i] == Accepts(c, depth, schemas[i], v)
    decreases depth, SeqHeight(schemas), 1 + |schemas|
  {
    if schemas == [] then [] else [Accepts(c, depth, schemas[0], v)] + Verdicts(c, depth, schemas[1..], v)
  }

  /** The less common keywords that hold schemas. */
  ghost predicate HoldersHold(c: Context, depth: nat, f: map<Key, Json>, v: Json)
    decreases depth, MapHeight(f), 3
  {
    forall k <- f :: IsHolder(k) ==> c.reading.combines(k, HeldBy(c, depth, k, f[k], v), v)
  }

  ghost function HeldBy(c: Context, depth: nat, k: Key, arg: Json, v: Json): Held
    decreases depth, Height(arg), 2
  {
    if k.HoldsList? && arg.Arr? then Several(VerdictsOn(c, depth, arg.items, v))
    else if k.HoldsNamed? && arg.Obj? then
      FieldsAreLower(arg.fields);
      ByName(map name <- arg.fields :: VerdictOn(c, depth, arg.fields[name], v))
    else One(VerdictOn(c, depth, arg, v))
  }

  ghost function VerdictOn(c: Context, depth: nat, schema: Json, v: Json): Verdict
    decreases depth, Height(schema), 1
  {
    Verdict(Accepts(c, depth, schema, v),
            if v.Arr? then seq(|v.items|, i requires 0 <= i < |v.items| => Accepts(c, depth, schema, v.items[i]))
            else [],
            if v.Obj? then map name <- v.fields :: Accepts(c, depth, schema, v.fields[name]) else map[])
  }

  ghost function VerdictsOn(c: Context, depth: nat, schemas: seq<Json>, v: Json): (verdicts: seq<Verdict>)
    ensures |verdicts| == |schemas|
    ensures forall i :: 0 <= i < |schemas| ==> verdicts[i] == VerdictOn(c, depth, schemas[i], v)
    decreases depth, SeqHeight(schemas), 2 + |schemas|
  {
    if schemas == [] then [] else [VerdictOn(c, depth, schemas[0], v)] + VerdictsOn(c, depth, schemas[1..], v)
  }

  function Declared(f: map<Key, Json>): set<Key> {
    if Properties in f && f[Properties].Obj? then f[Properties].fields.Keys else {}
  }

  /** The keywords that constrain the parts of an array or object. */
  ghost predicate PartsHold(c: Context, depth: nat, f: map<Key, Json>, v: Json)
    decreases depth, MapHeight(f), 2
  {
    && (Items in f && v.Arr? ==> forall x <- v.items :: Accepts(c, depth, f[Items], x))
    && (Properties in f && f[Properties].Obj? && v.Obj? ==>
          (FieldsAreLower(f[Properties].fields);
           forall p <- f[Properties].fields :: p in v.fields ==>
             Accepts(c, depth, f[Properties].fields[p], v.fields[p])))
    && (AdditionalProperties in f && v.Obj? ==>
          forall p <- v.fields :: p !in Declared(f) ==> Accepts(c, depth, f[AdditionalProperties], v.fields[p]))
  }

  // ---------------------------------------------------------------- the schemas it is meant for

  /** A nullable `anyOf` says something besides null, and stands beside annotations only. */
  predicate IsPlainNullable(f: map<Key, Json>)
    requires HasNullBranch(f)
  {
    && NonNull(f[AnyOf].items) != []
    && forall k <- f :: k.AnyOf? || k.Nullable? || k.Annotation?
  }

  /** Schemas as the rewrite expects them; a sole branch may well be nullable itself. */
  ghost predicate Suitable(schema: Json)
    decreases Height(schema), 0
  {
    match schema
    case Bool(_) => true
    case Obj(f) =>
      assert Height(schema) == 1 + MapHeight(f);
      && !IsMalformed(f)
      && SuitableParts(f)
      && (HasNullBranch(f) ==> IsPlainNullable(f))
      && (Ref in f ==> forall k <- f :: k.Ref? || k.Annotation?)
    case _ => false
  }

  ghost predicate SuitableParts(f: map<Key, Json>)
    decreases MapHeight(f), 3
  {
    && (AnyOf in f ==> f[AnyOf].Arr? && SuitableList(f[AnyOf].items))
    && (AllOf in f ==> f[AllOf].Arr? && SuitableList(f[AllOf].items))
    && (OneOf in f ==> f[OneOf].Arr? && SuitableList(f[OneOf].items))
    && (Not in f ==> Suitable(f[Not]))
    && (Items in f ==> Suitable(f[Items]))
    && (AdditionalProperties in f ==> Suitable(f[AdditionalProperties]))
    && (Properties in f ==>
          f[Properties].Obj? && (FieldsAreLower(f[Properties].fields); SuitableSchemas(f[Properties].fields)))
    && (Ref in f ==> f[Ref].Str?)
    && (forall k <- f :: IsHolder(k) ==> SuitableHolder(k, f[k]))
    && (forall k <- f :: !IsApplicator(k) && !IsHolder(k) ==> !Raises(f[k]) && (IsAssertion(k) ==> Clean(f[k])))
  }

  ghost predicate SuitableHolder(k: Key, arg: Json)
    decreases Height(arg), 2
  {
    if k.HoldsList? then arg.Arr? && SuitableList(arg.items)
    else if k.HoldsNamed? then arg.Obj? && (FieldsAreLower(arg.fields); SuitableSchemas(arg.fields))
    else Suitable(arg)
  }

  ghost predicate SuitableList(schemas: seq<Json>)
    decreases SeqHeight(schemas), 1
  {
    forall s <- schemas :: Suitable(s)
  }

  /** Named schemas. The walk takes such a dictionary for a schema too, so the name `anyOf` needs care. */
  ghost predicate SuitableSchemas(schemas: map<Key, Json>)
    decreases MapHeight(schemas), 1
  {
    && (forall p <- schemas :: Suitable(schemas[p]))
    && (AnyOf in schemas ==> schemas[AnyOf].Obj?)
  }

  ghost predicate SuitableDocument(doc: Json) {
    && doc.Obj? && !HasNullBranch(doc.fields)
    && var components := Get(Some(doc), Components);
      (components.Some? ==>
         && components.value.Obj? && !HasNullBranch(components.value.fields)
         && var schemas := Get(components, Schemas);
           schemas.Some? ==> schemas.value.Obj? && SuitableSchemas(schemas.value.fields))
  }

  // ---------------------------------------------------------------- one dictionary

  lemma NullSchemaAccepts(c: Context, depth: nat, v: Json)
    requires ReadsNullType(c.reading)
    ensures Accepts(c, depth, NULL_SCHEMA, v) <==> v.Null?
  {
    var f := NULL_SCHEMA.fields;
    assert f.Keys == {Type} && !IsNullable(f);
    assert CombinationsHold(c, depth, f, v) && PartsHold(c, depth, f, v) && HoldersHold(c, depth, f, v);
    assert AssertionsHold(c, f, v) <==> c.reading.holds(Type, f[Type], v);
    assert Accepts(c, depth, Obj(f), v) <==> KeywordsHold(c, depth, f, v);
  }

  predicate IsNote(k: Key) { k.Nullable? || k.Annotation? }

  lemma {:induction false} OnlyAnyOf(c: Context, depth: nat, f: map<Key, Json>, v: Json)
    requires AnyOf in f && f[AnyOf].Arr? && forall k <- f :: k.AnyOf? || IsNote(k)
    ensures KeywordsHold(c, depth, f, v) <==> true in Verdicts(c, depth, f[AnyOf].items, v)
  {
    assert AllOf !in f && OneOf !in f && Not !in f && Ref !in f;
    assert Items !in f && Properties !in f && AdditionalProperties !in f;
    assert HoldersHold(c, depth, f, v) && AssertionsHold(c, f, v);
  }

  lemma OnlyAllOf(c: Context, depth: nat, f: map<Key, Json>, v: Json)
    requires AllOf in f && f[AllOf].Arr? && forall k <- f :: k.AllOf? || IsNote(k)
    ensures KeywordsHold(c, depth, f, v) <==> false !in Verdicts(c, depth, f[AllOf].items, v)
  {
    assert AnyOf !in f && OneOf !in f && Not !in f && Ref !in f;
    assert Items !in f && Properties !in f && AdditionalProperties !in f;
    assert HoldersHold(c, depth, f, v) && AssertionsHold(c, f, v);
  }

  /** A nullable `anyOf` accepts null and what its other branches accept. */
  lemma NullableAnyOf(c: Context, depth: nat, f: map<Key, Json>, v: Json)
    requires ReadsNullType(c.reading) && HasNullBranch(f) && IsPlainNullable(f)
    ensures Accepts(c, depth, Obj(f), v) <==> v.Null? || true in Verdicts(c, depth, NonNull(f[AnyOf].items), v)
  {
    OnlyAnyOf(c, depth, f, v);
    assert Accepts(c, depth, Obj(f), v) <==> (IsNullable(f) && v.Null?) || KeywordsHold(c, depth, f, v);
    NonNullVerdicts(c, depth, f[AnyOf].items, v);
  }

  lemma NonNullVerdicts(c: Context, depth: nat, branches: seq<Json>, v: Json)
    requires ReadsNullType(c.reading) && NULL_SCHEMA in branches
    ensures true in Verdicts(c, depth, branches, v) <==> v.Null? || true in Verdicts(c, depth, NonNull(branches), v)
  {
    NullSchemaAccepts(c, depth, v);
    TrueVerdict(c, depth, branches, v);
    TrueVerdict(c, depth, NonNull(branches), v);
  }

  lemma TrueVerdict(c: Context, depth: nat, schemas: seq<Json>, v: Json)
    ensures true in Verdicts(c, depth, schemas, v) <==> exists s <- schemas :: Accepts(c, depth, s, v)
  {
    var verdicts := Verdicts(c, depth, schemas, v);
    if s :| s in schemas && Accepts(c, depth, s, v) {
      var i :| 0 <= i < |schemas| && schemas[i] == s;
      assert verdicts[i];
    }
  }

  /** The rewrite of one dictionary keeps what it accepts, once null is set apart. */
  lemma LocalPreserves(c: Context, depth: nat, f: map<Key, Json>, v: Json)
    requires ReadsNullType(c.reading) && HasNullBranch(f) && IsPlainNullable(f) && SoleIsSchema(NonNull(f[AnyOf].items))
    ensures Accepts(c, depth, Obj(f), v) <==> v.Null? || KeywordsHold(c, depth, Local(f), v)
    ensures Ref !in Local(f)
  {
    NullableAnyOf(c, depth, f, v);
    var nonNull, g := NonNull(f[AnyOf].items), Local(f);
    if |nonNull| > 1 {
      OnlyAnyOf(c, depth, g, v);
    } else {
      var sole := nonNull[0];
      assert nonNull == [sole];
      SoleVerdict(c, depth, sole, v);
      if Ref in sole.fields {
        OnlyAllOf(c, depth, g, v);
      } else {
        MergePreserves(c, depth, f - {AnyOf}, sole.fields, v);
      }
    }
  }

  /** A sole branch is a dictionary, as one is when it is a schema and the rewrite does not choke on it. */
  predicate SoleIsSchema(nonNull: seq<Json>) { |nonNull| == 1 ==> nonNull[0].Obj? }

  lemma SoleBranchIsSchema(f: map<Key, Json>)
    requires HasNullBranch(f) && !IsMalformed(f) && SuitableList(f[AnyOf].items)
    ensures SoleIsSchema(NonNull(f[AnyOf].items))
  {
    var nonNull := NonNull(f[AnyOf].items);
    if |nonNull| == 1 {
      assert nonNull[0] in nonNull && Suitable(nonNull[0]);
    }
  }

  lemma SoleVerdict(c: Context, depth: nat, sole: Json, v: Json)
    ensures true in Verdicts(c, depth, [sole], v) <==> Accepts(c, depth, sole, v)
    ensures false in Verdicts(c, depth, [sole], v) <==> !Accepts(c, depth, sole, v)
  {
    assert Verdicts(c, depth, [sole], v)[0] == Accepts(c, depth, sole, v);
  }

  lemma MergePreserves(c: Context, depth: nat, rest: map<Key, Json>, sole: map<Key, Json>, v: Json)
    requires Ref !in sole && forall k <- rest :: IsNote(k)
    ensures v.Null? || KeywordsHold(c, depth, (rest + sole)[Nullable := Bool(true)], v) <==>
            v.Null? || Accepts(c, depth, Obj(sole), v)
  {
    var g := (rest + sole)[Nullable := Bool(true)];
    assert SameButNotes(sole, g);
    SameKeywords(c, depth, sole, g, v);
    assert Accepts(c, depth, Obj(sole), v) <==> (IsNullable(sole) && v.Null?) || KeywordsHold(c, depth, sole, v);
  }

  /** The same keywords, whatever the notes. */
  ghost predicate SameButNotes(f: map<Key, Json>, g: map<Key, Json>) {
    forall k: Key :: !IsNote(k) ==> (k in g <==> k in f) && (k in f ==> g[k] == f[k])
  }

  lemma SameCombinations(c: Context, depth: nat, f: map<Key, Json>, g: map<Key, Json>, v: Json)
    requires SameButNotes(f, g)
    ensures CombinationsHold(c, depth, f, v) <==> CombinationsHold(c, depth, g, v)
  {
    assert forall k: Key :: IsApplicator(k) ==> (k in g <==> k in f) && (k in f ==> g[k] == f[k]);
  }

  lemma SameParts(c: Context, depth: nat, f: map<Key, Json>, g: map<Key, Json>, v: Json)
    requires SameButNotes(f, g)
    ensures PartsHold(c, depth, f, v) <==> PartsHold(c, depth, g, v)
  {
    assert forall k: Key :: IsApplicator(k) ==> (k in g <==> k in f) && (k in f ==> g[k] == f[k]);
  }

  lemma SameHolders(c: Context, depth: nat, f: map<Key, Json>, g: map<Key, Json>, v: Json)
    requires SameButNotes(f, g)
    ensures HoldersHold(c, depth, f, v) <==> HoldersHold(c, depth, g, v)
  {
    assert forall k: Key :: IsHolder(k) ==> (k in g <==> k in f) && (k in f ==> g[k] == f[k]);
  }

  lemma SameKeywords(c: Context, depth: nat, f: map<Key, Json>, g: map<Key, Json>, v: Json)
    requires SameButNotes(f, g)
    ensures KeywordsHold(c, depth, f, v) <==> KeywordsHold(c, depth, g, v)
  {
    SameCombinations(c, depth, f, g, v);
    SameParts(c, depth, f, g, v);
    SameHolders(c, depth, f, g, v);
    assert !IsNote(Ref);
    assert AssertionsHold(c, f, v) <==> AssertionsHold(c, g, v);
  }

  /** What the rewritten dictionary holds is suitable again. */
  lemma LocalIsSuitable(f: map<Key, Json>)
    requires Suitable(Obj(f))
    ensures SuitableParts(Local(f))
  {
    if HasNullBranch(f) {
      var branches := f[AnyOf].items;
      assert SuitableList(branches);
      assert forall s <- NonNull(branches) :: s in branches && Suitable(s);
      SoleBranchIsSchema(f);
      MergeIsSuitable(f - {AnyOf}, NonNull(branches));
    }
  }

  ghost predicate QuietNotes(rest: map<Key, Json>) {
    forall k <- rest :: IsNote(k) && !Raises(rest[k])
  }

  lemma MergeIsSuitable(rest: map<Key, Json>, nonNull: seq<Json>)
    requires SuitableList(nonNull) && nonNull != [] && SoleIsSchema(nonNull)
    requires QuietNotes(rest)
    ensures SuitableParts(Merge(rest, nonNull)[Nullable := Bool(true)])
  {
    if |nonNull| > 1 {
      ListBesideNotes(rest, AnyOf, nonNull);
    } else {
      var sole := nonNull[0];
      assert sole in nonNull && SuitableParts(sole.fields);
      if Ref in sole.fields {
        assert nonNull == [sole];
        ListBesideNotes(rest, AllOf, nonNull);
      } else {
        UnionWithNotes(rest, sole.fields);
      }
    }
  }

  lemma ListBesideNotes(rest: map<Key, Json>, k: Key, schemas: seq<Json>)
    requires QuietNotes(rest) && SuitableList(schemas) && (k.AnyOf? || k.AllOf?)
    ensures SuitableParts(rest[k := Arr(schemas)][Nullable := Bool(true)])
  {
    var g := rest[k := Arr(schemas)][Nullable := Bool(true)];
    assert OneOf !in g && Not !in g && Ref !in g && Items !in g && Properties !in g && AdditionalProperties !in g;
  }

  lemma UnionWithNotes(rest: map<Key, Json>, sole: map<Key, Json>)
    requires QuietNotes(rest) && SuitableParts(sole)
    ensures SuitableParts((rest + sole)[Nullable := Bool(true)])
  {
    var g := (rest + sole)[Nullable := Bool(true)];
    assert forall k: Key :: !IsNote(k) ==> (k in g <==> k in sole) && (k in sole ==> g[k] == sole[k]);
    assert forall k <- g :: !IsApplicator(k) && !IsHolder(k) ==> !Raises(g[k]);
    assert forall k <- g :: IsHolder(k) ==> SuitableHolder(k, g[k]);
  }

  // ---------------------------------------------------------------- the whole document

  lemma GetCommutes(j: Option<Json>, key: Key)
    requires j.Some? && j.value.Obj? ==> !HasNullBranch(j.value.fields)
    ensures Get(if j.Some? then Some(Fix(j.value)) else None, key) ==
            if Get(j, key).Some? then Some(Fix(Get(j, key).value)) else None
  {
  }

  /** The reader of the rewritten document. */
  function After(c: Context, e: Dialect): Context { Context(e, c.reading, Fix(c.doc)) }

  /** References resolve in the rewritten document to the rewrites of what they resolved to. */
  lemma ResolveCommutes(c: Context, e: Dialect, ref: Json)
    requires SuitableDocument(c.doc)
    ensures Resolve(c, ref).Some? ==> Suitable(Resolve(c, ref).value)
    ensures Resolve(After(c, e), ref) == if Resolve(c, ref).Some? then Some(Fix(Resolve(c, ref).value)) else None
  {
    GetCommutes(Some(c.doc), Components);
    var components := Get(Some(c.doc), Components);
    GetCommutes(components, Schemas);
    if ref.Str? && c.reading.target(ref.s).Some? {
      GetCommutes(Get(components, Schemas), c.reading.target(ref.s).value);
    }
  }

  /**
   Every suitable schema of a suitable document accepts after the rewrite what it accepted before,
   with references resolved in the rewritten document, whether the two are read by the same version
   of OpenAPI or, as intended, by 3.1 before and by 3.0 after.
   */
  lemma {:induction false} MeaningIsPreserved(c: Context, e: Dialect, depth: nat, schema: Json, v: Json)
    requires ReadsNullType(c.reading) && SuitableDocument(c.doc) && Suitable(schema)
    ensures Accepts(c, depth, schema, v) <==> Accepts(After(c, e), depth, Fix(schema), v)
    decreases depth, Height(schema), 0
  {
    if schema.Obj? {
      var f, h := schema.fields, Fix(schema).fields;
      LocalIsNotHigher(f);
      assert Height(schema) == 1 + MapHeight(f);
      if HasNullBranch(f) {
        NullableIsPreserved(c, e, depth, f, h, v);
      } else if Ref in f {
        RefIsPreserved(c, e, depth, f, h, v);
      } else {
        KeywordsArePreserved(c, e, depth, f, h, MapHeight(f), v);
        assert IsNullable(h) <==> IsNullable(f);
      }
    }
  }

  /** `h` holds the rewrites of what `g` holds. */
  predicate IsFixed(g: map<Key, Json>, h: map<Key, Json>) {
    h.Keys == g.Keys && forall k <- g :: h[k] == Fix(g[k])
  }

  lemma {:induction false} NullableIsPreserved(c: Context, e: Dialect, depth: nat, f: map<Key, Json>,
                                               h: map<Key, Json>, v: Json)
    requires ReadsNullType(c.reading) && SuitableDocument(c.doc) && Suitable(Obj(f)) && HasNullBranch(f)
    requires IsFixed(Local(f), h)
    ensures Accepts(c, depth, Obj(f), v) <==> Accepts(After(c, e), depth, Obj(h), v)
    decreases depth, MapHeight(f), 5
  {
    LocalIsNotHigher(f);
    LocalIsSuitable(f);
    KeywordsArePreserved(c, e, depth, Local(f), h, MapHeight(f), v);
    SoleBranchIsSchema(f);
    LocalPreserves(c, depth, f, v);
    assert h[Nullable] == Fix(Bool(true)) && Ref !in h;
  }

  lemma {:induction false} RefIsPreserved(c: Context, e: Dialect, depth: nat, f: map<Key, Json>, h: map<Key, Json>,
                                          v: Json)
    requires ReadsNullType(c.reading) && SuitableDocument(c.doc) && Suitable(Obj(f)) && Ref in f
    requires IsFixed(f, h)
    ensures Accepts(c, depth, Obj(f), v) <==> Accepts(After(c, e), depth, Obj(h), v)
    decreases depth, 0, 2
  {
    OnlyRef(c, depth, f, v);
    OnlyRef(After(c, e), depth, h, v);
    FollowIsPreserved(c, e, depth, f[Ref], v);
  }

  lemma OnlyRef(c: Context, depth: nat, f: map<Key, Json>, v: Json)
    requires Ref in f && forall k <- f :: k.Ref? || k.Annotation?
    ensures Accepts(c, depth, Obj(f), v) <==> Follow(c, depth, f[Ref], v)
  {
    assert CombinationsHold(c, depth, f, v) && PartsHold(c, depth, f, v);
    assert HoldersHold(c, depth, f, v) && AssertionsHold(c, f, v);
  }

  lemma {:induction false} FollowIsPreserved(c: Context, e: Dialect, depth: nat, ref: Json, v: Json)
    requires ReadsNullType(c.reading) && SuitableDocument(c.doc) && ref.Str?
    ensures Follow(c, depth, ref, v) <==> Follow(After(c, e), depth, Fix(ref), v)
    decreases depth, 0, 1
  {
    ResolveCommutes(c, e, ref);
    if depth > 0 && Resolve(c, ref).Some? {
      MeaningIsPreserved(c, e, depth - 1, Resolve(c, ref).value, v);
    }
  }

  lemma {:induction false} KeywordsArePreserved(c: Context, e: Dialect, depth: nat,
                                                g: map<Key, Json>, h: map<Key, Json>, bound: nat, v: Json)
    requires ReadsNullType(c.reading) && SuitableDocument(c.doc)
    requires SuitableParts(g) && Within(g, bound) && IsFixed(g, h)
    ensures KeywordsHold(c, depth, g, v) <==> KeywordsHold(After(c, e), depth, h, v)
    decreases depth, bound, 4
  {
    CombinationsArePreserved(c, e, depth, g, h, bound, v);
    PartsArePreserved(c, e, depth, g, h, bound, v);
    HoldersArePreserved(c, e, depth, g, h, bound, v);
    if Ref in g {
      FollowIsPreserved(c, e, depth, g[Ref], v);
    }
    forall k | k in g && IsAssertion(k) ensures h[k] == g[k] {
      FixedExactlyWhenClean(g[k]);
    }
    assert AssertionsHold(c, g, v) <==> AssertionsHold(After(c, e), h, v);
  }

  lemma {:induction false} CombinationsArePreserved(c: Context, e: Dialect, depth: nat,
                                                    g: map<Key, Json>, h: map<Key, Json>, bound: nat, v: Json)
    requires ReadsNullType(c.reading) && SuitableDocument(c.doc)
    requires SuitableParts(g) && Within(g, bound) && IsFixed(g, h)
    ensures CombinationsHold(c, depth, g, v) <==> CombinationsHold(After(c, e), depth, h, v)
    decreases depth, bound, 3
  {
    ListIsPreserved(c, e, depth, AnyOf, g, h, bound, v);
    ListIsPreserved(c, e, depth, AllOf, g, h, bound, v);
    ListIsPreserved(c, e, depth, OneOf, g, h, bound, v);
    if Not in g {
      MeaningIsPreserved(c, e, depth, g[Not], v);
    }
  }

  lemma {:induction false} ListIsPreserved(c: Context, e: Dialect, depth: nat, k: Key,
                                           g: map<Key, Json>, h: map<Key, Json>, bound: nat, v: Json)
    requires ReadsNullType(c.reading) && SuitableDocument(c.doc) && Within(g, bound) && IsFixed(g, h)
    requires k in g ==> g[k].Arr? && SuitableList(g[k].items)
    ensures k in h ==> h[k].Arr? && Verdicts(c, depth, g[k].items, v) == Verdicts(After(c, e), depth, h[k].items, v)
    decreases depth, bound, 2
  {
    if k in g {
      assert Height(g[k]) == 1 + SeqHeight(g[k].items);
      VerdictsArePreserved(c, e, depth, g[k].items, v);
    }
  }

  lemma {:induction false} VerdictsArePreserved(c: Context, e: Dialect, depth: nat, schemas: seq<Json>, v: Json)
    requires ReadsNullType(c.reading) && SuitableDocument(c.doc) && SuitableList(schemas)
    ensures Verdicts(c, depth, schemas, v) == Verdicts(After(c, e), depth, FixItems(schemas), v)
    decreases depth, SeqHeight(schemas), 2
  {
    forall i | 0 <= i < |schemas|
      ensures Accepts(c, depth, schemas[i], v) <==> Accepts(After(c, e), depth, FixItems(schemas)[i], v)
    {
      assert schemas[i] in schemas;
      MeaningIsPreserved(c, e, depth, schemas[i], v);
    }
  }

  lemma {:induction false} PartsArePreserved(c: Context, e: Dialect, depth: nat,
                                             g: map<Key, Json>, h: map<Key, Json>, bound: nat, v: Json)
    requires ReadsNullType(c.reading) && SuitableDocument(c.doc)
    requires SuitableParts(g) && Within(g, bound) && IsFixed(g, h)
    ensures PartsHold(c, depth, g, v) <==> PartsHold(After(c, e), depth, h, v)
    decreases depth, bound, 3
  {
    assert Declared(g) == Declared(h);
    if Items in g && v.Arr? {
      forall x | x in v.items ensures Accepts(c, depth, g[Items], x) <==> Accepts(After(c, e), depth, h[Items], x) {
        MeaningIsPreserved(c, e, depth, g[Items], x);
      }
    }
    if Properties in g && v.Obj? {
      PropertiesArePreserved(c, e, depth, g[Properties], v);
    }
    if AdditionalProperties in g && v.Obj? {
      forall p | p in v.fields
        ensures Accepts(c, depth, g[AdditionalProperties], v.fields[p]) <==>
                Accepts(After(c, e), depth, h[AdditionalProperties], v.fields[p])
      {
        MeaningIsPreserved(c, e, depth, g[AdditionalProperties], v.fields[p]);
      }
    }
  }

  lemma {:induction false} PropertiesArePreserved(c: Context, e: Dialect, depth: nat, arg: Json, v: Json)
    requires ReadsNullType(c.reading) && SuitableDocument(c.doc) && v.Obj? && arg.Obj? && SuitableSchemas(arg.fields)
    ensures IsFixed(arg.fields, Fix(arg).fields)
    ensures forall p <- arg.fields :: p in v.fields ==>
      (Accepts(c, depth, arg.fields[p], v.fields[p]) <==> Accepts(After(c, e), depth, Fix(arg).fields[p], v.fields[p]))
    decreases depth, Height(arg), 1
  {
    FieldsAreLower(arg.fields);
    forall p | p in arg.fields && p in v.fields
      ensures Accepts(c, depth, arg.fields[p], v.fields[p]) <==>
              Accepts(After(c, e), depth, Fix(arg).fields[p], v.fields[p])
    {
      MeaningIsPreserved(c, e, depth, arg.fields[p], v.fields[p]);
    }
  }

  lemma {:induction false} HoldersArePreserved(c: Context, e: Dialect, depth: nat,
                                               g: map<Key, Json>, h: map<Key, Json>, bound: nat, v: Json)
    requires ReadsNullType(c.reading) && SuitableDocument(c.doc)
    requires SuitableParts(g) && Within(g, bound) && IsFixed(g, h)
    ensures HoldersHold(c, depth, g, v) <==> HoldersHold(After(c, e), depth, h, v)
    decreases depth, bound, 3
  {
    forall k | k in g && IsHolder(k) ensures HeldBy(c, depth, k, g[k], v) == HeldBy(After(c, e), depth, k, h[k], v) {
      HeldIsPreserved(c, e, depth, k, g[k], v);
    }
  }

  lemma {:induction false} HeldIsPreserved(c: Context, e: Dialect, depth: nat, k: Key, arg: Json, v: Json)
    requires ReadsNullType(c.reading) && SuitableDocument(c.doc) && IsHolder(k) && SuitableHolder(k, arg)
    ensures HeldBy(c, depth, k, arg, v) == HeldBy(After(c, e), depth, k, Fix(arg), v)
    decreases depth, Height(arg), 2
  {
    if k.HoldsList? {
      HeldListIsPreserved(c, e, depth, arg.items, v);
    } else if k.HoldsNamed? {
      HeldNamesArePreserved(c, e, depth, arg.fields, Fix(arg).fields, v);
    } else {
      VerdictIsPreserved(c, e, depth, arg, v);
    }
  }

  lemma {:induction false} HeldListIsPreserved(c: Context, e: Dialect, depth: nat, schemas: seq<Json>, v: Json)
    requires ReadsNullType(c.reading) && SuitableDocument(c.doc) && SuitableList(schemas)
    ensures VerdictsOn(c, depth, schemas, v) == VerdictsOn(After(c, e), depth, FixItems(schemas), v)
    decreases depth, SeqHeight(schemas), 2
  {
    forall i | 0 <= i < |schemas|
      ensures VerdictOn(c, depth, schemas[i], v) == VerdictOn(After(c, e), depth, FixItems(schemas)[i], v)
    {
      assert schemas[i] in schemas;
      VerdictIsPreserved(c, e, depth, schemas[i], v);
    }
  }

  lemma {:induction false} HeldNamesArePreserved(c: Context, e: Dialect, depth: nat,
                                                 named: map<Key, Json>, fixed: map<Key, Json>, v: Json)
    requires ReadsNullType(c.reading) && SuitableDocument(c.doc) && SuitableSchemas(named)
    requires fixed == Fix(Obj(named)).fields
    ensures fixed.Keys == named.Keys
    ensures forall name <- named :: VerdictOn(c, depth, named[name], v) == VerdictOn(After(c, e), depth, fixed[name], v)
    decreases depth, Height(Obj(named)), 1
  {
    FieldsAreLower(named);
    assert IsFixed(named, fixed);
    forall name | name in named
      ensures VerdictOn(c, depth, named[name], v) == VerdictOn(After(c, e), depth, fixed[name], v)
    {
      VerdictIsPreserved(c, e, depth, named[name], v);
    }
  }

  lemma {:induction false} VerdictIsPreserved(c: Context, e: Dialect, depth: nat, schema: Json, v: Json)
    requires ReadsNullType(c.reading) && SuitableDocument(c.doc) && Suitable(schema)
    ensures VerdictOn(c, depth, schema, v) == VerdictOn(After(c, e), depth, Fix(schema), v)
    decreases depth, Height(schema), 1
  {
    MeaningIsPreserved(c, e, depth, schema, v);
    if v.Arr? {
      forall i | 0 <= i < |v.items|
        ensures Accepts(c, depth, schema, v.items[i]) <==> Accepts(After(c, e), depth, Fix(schema), v.items[i])
      {
        MeaningIsPreserved(c, e, depth, schema, v.items[i]);
      }
    }
    if v.Obj? {
      forall name | name in v.fields
        ensures Accepts(c, depth, schema, v.fields[name]) <==> Accepts(After(c, e), depth, Fix(schema), v.fields[name])
      {
        MeaningIsPreserved(c, e, depth, schema, v.fields[name]);
      }
    }
  }

  /** The rewrite does not raise on the schemas it is meant for. */
  lemma {:induction false} SuitableNeverRaises(schema: Json)
    requires Suitable(schema)
    ensures !Raises(schema)
    decreases Height(schema), 0
  {
    if schema.Obj? {
      var f := schema.fields;
      LocalIsNotHigher(f);
      LocalIsSuitable(f);
      assert Height(schema) == 1 + MapHeight(f);
      PartsNeverRaise(Local(f), MapHeight(f));
    }
  }

  lemma {:induction false} PartsNeverRaise(g: map<Key, Json>, bound: nat)
    requires SuitableParts(g) && Within(g, bound)
    ensures forall k <- g :: !Raises(g[k])
    decreases bound, 3
  {
    forall k | k in g ensures !Raises(g[k]) {
      if k.AnyOf? || k.AllOf? || k.OneOf? {
        ListNeverRaises(g[k]);
      } else if k.Properties? {
        NamedNeverRaise(g[k]);
      } else if k.Not? || k.Items? || k.AdditionalProperties? {
        SuitableNeverRaises(g[k]);
      } else if IsHolder(k) {
        HolderNeverRaises(k, g[k]);
      }
    }
  }

  lemma {:induction false} HolderNeverRaises(k: Key, arg: Json)
    requires IsHolder(k) && SuitableHolder(k, arg)
    ensures !Raises(arg)
    decreases Height(arg), 2
  {
    if k.HoldsList? {
      ListNeverRaises(arg);
    } else if k.HoldsNamed? {
      NamedNeverRaise(arg);
    } else {
      SuitableNeverRaises(arg);
    }
  }

  lemma {:induction false} ListNeverRaises(arg: Json)
    requires arg.Arr? && SuitableList(arg.items)
    ensures !Raises(arg)
    decreases Height(arg), 1
  {
    assert Height(arg) == 1 + SeqHeight(arg.items);
    forall s | s in arg.items ensures !Raises(s) {
      SuitableNeverRaises(s);
    }
  }

  lemma {:induction false} NamedNeverRaise(arg: Json)
    requires arg.Obj? && SuitableSchemas(arg.fields)
    ensures !Raises(arg)
    decreases Height(arg), 1
  {
    FieldsAreLower(arg.fields);
    forall p | p in arg.fields ensures !Raises(arg.fields[p]) {
      SuitableNeverRaises(arg.fields[p]);
    }
  }

  // ---------------------------------------------------------------- where it is not preserved

  /** A schema accepts the same values before and after the rewrite, whatever its assertions mean. */
  ghost predicate Preserves(d: Dialect, e: Dialect, doc: Json, schema: Json) {
    forall r: Reading, depth: nat, v: Json :: ReadsNullType(r) ==>
      (Accepts(Context(d, r, doc), depth, schema, v) <==> Accepts(Context(e, r, Fix(doc)), depth, Fix(schema), v))
  }

  /** A nullable `anyOf` of suitable branches, beside annotations and assertions. */
  ghost predicate BesideAssertions(f: map<Key, Json>) {
    && HasNullBranch(f) && !IsMalformed(f) && SuitableList(f[AnyOf].items)
    && (forall k <- f :: k.AnyOf? || k.Annotation? || IsAssertion(k))
    && (forall k <- f :: !k.AnyOf? ==> !Raises(f[k]) && (IsAssertion(k) ==> Clean(f[k])))
    && (Type in f ==> f[Type] != Str("null"))
  }

  /**
   For such a schema the meaning is preserved exactly when `anyOf` has another branch than null and
   there is no assertion beside it: the rewrite lets null past assertions, and turns "only null" into
   "anything".
   */
  lemma PreservedExactlyWhen(d: Dialect, e: Dialect, doc: Json, f: map<Key, Json>)
    requires SuitableDocument(doc) && BesideAssertions(f)
    ensures Preserves(d, e, doc, Obj(f)) <==> IsPlainNullable(f)
  {
    if IsPlainNullable(f) {
      assert Suitable(Obj(f));
      forall r: Reading, depth: nat, v: Json | ReadsNullType(r)
        ensures Accepts(Context(d, r, doc), depth, Obj(f), v) <==>
                Accepts(Context(e, r, Fix(doc)), depth, Fix(Obj(f)), v)
      {
        MeaningIsPreserved(Context(d, r, doc), e, depth, Obj(f), v);
      }
    } else if NonNull(f[AnyOf].items) == [] {
      var r := OnlyNullBecomesAnything(d, e, doc, f);
    } else {
      var r := NullSlipsPastAssertion(d, e, doc, f);
    }
  }

  /** Reads every assertion but one as true. */
  function AllBut(key: Key, arg: Json): Reading {
    Reading((k: Key, x: Json, v: Json) => if k.Type? && x == Str("null") then v.Null? else !(k == key && x == arg),
            (k: Key, held: Held, v: Json) => true, _ => None)
  }

  lemma AcceptedByAssertions(c: Context, f: map<Key, Json>, v: Json)
    requires forall k <- f :: IsNote(k) || IsAssertion(k)
    requires AssertionsHold(c, f, v)
    ensures Accepts(c, 0, Obj(f), v)
  {
    assert AnyOf !in f && AllOf !in f && OneOf !in f && Not !in f && Ref !in f;
    assert Items !in f && Properties !in f && AdditionalProperties !in f;
  }

  lemma OnlyNullBecomesAnything(d: Dialect, e: Dialect, doc: Json, f: map<Key, Json>) returns (r: Reading)
    requires BesideAssertions(f) && NonNull(f[AnyOf].items) == []
    ensures ReadsNullType(r)
    ensures !Accepts(Context(d, r, doc), 0, Obj(f), Bool(true))
    ensures Accepts(Context(e, r, Fix(doc)), 0, Fix(Obj(f)), Bool(true))
  {
    r := AllBut(Nullable, Null);
    var c, h := Context(d, r, doc), Fix(Obj(f)).fields;
    NonNullVerdicts(c, 0, f[AnyOf].items, Bool(true));
    assert !CombinationsHold(c, 0, f, Bool(true));
    forall k | k in h && IsAssertion(k) ensures r.holds(k, h[k], Bool(true)) {
      FixedExactlyWhenClean(f[k]);
    }
    AcceptedByAssertions(Context(e, r, Fix(doc)), h, Bool(true));
  }

  lemma NullSlipsPastAssertion(d: Dialect, e: Dialect, doc: Json, f: map<Key, Json>) returns (r: Reading)
    requires BesideAssertions(f) && NonNull(f[AnyOf].items) != [] && !IsPlainNullable(f)
    ensures ReadsNullType(r)
    ensures !Accepts(Context(d, r, doc), 0, Obj(f), Null)
    ensures Accepts(Context(e, r, Fix(doc)), 0, Fix(Obj(f)), Null)
  {
    var k :| k in f && IsAssertion(k);
    r := AllBut(k, f[k]);
    assert !AssertionsHold(Context(d, r, doc), f, Null);
    var h := Fix(Obj(f)).fields;
    assert h[Nullable] == Fix(Local(f)[Nullable]) && Ref !in h;
  }
}
