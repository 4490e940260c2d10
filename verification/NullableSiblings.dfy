/**
 The nullable rewrite where a nullable `anyOf` stands beside other keywords, whether they hold schemas
 or not: the merge may overwrite some of them, and null gets past all of them.
 */
module NullableSiblings {
  import opened NullableRewrite
  import opened NullableMeaning

  /** What stands beside the `anyOf`. */
  function Siblings(f: map<Key, Json>): map<Key, Json> { f - {AnyOf} }

  /** The keys that the rewrite writes from the branches other than null. */
  function Incoming(nonNull: seq<Json>): map<Key, Json> {
    if nonNull == [] then map[]
    else if |nonNull| == 1 then
      if !nonNull[0].Obj? || MentionsRef(nonNull[0]) then map[AllOf := Arr(nonNull)] else nonNull[0].fields
    else map[AnyOf := Arr(nonNull)]
  }

  /** The siblings that keep their value, and those that are overwritten. */
  function Kept(f: map<Key, Json>): map<Key, Json>
    requires HasNullBranch(f)
  {
    Siblings(f) - Incoming(NonNull(f[AnyOf].items)).Keys
  }

  function Overwritten(f: map<Key, Json>): map<Key, Json>
    requires HasNullBranch(f)
  {
    map k <- Siblings(f) | k in Incoming(NonNull(f[AnyOf].items)) :: f[k]
  }

  /**
   `additionalProperties` is about the properties declared beside it, so the two must not come from
   different places.
   */
  predicate Apart(a: map<Key, Json>, b: map<Key, Json>) {
    && !(AdditionalProperties in a && Properties in b)
    && !(Properties in a && AdditionalProperties in b)
  }

  /** A nullable `anyOf` of suitable branches, beside anything suitable. */
  ghost predicate BesideSiblings(f: map<Key, Json>) {
    && HasNullBranch(f) && !IsMalformed(f) && SuitableParts(f)
    && Apart(Kept(f), Incoming(NonNull(f[AnyOf].items)))
  }

  /** Both versions count the siblings: there is no reference beside them, or the version reads on regardless. */
  predicate CountsSiblings(c: Context, f: map<Key, Json>) { Ref in f ==> c.dialect.OAS31? }

  // ---------------------------------------------------------------- keywords side by side

  /** No keyword is in both. */
  predicate Separate(a: map<Key, Json>, b: map<Key, Json>) {
    (forall k <- a :: k in b ==> IsNote(k)) && Apart(a, b)
  }

  lemma AssertionsOfUnion(c: Context, a: map<Key, Json>, b: map<Key, Json>, v: Json)
    requires Separate(a, b)
    ensures AssertionsHold(c, a + b, v) <==> AssertionsHold(c, a, v) && AssertionsHold(c, b, v)
  {
    var u := a + b;
    assert forall k <- a :: IsAssertion(k) ==> k in u && u[k] == a[k];
    assert forall k <- b :: IsAssertion(k) ==> k in u && u[k] == b[k];
  }

  lemma CombinationsOfUnion(c: Context, depth: nat, a: map<Key, Json>, b: map<Key, Json>, v: Json)
    requires Separate(a, b)
    ensures CombinationsHold(c, depth, a + b, v) <==>
            CombinationsHold(c, depth, a, v) && CombinationsHold(c, depth, b, v)
  {
    var u := a + b;
    assert forall k: Key :: IsApplicator(k) ==>
      (k in u <==> k in a || k in b) && (k in a ==> k !in b && u[k] == a[k]) && (k in b ==> u[k] == b[k]);
  }

  lemma PartsOfUnion(c: Context, depth: nat, a: map<Key, Json>, b: map<Key, Json>, v: Json)
    requires Separate(a, b)
    ensures PartsHold(c, depth, a + b, v) <==> PartsHold(c, depth, a, v) && PartsHold(c, depth, b, v)
  {
    assert AdditionalProperties in a ==> Declared(a + b) == Declared(a);
    assert AdditionalProperties in b ==> Declared(a + b) == Declared(b);
  }

  lemma HoldersOfUnion(c: Context, depth: nat, a: map<Key, Json>, b: map<Key, Json>, v: Json)
    requires Separate(a, b)
    ensures HoldersHold(c, depth, a + b, v) <==> HoldersHold(c, depth, a, v) && HoldersHold(c, depth, b, v)
  {
    var u := a + b;
    assert forall k <- a :: IsHolder(k) ==> k in u && u[k] == a[k];
    assert forall k <- b :: IsHolder(k) ==> k in u && u[k] == b[k];
  }

  /** Keywords from two places hold together exactly when they hold in each. */
  lemma UnionHolds(c: Context, depth: nat, a: map<Key, Json>, b: map<Key, Json>, v: Json)
    requires Separate(a, b)
    ensures KeywordsHold(c, depth, a + b, v) <==> KeywordsHold(c, depth, a, v) && KeywordsHold(c, depth, b, v)
  {
    AssertionsOfUnion(c, a, b, v);
    CombinationsOfUnion(c, depth, a, b, v);
    PartsOfUnion(c, depth, a, b, v);
    HoldersOfUnion(c, depth, a, b, v);
  }

  lemma NotesAccept(c: Context, depth: nat, notes: map<Key, Json>, v: Json)
    requires forall k <- notes :: IsNote(k)
    ensures KeywordsHold(c, depth, notes, v)
  {
    assert AnyOf !in notes && AllOf !in notes && OneOf !in notes && Not !in notes && Ref !in notes;
    assert Items !in notes && Properties !in notes && AdditionalProperties !in notes;
  }

  // ---------------------------------------------------------------- before and after

  /** Before: the siblings, and null or one of the other branches; and null anyway if it says nullable. */
  lemma Before(c: Context, depth: nat, f: map<Key, Json>, v: Json)
    requires ReadsNullType(c.reading) && BesideSiblings(f) && CountsSiblings(c, f)
    ensures Accepts(c, depth, Obj(f), v) <==>
      || (IsNullable(f) && v.Null?)
      || (KeywordsHold(c, depth, Siblings(f), v) && (v.Null? || true in Verdicts(c, depth, NonNull(f[AnyOf].items), v)))
  {
    var alone := map[AnyOf := f[AnyOf]];
    assert f == Siblings(f) + alone;
    UnionHolds(c, depth, Siblings(f), alone, v);
    OnlyAnyOf(c, depth, alone, v);
    NonNullVerdicts(c, depth, f[AnyOf].items, v);
    assert Accepts(c, depth, Obj(f), v) <==> (IsNullable(f) && v.Null?) || KeywordsHold(c, depth, f, v);
  }

  /** One of the other branches accepts, or there is none. */
  ghost predicate BranchAccepts(c: Context, depth: nat, nonNull: seq<Json>, v: Json) {
    nonNull == [] || true in Verdicts(c, depth, nonNull, v)
  }

  /** What is written from the other branches says that one of them accepts, if there is any. */
  lemma IncomingHolds(c: Context, depth: nat, nonNull: seq<Json>, v: Json)
    requires SoleIsSchema(nonNull) && !v.Null?
    ensures KeywordsHold(c, depth, Incoming(nonNull), v) <==> BranchAccepts(c, depth, nonNull, v)
  {
    if nonNull == [] {
      NotesAccept(c, depth, map[], v);
    } else if |nonNull| > 1 {
      OnlyAnyOf(c, depth, Incoming(nonNull), v);
    } else {
      var sole := nonNull[0];
      assert nonNull == [sole];
      SoleVerdict(c, depth, sole, v);
      if MentionsRef(sole) {
        OnlyAllOf(c, depth, Incoming(nonNull), v);
      } else {
        assert Accepts(c, depth, Obj(sole.fields), v) <==> KeywordsHold(c, depth, sole.fields, v);
      }
    }
  }

  /**
   The rewritten dictionary is the kept siblings and what is written from the branches; null apart, it
   accepts what both accept.
   */
  lemma LocalIs(f: map<Key, Json>)
    requires BesideSiblings(f)
    ensures Local(f) == (Kept(f) + Incoming(NonNull(f[AnyOf].items)))[Nullable := Bool(true)]
    ensures Ref in Local(f) <==> Ref in f
    ensures Ref in f ==> Local(f)[Ref] == f[Ref]
  {
    SoleBranchIsSchema(f);
    MergeIs(Siblings(f), NonNull(f[AnyOf].items));
  }

  lemma MergeIs(rest: map<Key, Json>, nonNull: seq<Json>)
    requires SoleIsSchema(nonNull)
    ensures Merge(rest, nonNull) == (rest - Incoming(nonNull).Keys) + Incoming(nonNull)
    ensures Ref !in Incoming(nonNull)
  {
    if |nonNull| == 1 {
      assert nonNull == [nonNull[0]];
    }
  }

  lemma LocalKeywords(c: Context, depth: nat, f: map<Key, Json>, v: Json)
    requires ReadsNullType(c.reading) && BesideSiblings(f) && !v.Null?
    ensures KeywordsHold(c, depth, Local(f), v) <==>
      KeywordsHold(c, depth, Kept(f), v) && BranchAccepts(c, depth, NonNull(f[AnyOf].items), v)
  {
    var nonNull := NonNull(f[AnyOf].items);
    var both := Kept(f) + Incoming(nonNull);
    SoleBranchIsSchema(f);
    LocalIs(f);
    SameKeywords(c, depth, both, Local(f), v);
    UnionHolds(c, depth, Kept(f), Incoming(nonNull), v);
    IncomingHolds(c, depth, nonNull, v);
  }

  lemma UnionIsSuitable(a: map<Key, Json>, b: map<Key, Json>)
    requires SuitableParts(a) && SuitableParts(b)
    ensures SuitableParts((a + b)[Nullable := Bool(true)])
  {
    var u := (a + b)[Nullable := Bool(true)];
    assert forall k <- u :: !k.Nullable? ==> (k in b && u[k] == b[k]) || (k in a && u[k] == a[k]);
  }

  lemma IncomingIsSuitable(nonNull: seq<Json>)
    requires SuitableList(nonNull) && SoleIsSchema(nonNull)
    ensures SuitableParts(Incoming(nonNull))
  {
    if |nonNull| == 1 {
      assert nonNull[0] in nonNull && SuitableParts(nonNull[0].fields);
    }
  }

  lemma SubsetIsSuitable(a: map<Key, Json>, keys: set<Key>)
    requires SuitableParts(a)
    ensures SuitableParts(a - keys)
  {
    assert forall k <- a - keys :: k in a && (a - keys)[k] == a[k];
  }

  lemma LocalPartsAreSuitable(f: map<Key, Json>)
    requires BesideSiblings(f)
    ensures SuitableParts(Local(f))
  {
    var nonNull := NonNull(f[AnyOf].items);
    SoleBranchIsSchema(f);
    LocalIs(f);
    assert forall s <- nonNull :: s in f[AnyOf].items && Suitable(s);
    IncomingIsSuitable(nonNull);
    SubsetIsSuitable(f, {AnyOf});
    SubsetIsSuitable(Siblings(f), Incoming(nonNull).Keys);
    UnionIsSuitable(Kept(f), Incoming(nonNull));
  }

  /** After: null, or what the kept siblings and one of the other branches, if there is any, accept. */
  lemma Afterwards(c: Context, e: Dialect, depth: nat, f: map<Key, Json>, v: Json)
    requires ReadsNullType(c.reading) && SuitableDocument(c.doc) && BesideSiblings(f) && CountsSiblings(After(c, e), f)
    ensures Accepts(After(c, e), depth, Fix(Obj(f)), v) <==>
      v.Null? || (KeywordsHold(c, depth, Kept(f), v) && BranchAccepts(c, depth, NonNull(f[AnyOf].items), v))
  {
    FixedKeywords(c, e, depth, f, v);
    if !v.Null? {
      LocalKeywords(c, depth, f, v);
    }
  }

  lemma FixedKeywords(c: Context, e: Dialect, depth: nat, f: map<Key, Json>, v: Json)
    requires ReadsNullType(c.reading) && SuitableDocument(c.doc) && BesideSiblings(f) && CountsSiblings(After(c, e), f)
    ensures Accepts(After(c, e), depth, Fix(Obj(f)), v) <==> v.Null? || KeywordsHold(c, depth, Local(f), v)
  {
    var g, h := Local(f), Fix(Obj(f)).fields;
    LocalIs(f);
    LocalIsNotHigher(f);
    LocalPartsAreSuitable(f);
    KeywordsArePreserved(c, e, depth, g, h, MapHeight(f), v);
    assert h[Nullable] == Fix(g[Nullable]) && (Ref in h <==> Ref in f);
    AcceptsNullable(After(c, e), depth, h, v);
  }

  lemma AcceptsNullable(c: Context, depth: nat, h: map<Key, Json>, v: Json)
    requires IsNullable(h) && CountsSiblings(c, h)
    ensures Accepts(c, depth, Obj(h), v) <==> v.Null? || KeywordsHold(c, depth, h, v)
  {
  }

  // ---------------------------------------------------------------- when the meaning is preserved

  ghost predicate SameMeaning(c: Context, e: Dialect, depth: nat, f: map<Key, Json>) {
    forall v :: Accepts(c, depth, Obj(f), v) <==> Accepts(After(c, e), depth, Fix(Obj(f)), v)
  }

  /** Null apart, the overwritten siblings refuse nothing that everything else accepts. */
  ghost predicate OverwrittenAddNothing(c: Context, depth: nat, f: map<Key, Json>)
    requires HasNullBranch(f)
  {
    forall v: Json ::
      (!v.Null? && KeywordsHold(c, depth, Kept(f), v) && true in Verdicts(c, depth, NonNull(f[AnyOf].items), v)) ==>
        KeywordsHold(c, depth, Overwritten(f), v)
  }

  /** Where there is no branch but null, the siblings accept nothing else. */
  ghost predicate OnlyNullIsSaid(c: Context, depth: nat, f: map<Key, Json>)
    requires HasNullBranch(f)
  {
    NonNull(f[AnyOf].items) == [] ==> forall v :: KeywordsHold(c, depth, Kept(f), v) ==> v.Null?
  }

  lemma SiblingsHold(c: Context, depth: nat, f: map<Key, Json>, v: Json)
    requires BesideSiblings(f)
    ensures KeywordsHold(c, depth, Siblings(f), v) <==>
      KeywordsHold(c, depth, Kept(f), v) && KeywordsHold(c, depth, Overwritten(f), v)
  {
    assert Siblings(f) == Kept(f) + Overwritten(f);
    UnionHolds(c, depth, Kept(f), Overwritten(f), v);
  }

  /**
   Beside any siblings, under any reading, meaning is preserved exactly when the siblings accept null,
   the overwritten ones add nothing, and there is a branch besides null or the siblings leave nothing
   else. The rewrite lets null past the siblings, drops the overwritten ones, and turns "only null" into
   "anything".
   */
  lemma PreservedBesideExactlyWhen(c: Context, e: Dialect, depth: nat, f: map<Key, Json>)
    requires ReadsNullType(c.reading) && SuitableDocument(c.doc) && BesideSiblings(f)
    requires CountsSiblings(c, f) && CountsSiblings(After(c, e), f)
    ensures SameMeaning(c, e, depth, f) <==>
      && (IsNullable(f) || KeywordsHold(c, depth, Siblings(f), Null))
      && OverwrittenAddNothing(c, depth, f)
      && OnlyNullIsSaid(c, depth, f)
  {
    forall v
      ensures Accepts(c, depth, Obj(f), v) <==>
        || (IsNullable(f) && v.Null?)
        || (&& KeywordsHold(c, depth, Siblings(f), v)
            && (v.Null? || true in Verdicts(c, depth, NonNull(f[AnyOf].items), v)))
      ensures KeywordsHold(c, depth, Siblings(f), v) <==>
        KeywordsHold(c, depth, Kept(f), v) && KeywordsHold(c, depth, Overwritten(f), v)
      ensures Accepts(After(c, e), depth, Fix(Obj(f)), v) <==>
        v.Null? || (KeywordsHold(c, depth, Kept(f), v) && BranchAccepts(c, depth, NonNull(f[AnyOf].items), v))
    {
      Before(c, depth, f, v);
      SiblingsHold(c, depth, f, v);
      Afterwards(c, e, depth, f, v);
    }
    assert SameMeaning(c, e, depth, f) ==>
      (Accepts(c, depth, Obj(f), Null) <==> Accepts(After(c, e), depth, Fix(Obj(f)), Null));
    if NonNull(f[AnyOf].items) == [] {
      assert forall v :: Verdicts(c, depth, NonNull(f[AnyOf].items), v) == [];
      assert forall v :: KeywordsHold(c, depth, Kept(f), v) ==> KeywordsHold(c, depth, Siblings(f), v) by {
        forall v ensures KeywordsHold(c, depth, Overwritten(f), v) {
          NotesAccept(c, depth, Overwritten(f), v);
        }
      }
    }
  }

  /** OpenAPI 3.0 reads nothing but the reference of a dictionary that has one, before and after. */
  lemma ReferenceBeside(c: Context, e: Dialect, depth: nat, f: map<Key, Json>, v: Json)
    requires ReadsNullType(c.reading) && SuitableDocument(c.doc) && BesideSiblings(f) && Ref in f && e.OAS30?
    ensures Accepts(After(c, e), depth, Fix(Obj(f)), v) <==> Follow(c, depth, f[Ref], v)
    ensures c.dialect.OAS30? ==> (Accepts(c, depth, Obj(f), v) <==> Follow(c, depth, f[Ref], v))
  {
    LocalIs(f);
    FollowIsPreserved(c, e, depth, f[Ref], v);
    assert Fix(Obj(f)).fields[Ref] == Fix(Local(f)[Ref]);
  }

  // ---------------------------------------------------------------- cases that are easy to check

  /**
   An overwritten sibling is a note, or says exactly what overwrites it, with the same properties
   declared beside it.
   */
  predicate OverwrittenAreRepeated(f: map<Key, Json>)
    requires HasNullBranch(f)
  {
    var incoming, overwritten := Incoming(NonNull(f[AnyOf].items)), Overwritten(f);
    && (forall k <- overwritten :: IsNote(k) || overwritten[k] == incoming[k])
    && (AdditionalProperties in overwritten && Properties in incoming ==> Properties in overwritten)
  }

  /** Then meaning is preserved exactly when the siblings, asked about null alone, accept it. */
  lemma PreservedWhenRepeated(c: Context, e: Dialect, depth: nat, f: map<Key, Json>)
    requires ReadsNullType(c.reading) && SuitableDocument(c.doc) && BesideSiblings(f)
    requires CountsSiblings(c, f) && CountsSiblings(After(c, e), f)
    requires NonNull(f[AnyOf].items) != [] && OverwrittenAreRepeated(f)
    ensures SameMeaning(c, e, depth, f) <==> IsNullable(f) || KeywordsHold(c, depth, Siblings(f), Null)
  {
    var nonNull := NonNull(f[AnyOf].items);
    PreservedBesideExactlyWhen(c, e, depth, f);
    SoleBranchIsSchema(f);
    forall v: Json | !v.Null? && true in Verdicts(c, depth, nonNull, v)
      ensures KeywordsHold(c, depth, Overwritten(f), v)
    {
      IncomingHolds(c, depth, nonNull, v);
      FewerHold(c, depth, Incoming(nonNull), Overwritten(f), v);
    }
  }

  /** Some of the keywords that hold. */
  lemma FewerHold(c: Context, depth: nat, all: map<Key, Json>, some: map<Key, Json>, v: Json)
    requires forall k <- some :: IsNote(k) || (k in all && some[k] == all[k])
    requires AdditionalProperties in some && Properties in all ==> Properties in some
    requires KeywordsHold(c, depth, all, v)
    ensures KeywordsHold(c, depth, some, v)
  {
    assert AdditionalProperties in some ==> Declared(some) == Declared(all);
    assert CombinationsHold(c, depth, some, v);
    assert PartsHold(c, depth, some, v);
    assert HoldersHold(c, depth, some, v);
    assert AssertionsHold(c, some, v);
  }

  /**
   In particular keywords about the parts of arrays and objects may stand beside it, as long as none is
   overwritten.
   */
  lemma PartsMayStandBeside(c: Context, e: Dialect, depth: nat, f: map<Key, Json>)
    requires ReadsNullType(c.reading) && SuitableDocument(c.doc) && BesideSiblings(f) && NonNull(f[AnyOf].items) != []
    requires forall k <- Siblings(f) :: IsNote(k) || k.Items? || k.Properties? || k.AdditionalProperties?
    requires forall k <- Overwritten(f) :: IsNote(k)
    ensures SameMeaning(c, e, depth, f)
  {
    PartsAcceptNull(c, depth, Siblings(f));
    assert Ref !in Siblings(f) && Ref !in f;
    PreservedWhenRepeated(c, e, depth, f);
  }

  lemma PartsAcceptNull(c: Context, depth: nat, kept: map<Key, Json>)
    requires forall k <- kept :: IsNote(k) || k.Items? || k.Properties? || k.AdditionalProperties?
    ensures KeywordsHold(c, depth, kept, Null)
  {
    assert AnyOf !in kept && AllOf !in kept && OneOf !in kept && Not !in kept && Ref !in kept;
  }
}
