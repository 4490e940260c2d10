/** What each keyword says when it stands alone, in terms of the schemas it holds. */
module KeywordMeaning {
  import opened Wrappers
  import opened NullableRewrite
  import opened NullableMeaning

  /** A schema with one keyword. */
  function Only(k: Key, arg: Json): Json { Obj(map[k := arg]) }

  lemma OnlyKeyword(c: Context, depth: nat, k: Key, arg: Json, v: Json)
    requires !k.Ref? && !k.Nullable?
    ensures Accepts(c, depth, Only(k, arg), v) <==> KeywordsHold(c, depth, map[k := arg], v)
  {
    var f := map[k := arg];
    assert f.Keys == {k} && !IsNullable(f);
    assert Accepts(c, depth, Obj(f), v) <==> (IsNullable(f) && v.Null?) || KeywordsHold(c, depth, f, v);
  }

  lemma NoParts(c: Context, depth: nat, k: Key, arg: Json, v: Json)
    requires !k.Items? && !k.Properties? && !k.AdditionalProperties?
    ensures PartsHold(c, depth, map[k := arg], v)
  {
  }

  lemma NoCombination(c: Context, depth: nat, k: Key, arg: Json, v: Json)
    requires !k.AnyOf? && !k.AllOf? && !k.OneOf? && !k.Not?
    ensures CombinationsHold(c, depth, map[k := arg], v)
  {
  }

  /** A combination is all there is to it. */
  lemma OnlyCombination(c: Context, depth: nat, k: Key, arg: Json, v: Json)
    requires k.AnyOf? || k.AllOf? || k.OneOf? || k.Not?
    ensures Accepts(c, depth, Only(k, arg), v) <==> CombinationsHold(c, depth, map[k := arg], v)
  {
    OnlyKeyword(c, depth, k, arg, v);
    NoParts(c, depth, k, arg, v);
    assert HoldersHold(c, depth, map[k := arg], v) && AssertionsHold(c, map[k := arg], v);
  }

  lemma OnlyPart(c: Context, depth: nat, k: Key, arg: Json, v: Json)
    requires k.Items? || k.Properties? || k.AdditionalProperties?
    ensures Accepts(c, depth, Only(k, arg), v) <==> PartsHold(c, depth, map[k := arg], v)
  {
    OnlyKeyword(c, depth, k, arg, v);
    NoCombination(c, depth, k, arg, v);
    assert HoldersHold(c, depth, map[k := arg], v) && AssertionsHold(c, map[k := arg], v);
  }

  /** One verdict is positive, and no two are. */
  lemma {:induction false} TruesCounted(verdicts: seq<bool>)
    ensures multiset(verdicts)[true] == 0 <==> forall i :: 0 <= i < |verdicts| ==> !verdicts[i]
    ensures multiset(verdicts)[true] <= 1 <==>
      forall i, j :: 0 <= i < j < |verdicts| ==> !(verdicts[i] && verdicts[j])
  {
    if verdicts != [] {
      var first, rest := verdicts[0], verdicts[1..];
      TruesCounted(rest);
      assert verdicts == [first] + rest;
      assert multiset(verdicts)[true] == multiset(rest)[true] + if first then 1 else 0;
      assert forall i :: 0 <= i < |rest| ==> rest[i] == verdicts[i + 1];
    }
  }

  /** `anyOf` wants one of the schemas to accept, `allOf` each, and `not` its schema not to. */
  lemma CombinationsMean(c: Context, depth: nat, schemas: seq<Json>, s: Json, v: Json)
    ensures Accepts(c, depth, Only(AnyOf, Arr(schemas)), v) <==>
      exists i :: 0 <= i < |schemas| && Accepts(c, depth, schemas[i], v)
    ensures Accepts(c, depth, Only(AllOf, Arr(schemas)), v) <==>
      forall i :: 0 <= i < |schemas| ==> Accepts(c, depth, schemas[i], v)
    ensures Accepts(c, depth, Only(Not, s), v) <==> !Accepts(c, depth, s, v)
  {
    OnlyCombination(c, depth, AnyOf, Arr(schemas), v);
    OnlyCombination(c, depth, AllOf, Arr(schemas), v);
    OnlyCombination(c, depth, Not, s, v);
  }

  /** `oneOf` wants one of the schemas to accept, and no two. */
  lemma OneOfMeans(c: Context, depth: nat, schemas: seq<Json>, v: Json)
    ensures Accepts(c, depth, Only(OneOf, Arr(schemas)), v) <==>
      && (exists i :: 0 <= i < |schemas| && Accepts(c, depth, schemas[i], v))
      && (forall i, j :: 0 <= i < j < |schemas| ==>
            !(Accepts(c, depth, schemas[i], v) && Accepts(c, depth, schemas[j], v)))
  {
    var verdicts := Verdicts(c, depth, schemas, v);
    OnlyCombination(c, depth, OneOf, Arr(schemas), v);
    TruesCounted(verdicts);
    assert forall i :: 0 <= i < |schemas| ==> verdicts[i] == Accepts(c, depth, schemas[i], v);
  }

  /** `items` is about every item of an array, `properties` about named fields, `additionalProperties` about all. */
  lemma PartsMean(c: Context, depth: nat, s: Json, named: map<Key, Json>, v: Json)
    ensures Accepts(c, depth, Only(Items, s), v) <==>
      (v.Arr? ==> forall x <- v.items :: Accepts(c, depth, s, x))
    ensures Accepts(c, depth, Only(Properties, Obj(named)), v) <==>
      (v.Obj? ==> forall p <- named :: p in v.fields ==> Accepts(c, depth, named[p], v.fields[p]))
    ensures Accepts(c, depth, Only(AdditionalProperties, s), v) <==>
      (v.Obj? ==> forall p <- v.fields :: Accepts(c, depth, s, v.fields[p]))
  {
    OnlyPart(c, depth, Items, s, v);
    OnlyPart(c, depth, Properties, Obj(named), v);
    OnlyPart(c, depth, AdditionalProperties, s, v);
  }

  /** Beside `properties`, `additionalProperties` speaks of the fields that are not named there. */
  lemma OtherPropertiesMean(c: Context, depth: nat, s: Json, named: map<Key, Json>, v: Json)
    ensures Accepts(c, depth, Obj(map[Properties := Obj(named), AdditionalProperties := s]), v) <==>
      (v.Obj? ==>
         && (forall p <- v.fields :: p in named ==> Accepts(c, depth, named[p], v.fields[p]))
         && (forall p <- v.fields :: p !in named ==> Accepts(c, depth, s, v.fields[p])))
  {
    var f := map[Properties := Obj(named), AdditionalProperties := s];
    assert f.Keys == {Properties, AdditionalProperties} && !IsNullable(f);
    assert Accepts(c, depth, Obj(f), v) <==> (IsNullable(f) && v.Null?) || KeywordsHold(c, depth, f, v);
    assert CombinationsHold(c, depth, f, v) && HoldersHold(c, depth, f, v) && AssertionsHold(c, f, v);
    assert Declared(f) == named.Keys;
    assert PartsHold(c, depth, f, v) <==>
      (v.Obj? ==>
         && (forall p <- named :: p in v.fields ==> Accepts(c, depth, named[p], v.fields[p]))
         && (forall p <- v.fields :: p !in named ==> Accepts(c, depth, s, v.fields[p])));
  }

  /** A reference stands for the component schema it names; one that leads nowhere accepts nothing. */
  lemma ReferenceMeans(c: Context, depth: nat, ref: string, v: Json)
    ensures Accepts(c, depth, Only(Ref, Str(ref)), v) <==>
      && depth > 0 && c.reading.target(ref).Some?
      && c.doc.Obj? && Components in c.doc.fields
      && c.doc.fields[Components].Obj? && Schemas in c.doc.fields[Components].fields
      && c.doc.fields[Components].fields[Schemas].Obj?
      && c.reading.target(ref).value in c.doc.fields[Components].fields[Schemas].fields
      && Accepts(c, depth - 1, c.doc.fields[Components].fields[Schemas].fields[c.reading.target(ref).value], v)
  {
    var f := map[Ref := Str(ref)];
    assert f.Keys == {Ref} && !IsNullable(f);
    NoParts(c, depth, Ref, Str(ref), v);
    NoCombination(c, depth, Ref, Str(ref), v);
    assert HoldersHold(c, depth, f, v) && AssertionsHold(c, f, v);
    assert Accepts(c, depth, Obj(f), v) <==> Follow(c, depth, Str(ref), v);
  }

  /** `nullable: true` adds null to what a type accepts, and annotations and booleans mean what they should. */
  lemma NullableMeans(c: Context, depth: nat, type_: Json, note: Key, text: Json, v: Json)
    requires note.Annotation?
    ensures Accepts(c, depth, Only(Type, type_), v) <==> c.reading.holds(Type, type_, v)
    ensures Accepts(c, depth, Obj(map[Type := type_, Nullable := Bool(true)]), v) <==>
      v.Null? || c.reading.holds(Type, type_, v)
    ensures Accepts(c, depth, Obj(map[Type := type_, Nullable := Bool(false)]), v) <==> c.reading.holds(Type, type_, v)
    ensures Accepts(c, depth, Only(note, text), v) && Accepts(c, depth, Bool(true), v)
    ensures !Accepts(c, depth, Bool(false), v)
  {
    OnlyAssertion(c, depth, map[Type := type_], v);
    OnlyAssertion(c, depth, map[Type := type_, Nullable := Bool(true)], v);
    OnlyAssertion(c, depth, map[Type := type_, Nullable := Bool(false)], v);
    OnlyAssertion(c, depth, map[note := text], v);
  }

  lemma OnlyAssertion(c: Context, depth: nat, f: map<Key, Json>, v: Json)
    requires forall k <- f :: k.Type? || k.Nullable? || k.Annotation?
    ensures Accepts(c, depth, Obj(f), v) <==>
      (IsNullable(f) && v.Null?) || (Type in f ==> c.reading.holds(Type, f[Type], v))
  {
    assert Ref !in f && AnyOf !in f && AllOf !in f && OneOf !in f && Not !in f;
    assert Items !in f && Properties !in f && AdditionalProperties !in f;
    assert CombinationsHold(c, depth, f, v) && PartsHold(c, depth, f, v) && HoldersHold(c, depth, f, v);
    assert AssertionsHold(c, f, v) <==> (Type in f ==> c.reading.holds(Type, f[Type], v));
    assert Accepts(c, depth, Obj(f), v) <==> (IsNullable(f) && v.Null?) || KeywordsHold(c, depth, f, v);
  }

  /** What a schema says about a value is said about the value itself and about each of its parts. */
  ghost predicate Says(c: Context, depth: nat, schema: Json, v: Json, verdict: Verdict) {
    && verdict.onValue == Accepts(c, depth, schema, v)
    && |verdict.onItems| == (if v.Arr? then |v.items| else 0)
    && (v.Arr? ==> forall i :: 0 <= i < |v.items| ==> verdict.onItems[i] == Accepts(c, depth, schema, v.items[i]))
    && verdict.onFields.Keys == (if v.Obj? then v.fields.Keys else {})
    && (v.Obj? ==> forall p <- v.fields :: verdict.onFields[p] == Accepts(c, depth, schema, v.fields[p]))
  }

  /** The other keywords that hold schemas are read from what each of those says. */
  lemma HoldersMean(c: Context, depth: nat, name: string, schema: Json, schemas: seq<Json>, named: map<Key, Json>,
                    v: Json)
    returns (one: Verdict, several: seq<Verdict>, byName: map<Key, Verdict>)
    ensures Says(c, depth, schema, v, one)
    ensures |several| == |schemas| && forall i :: 0 <= i < |schemas| ==> Says(c, depth, schemas[i], v, several[i])
    ensures byName.Keys == named.Keys && forall k <- named :: Says(c, depth, named[k], v, byName[k])
    ensures Accepts(c, depth, Only(HoldsOne(name), schema), v) <==> c.reading.combines(HoldsOne(name), One(one), v)
    ensures Accepts(c, depth, Only(HoldsList(name), Arr(schemas)), v) <==>
      c.reading.combines(HoldsList(name), Several(several), v)
    ensures Accepts(c, depth, Only(HoldsNamed(name), Obj(named)), v) <==>
      c.reading.combines(HoldsNamed(name), ByName(byName), v)
  {
    one, several := VerdictOn(c, depth, schema, v), VerdictsOn(c, depth, schemas, v);
    byName := map k <- named :: VerdictOn(c, depth, named[k], v);
    VerdictSays(c, depth, schema, v);
    forall i | 0 <= i < |schemas| ensures Says(c, depth, schemas[i], v, several[i]) {
      VerdictSays(c, depth, schemas[i], v);
    }
    forall k | k in named ensures Says(c, depth, named[k], v, byName[k]) {
      VerdictSays(c, depth, named[k], v);
    }
    OnlyHolder(c, depth, HoldsOne(name), schema, v);
    OnlyHolder(c, depth, HoldsList(name), Arr(schemas), v);
    OnlyHolder(c, depth, HoldsNamed(name), Obj(named), v);
  }

  lemma VerdictSays(c: Context, depth: nat, schema: Json, v: Json)
    ensures Says(c, depth, schema, v, VerdictOn(c, depth, schema, v))
  {
  }

  lemma OnlyHolder(c: Context, depth: nat, k: Key, arg: Json, v: Json)
    requires IsHolder(k)
    ensures Accepts(c, depth, Only(k, arg), v) <==> c.reading.combines(k, HeldBy(c, depth, k, arg, v), v)
  {
    var f := map[k := arg];
    OnlyKeyword(c, depth, k, arg, v);
    NoParts(c, depth, k, arg, v);
    NoCombination(c, depth, k, arg, v);
    assert f.Keys == {k} && AssertionsHold(c, f, v);
    assert HoldersHold(c, depth, f, v) <==> c.reading.combines(k, HeldBy(c, depth, k, arg, v), v);
  }

  // ---------------------------------------------------------------- the schemas that the rewrite is for

  /** Suitable schemas may be combined, as lists of any length. */
  lemma CombinationsAreSuitable(k: Key, schemas: seq<Json>)
    requires k.AnyOf? || k.AllOf? || k.OneOf?
    requires forall x <- schemas :: Suitable(x) && (k.AnyOf? ==> x != NULL_SCHEMA)
    ensures Suitable(Only(k, Arr(schemas)))
  {
    var f := map[k := Arr(schemas)];
    assert f.Keys == {k} && SuitableList(schemas) && SuitableParts(f);
  }

  /** They may be negated, and used for items and properties under any names. */
  lemma PartsAreSuitable(k: Key, s: Json, named: map<Key, Json>)
    requires k.Not? || k.Items? || k.AdditionalProperties?
    requires Suitable(s) && forall p <- named :: Suitable(named[p]) && !p.AnyOf?
    ensures Suitable(Only(k, s)) && Suitable(Only(Properties, Obj(named)))
  {
    assert (map[k := s]).Keys == {k} && SuitableParts(map[k := s]);
    PropertiesAreSuitable(named);
  }

  lemma PropertiesAreSuitable(named: map<Key, Json>)
    requires forall p <- named :: Suitable(named[p]) && !p.AnyOf?
    ensures Suitable(Only(Properties, Obj(named)))
  {
    var f := map[Properties := Obj(named)];
    assert f.Keys == {Properties} && SuitableSchemas(named) && SuitableParts(f);
  }

  /** References are suitable, and so is any of some suitable schemas or null, each with a title or the like. */
  lemma OptionalsAreSuitable(ref: string, schemas: seq<Json>, note: Key, text: string)
    requires note.Annotation?
    requires schemas != [] && forall x <- schemas :: Suitable(x) && x.Obj? && x != NULL_SCHEMA
    ensures Suitable(Obj(map[Ref := Str(ref)])) && Suitable(Obj(map[Ref := Str(ref), note := Str(text)]))
    ensures Suitable(Obj(map[AnyOf := Arr(schemas + [NULL_SCHEMA]), note := Str(text)]))
    ensures Suitable(Obj(map[AnyOf := Arr([NULL_SCHEMA] + schemas)]))
  {
    assert schemas[0] in schemas + [NULL_SCHEMA] && schemas[0] in [NULL_SCHEMA] + schemas;
    OptionalIsSuitable(map[AnyOf := Arr(schemas + [NULL_SCHEMA]), note := Str(text)]);
    OptionalIsSuitable(map[AnyOf := Arr([NULL_SCHEMA] + schemas)]);
    ReferenceIsSuitable(map[Ref := Str(ref)]);
    ReferenceIsSuitable(map[Ref := Str(ref), note := Str(text)]);
  }

  lemma ReferenceIsSuitable(f: map<Key, Json>)
    requires Ref in f && forall k <- f :: f[k].Str? && (k.Ref? || k.Annotation?)
    ensures Suitable(Obj(f))
  {
    assert AnyOf !in f && AllOf !in f && OneOf !in f && Not !in f;
    assert Items !in f && Properties !in f && AdditionalProperties !in f;
  }

  lemma OptionalIsSuitable(f: map<Key, Json>)
    requires HasNullBranch(f) && forall k <- f :: k.AnyOf? || (k.Annotation? && f[k].Str?)
    requires exists x <- f[AnyOf].items :: x != NULL_SCHEMA
    requires forall x <- f[AnyOf].items :: x.Obj? && (x == NULL_SCHEMA || Suitable(x))
    ensures Suitable(Obj(f))
  {
    SimpleAreSuitable();
    assert AllOf !in f && OneOf !in f && Not !in f && Ref !in f;
    assert Items !in f && Properties !in f && AdditionalProperties !in f;
    var nonNull := NonNull(f[AnyOf].items);
    assert exists x :: x in nonNull;
    if |nonNull| == 1 {
      assert nonNull[0] in nonNull;
    }
  }

  lemma SimpleAreSuitable()
    ensures Suitable(NULL_SCHEMA) && Suitable(Bool(true)) && Suitable(Bool(false))
  {
    assert NULL_SCHEMA.fields.Keys == {Type};
  }
}
