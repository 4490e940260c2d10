/**
 The rewrite of OpenAPI 3.1 nullable schemas, `anyOf` with a null branch, into OpenAPI 3.0's
 `nullable: true`, as it walks over a whole JSON document.
 */
module NullableRewrite {
  import opened Wrappers
  import opened Filtering

  /**
   The keys of a dictionary: the names with a meaning here, the annotations of a schema (title,
   description, default, example and the like), and all other strings.
   */
  datatype Key =
    | AnyOf | AllOf | OneOf | Not | Items | Properties | AdditionalProperties
    | Ref                                          // `$ref`
    | Nullable | Type | Components | Schemas
    | HoldsOne(name: string)                       // other keywords that hold one schema,
    | HoldsList(name: string)                      // a list of schemas,
    | HoldsNamed(name: string)                     // or schemas by name
    | Annotation(name: string)
    | Other(name: string)

  datatype Json =
    | Null
    | Bool(b: bool)
    | Num(n: int)
    | Str(s: string)
    | Arr(items: seq<Json>)
    | Obj(fields: map<Key, Json>)

  /** The branch that stands for null. */
  const NULL_SCHEMA := Obj(map[Type := Str("null")])

  // ---------------------------------------------------------------- heights

  ghost function Height(j: Json): nat {
    match j
    case Arr(items) => 1 + SeqHeight(items)
    case Obj(fields) => 1 + Largest(set k <- fields :: Height(fields[k]))
    case _ => 0
  }

  ghost function SeqHeight(items: seq<Json>): (h: nat)
    ensures forall x <- items :: Height(x) <= h
  {
    if items == [] then 0 else
    var first, rest := Height(items[0]), SeqHeight(items[1..]);
    assert forall x <- items :: x == items[0] || x in items[1..];
    if first > rest then first else rest
  }

  ghost function MapHeight(fields: map<Key, Json>): (h: nat)
    ensures forall k <- fields :: Height(fields[k]) <= h
    ensures Height(Obj(fields)) == 1 + h
  {
    var heights := set k <- fields :: Height(fields[k]);
    assert forall k <- fields :: Height(fields[k]) in heights;
    Largest(heights)
  }

  ghost function Largest(s: set<nat>): (m: nat)
    ensures forall x <- s :: x <= m
    ensures m in s || (s == {} && m == 0)
  {
    if s == {} then 0 else
    var x :| x in s;
    var m := Largest(s - {x});
    assert forall y <- s :: y == x || y in s - {x};
    if x > m then x else m
  }

  // ---------------------------------------------------------------- the rewrite

  function NonNull(branches: seq<Json>): (r: seq<Json>)
    ensures forall b :: b in r <==> b in branches && b != NULL_SCHEMA
    ensures |r| <= |branches|
    ensures |r| < |branches| <==> NULL_SCHEMA in branches
  {
    if branches == [] then [] else
    assert forall b :: b in branches <==> b == branches[0] || b in branches[1..];
    if branches[0] == NULL_SCHEMA then NonNull(branches[1..]) else [branches[0]] + NonNull(branches[1..])
  }

  /** The guard of the rewrite: an `anyOf` list with a null branch. */
  predicate HasNullBranch(f: map<Key, Json>) {
    AnyOf in f && f[AnyOf].Arr? && NULL_SCHEMA in f[AnyOf].items
  }

  /** Python's `in` on strings. */
  predicate ContainsText(s: string, part: string) {
    exists i | 0 <= i <= |s| :: part <= s[i..]
  }

  /** Python's `"$ref" in sole`, for what it can be asked of: a key, a substring or a member. */
  predicate MentionsRef(sole: Json) {
    match sole
    case Obj(fields) => Ref in fields
    case Str(s) => ContainsText(s, "$ref")
    case Arr(items) => Str("$ref") in items
    case _ => false
  }

  /** Put the branches other than null back into what is left of the dictionary. */
  function Merge(rest: map<Key, Json>, nonNull: seq<Json>): map<Key, Json> {
    if |nonNull| == 1 then
      var sole := nonNull[0];
      if MentionsRef(sole) then rest[AllOf := Arr([sole])]
      else if sole.Obj? then rest + sole.fields
      else rest
    else if |nonNull| > 1 then rest[AnyOf := Arr(nonNull)]
    else rest
  }

  /** What the rewrite does to one dictionary, before it descends. */
  function Local(f: map<Key, Json>): map<Key, Json> {
    if !HasNullBranch(f) then f
    else Merge(f - {AnyOf}, NonNull(f[AnyOf].items))[Nullable := Bool(true)]
  }

  lemma {:induction false} NonNullIsNotHigher(branches: seq<Json>)
    ensures SeqHeight(NonNull(branches)) <= SeqHeight(branches)
  {
    if branches != [] {
      NonNullIsNotHigher(branches[1..]);
      var r := NonNull(branches);
      if branches[0] != NULL_SCHEMA {
        assert r[0] == branches[0] && r[1..] == NonNull(branches[1..]);
      }
    }
  }

  ghost predicate Within(g: map<Key, Json>, bound: nat) {
    forall k <- g :: Height(g[k]) <= bound
  }

  lemma LocalIsNotHigher(f: map<Key, Json>)
    ensures Within(Local(f), MapHeight(f))
  {
    if HasNullBranch(f) {
      var branches := f[AnyOf].items;
      assert 1 + SeqHeight(branches) == Height(f[AnyOf]) <= MapHeight(f);
      NonNullIsNotHigher(branches);
      MergeIsWithin(f - {AnyOf}, NonNull(branches), MapHeight(f));
    }
  }

  lemma MergeIsWithin(rest: map<Key, Json>, nonNull: seq<Json>, bound: nat)
    requires Within(rest, bound) && SeqHeight(nonNull) < bound
    ensures Within(Merge(rest, nonNull), bound)
  {
    if |nonNull| == 1 {
      SoleIsLower(nonNull, nonNull[0]);
    }
  }

  lemma SoleIsLower(branches: seq<Json>, sole: Json)
    requires sole in branches
    ensures Height(Arr([sole])) <= Height(Arr(branches))
    ensures Height(sole) < Height(Arr(branches))
    ensures sole.Obj? ==> forall k <- sole.fields :: Height(sole.fields[k]) < Height(sole)
  {
    assert [sole][1..] == [];
    assert Height(sole) <= SeqHeight(branches);
    assert sole.Obj? ==> Height(sole) == 1 + MapHeight(sole.fields);
    assert SeqHeight([sole]) == Height(sole);
  }

  lemma FieldsAreLower(f: map<Key, Json>)
    ensures forall k <- f :: Height(f[k]) < Height(Obj(f))
  {
    assert Height(Obj(f)) == 1 + MapHeight(f);
  }

  /** The document after the rewrite, where it does not raise. */
  function Fix(j: Json): Json
    decreases Height(j), 0
  {
    match j
    case Arr(items) => Arr(FixItems(items))
    case Obj(f) =>
      LocalIsNotHigher(f);
      assert Height(j) == 1 + MapHeight(f);
      Obj(map k <- Local(f) :: Fix(Local(f)[k]))
    case _ => j
  }

  function FixItems(items: seq<Json>): (r: seq<Json>)
    ensures |r| == |items| && forall i :: 0 <= i < |items| ==> r[i] == Fix(items[i])
    decreases SeqHeight(items), 1 + |items|
  {
    if items == [] then [] else [Fix(items[0])] + FixItems(items[1..])
  }

  /** A dictionary can be merged with the sole branch: a reference to keep, a dictionary, or nothing at all. */
  predicate CanMerge(sole: Json) { MentionsRef(sole) || sole.Obj? || sole == Str("") || sole == Arr([]) }

  /**
   The dictionary is malformed where the rewrite looks at it: no iterable under `anyOf`, or a sole branch
   to choke on.
   */
  predicate IsMalformed(f: map<Key, Json>) {
    AnyOf in f &&
    (match f[AnyOf]
     case Arr(branches) =>
       var nonNull := NonNull(branches);
       |nonNull| < |branches| && |nonNull| == 1 && !CanMerge(nonNull[0])
     case Null => true
     case Bool(_) => true
     case Num(_) => true
     case _ => false)
  }

  /** Some dictionary that the rewrite visits is malformed. */
  predicate Raises(j: Json)
    decreases Height(j)
  {
    match j
    case Arr(items) => exists x <- items :: Raises(x)
    case Obj(f) =>
      LocalIsNotHigher(f);
      assert Height(j) == 1 + MapHeight(f);
      IsMalformed(f) || exists k <- Local(f) :: Raises(Local(f)[k])
    case _ => false
  }

  datatype Error = TypeError

  /** The program's first half: delete, update and add keys of one dictionary. */
  method RewriteDictionary(f: map<Key, Json>) returns (r: Result<map<Key, Json>, Error>)
    ensures r == if IsMalformed(f) then Failure(TypeError) else Success(Local(f))
  {
    var fields := f;
    if AnyOf in fields {
      if fields[AnyOf].Null? || fields[AnyOf].Bool? || fields[AnyOf].Num? {
        return Failure(TypeError);
      }
      if fields[AnyOf].Arr? {
        var branches := fields[AnyOf].items;
        var nonNull := NonNull(branches);
        if |nonNull| < |branches| {
          fields := fields - {AnyOf};
          if |nonNull| == 1 {
            var sole := nonNull[0];
            if MentionsRef(sole) {
              fields := fields[AllOf := Arr([sole])];
            } else if sole.Obj? {
              fields := fields + sole.fields;
            } else if sole != Str("") && sole != Arr([]) {
              return Failure(TypeError);
            }
          } else if |nonNull| > 1 {
            fields := fields[AnyOf := Arr(nonNull)];
          }
          fields := fields[Nullable := Bool(true)];
        }
      }
    }
    r := Success(fields);
  }

  /** The whole program: rewrite a dictionary, then descend into what it then holds. */
  method FixOas30Nullable(j: Json) returns (r: Result<Json, Error>)
    ensures r == if Raises(j) then Failure(TypeError) else Success(Fix(j))
    decreases Height(j), 1
  {
    match j {
      case Obj(f) =>
        var rewritten := RewriteDictionary(f);
        if rewritten.Failure? {
          return Failure(TypeError);
        }
        LocalIsNotHigher(f);
        assert Height(j) == 1 + MapHeight(f);
        var values := FixValues(rewritten.value, Height(j));
        if values.Failure? {
          return Failure(TypeError);
        }
        assert values.value == Fix(j).fields;
        r := Success(Obj(values.value));
      case Arr(items) =>
        var fixed := items;
        for i := 0 to |items|
          invariant |fixed| == |items|
          invariant forall k :: 0 <= k < |items| ==> fixed[k] == if k < i then Fix(items[k]) else items[k]
          invariant forall k :: 0 <= k < i ==> !Raises(items[k])
        {
          assert items[i] in items;
          var item := FixOas30Nullable(fixed[i]);
          if item.Failure? {
            return item;
          }
          fixed := fixed[i := item.value];
        }
        assert fixed == Fix(j).items;
        assert forall x <- items :: !Raises(x);
        r := Success(Arr(fixed));
      case _ =>
        r := Success(j);
    }
  }

  /** The loop over the values of a dictionary. */
  method FixValues(g: map<Key, Json>, ghost bound: nat) returns (r: Result<map<Key, Json>, Error>)
    requires forall k <- g :: Height(g[k]) < bound
    ensures r.Failure? <==> exists k <- g :: Raises(g[k])
    ensures r.Success? ==> r.value == map k <- g :: Fix(g[k])
    decreases bound, 0
  {
    var fields, pending := g, g.Keys;
    while pending != {}
      invariant pending <= fields.Keys == g.Keys
      invariant forall k <- g :: fields[k] == if k in pending then g[k] else Fix(g[k])
      invariant forall k <- g :: k !in pending ==> !Raises(g[k])
      decreases pending
    {
      var k :| k in pending;
      var value := FixOas30Nullable(fields[k]);
      if value.Failure? {
        return Failure(TypeError);
      }
      fields, pending := fields[k := value.value], pending - {k};
    }
    assert forall k <- g :: !Raises(g[k]);
    assert fields == map k <- g :: Fix(g[k]);
    r := Success(fields);
  }

  // ---------------------------------------------------------------- what arrives in the document

  function NotNull(branch: Json): bool { branch != NULL_SCHEMA }

  /** The branches other than null, each as often as it is listed and in the order listed. */
  lemma {:induction false} NonNullKeepsOrder(branches: seq<Json>) returns (at: seq<nat>)
    ensures PickedAt(branches, NonNull(branches), at)
    ensures forall k: nat :: k < |branches| ==> (k in at <==> branches[k] != Obj(map[Type := Str("null")]))
  {
    NonNullIsMatching(branches);
    at := MatchingExactly(branches, NotNull);
  }

  lemma {:induction false} NonNullIsMatching(branches: seq<Json>)
    ensures NonNull(branches) == Matching(branches, NotNull)
  {
    if branches != [] {
      NonNullIsMatching(branches[1..]);
    }
  }

  /** The one branch that is not null. */
  predicate IsOnlyOther(branches: seq<Json>, i: nat) {
    && i < |branches| && branches[i] != NULL_SCHEMA
    && forall j :: 0 <= j < |branches| && j != i ==> branches[j] == NULL_SCHEMA
  }

  lemma OnlyOtherIsSole(branches: seq<Json>, i: nat)
    requires IsOnlyOther(branches, i)
    ensures NonNull(branches) == [branches[i]]
  {
    var at := NonNullKeepsOrder(branches);
    assert i in at;
    forall x | x in at ensures x == i {
      assert x < |branches|;
    }
    Repeats(at, i);
  }

  lemma FirstTwoDiffer(at: seq<nat>)
    requires forall x, y :: 0 <= x < y < |at| ==> at[x] < at[y]
    requires |at| >= 2
    ensures exists a, b :: a in at && b in at && a != b
  {
    assert at[0] in at && at[1] in at && at[0] < at[1];
  }

  lemma Repeats(at: seq<nat>, i: nat)
    requires forall x, y :: 0 <= x < y < |at| ==> at[x] < at[y]
    requires forall x <- at :: x == i
    requires i in at
    ensures at == [i]
  {
    if |at| >= 2 {
      FirstTwoDiffer(at);
      assert false;
    }
  }

  lemma SoleIsOnlyOther(branches: seq<Json>) returns (i: nat)
    requires |NonNull(branches)| == 1
    ensures IsOnlyOther(branches, i) && NonNull(branches) == [branches[i]]
  {
    var at := NonNullKeepsOrder(branches);
    i := at[0];
    assert i in at;
    forall j | 0 <= j < |branches| && j != i ensures branches[j] == NULL_SCHEMA {
      assert j !in at;
    }
  }

  /** What a dictionary with a null branch comes to hold, whatever it held: its keys, and where each value is from. */
  lemma DictionaryIsFixed(f: map<Key, Json>)
    requires HasNullBranch(f)
    ensures var branches, h := NonNull(f[AnyOf].items), Fix(Obj(f)).fields;
      && h.Keys == f.Keys - {AnyOf} + WrittenKeys(branches) + {Nullable}
      && h[Nullable] == Bool(true)
      && (forall k <- f :: k != AnyOf && k != Nullable && k !in WrittenKeys(branches) ==> h[k] == Fix(f[k]))
      && (|branches| > 1 ==> h[AnyOf] == Fix(Arr(branches)))
      && (|branches| == 1 && MentionsRef(branches[0]) ==> h[AllOf] == Arr([Fix(branches[0])]))
      && (|branches| == 1 && branches[0].Obj? && Ref !in branches[0].fields ==>
            forall k <- branches[0].fields :: k != Nullable ==> h[k] == Fix(branches[0].fields[k]))
  {
    var branches, h := NonNull(f[AnyOf].items), Fix(Obj(f)).fields;
    assert h.Keys == Local(f).Keys;
    if |branches| == 1 && MentionsRef(branches[0]) {
      assert h[AllOf] == Fix(Arr([branches[0]]));
      assert Fix(Arr([branches[0]])).items == [Fix(branches[0])];
    }
  }

  /** The keys that are written from the branches other than null. */
  function WrittenKeys(branches: seq<Json>): set<Key> {
    if |branches| > 1 then {AnyOf}
    else if |branches| == 1 && MentionsRef(branches[0]) then {AllOf}
    else if |branches| == 1 && branches[0].Obj? then branches[0].fields.Keys
    else {}
  }

  /** Any other dictionary keeps its keys, a list its length, and anything else is left as it is. */
  lemma OthersAreFixed(j: Json)
    ensures j.Obj? && !HasNullBranch(j.fields) ==>
      Fix(j).Obj? && Fix(j).fields == map k <- j.fields :: Fix(j.fields[k])
    ensures j.Arr? ==> Fix(j).Arr? && |Fix(j).items| == |j.items|
    ensures j.Arr? ==> forall i :: 0 <= i < |j.items| ==> Fix(j).items[i] == Fix(j.items[i])
    ensures !j.Obj? && !j.Arr? ==> Fix(j) == j
  {
  }

  /** A sibling that is not overwritten, such as a title, and a key of the merged branch arrive unchanged if clean. */
  lemma CleanValuesArrive(f: map<Key, Json>, k: Key)
    requires HasNullBranch(f) && k != AnyOf && k != Nullable
    ensures var branches, h := NonNull(f[AnyOf].items), Fix(Obj(f)).fields;
      && (k in f && k !in WrittenKeys(branches) && Clean(f[k]) ==> k in h && h[k] == f[k])
      && (&& |branches| == 1 && branches[0].Obj? && Ref !in branches[0].fields
          && k in branches[0].fields && Clean(branches[0].fields[k]) ==>
            k in h && h[k] == branches[0].fields[k])
  {
    DictionaryIsFixed(f);
    var branches := NonNull(f[AnyOf].items);
    if k in f {
      FixedExactlyWhenClean(f[k]);
    }
    if |branches| == 1 && branches[0].Obj? && k in branches[0].fields {
      FixedExactlyWhenClean(branches[0].fields[k]);
    }
  }

  /**
   Where the walk stops: at an `anyOf` that cannot be iterated, or at one with null and a single other
   branch that is neither a dictionary, nor mentions a reference, nor is empty; and nowhere else.
   */
  lemma RaisesExactly(f: map<Key, Json>)
    ensures Raises(Obj(f)) <==>
      || (AnyOf in f && (f[AnyOf].Null? || f[AnyOf].Bool? || f[AnyOf].Num?))
      || (&& HasNullBranch(f)
          && exists i: nat | i < |f[AnyOf].items| :: IsOnlyOther(f[AnyOf].items, i) && Chokes(f[AnyOf].items[i]))
      || exists k <- Local(f) :: Raises(Local(f)[k])
  {
    if HasNullBranch(f) {
      var items := f[AnyOf].items;
      forall i: nat | i < |items| && IsOnlyOther(items, i) ensures NonNull(items) == [items[i]] {
        OnlyOtherIsSole(items, i);
      }
      if |NonNull(items)| == 1 {
        var i := SoleIsOnlyOther(items);
        assert CanMerge(items[i]) <==> !Chokes(items[i]);
      }
    }
  }

  predicate Chokes(sole: Json) {
    match sole
    case Obj(_) => false
    case Str(s) => s != "" && !ContainsText(s, "$ref")
    case Arr(items) => items != [] && Str("$ref") !in items
    case _ => true
  }

  // ---------------------------------------------------------------- what is left, and running it again

  /** No `anyOf` list anywhere has a null branch. */
  predicate Clean(j: Json)
    decreases Height(j)
  {
    match j
    case Arr(items) => forall x <- items :: Clean(x)
    case Obj(f) =>
      FieldsAreLower(f);
      !HasNullBranch(f) && forall k <- f :: Clean(f[k])
    case _ => true
  }

  /**
   The sole branch that is merged into its parent brings a nullable `anyOf` of its own, which is not
   looked at again.
   */
  predicate BringsNullBranch(f: map<Key, Json>) {
    HasNullBranch(f) &&
    (var nonNull := NonNull(f[AnyOf].items);
     |nonNull| == 1 && nonNull[0].Obj? && Ref !in nonNull[0].fields && HasNullBranch(nonNull[0].fields))
  }

  /** No dictionary that the rewrite visits has such a sole branch. */
  predicate Settles(j: Json)
    decreases Height(j)
  {
    match j
    case Arr(items) => forall x <- items :: Settles(x)
    case Obj(f) =>
      LocalIsNotHigher(f);
      assert Height(j) == 1 + MapHeight(f);
      !BringsNullBranch(f) && forall k <- Local(f) :: Settles(Local(f)[k])
    case _ => true
  }

  lemma LocalHasNullBranch(f: map<Key, Json>)
    ensures HasNullBranch(Local(f)) <==> BringsNullBranch(f)
  {
  }

  /** A rewritten value is the null branch only if it was. */
  lemma FixKeepsNullSchema(j: Json)
    ensures Fix(j) == NULL_SCHEMA <==> j == NULL_SCHEMA
  {
    if j == NULL_SCHEMA {
      assert Fix(j).fields == NULL_SCHEMA.fields;
    }
    if Fix(j) == NULL_SCHEMA {
      assert Fix(j).fields.Keys == Local(j.fields).Keys == {Type};
      assert Nullable !in Local(j.fields);
      assert Fix(j.fields[Type]) == Str("null");
      assert j.fields == NULL_SCHEMA.fields;
    }
  }

  lemma FixKeepsNullBranches(f: map<Key, Json>, g: map<Key, Json>)
    requires g.Keys == f.Keys && forall k <- f :: g[k] == Fix(f[k])
    ensures HasNullBranch(g) <==> HasNullBranch(f)
  {
    if AnyOf in f && f[AnyOf].Arr? {
      var items := f[AnyOf].items;
      forall i | 0 <= i < |items| ensures g[AnyOf].items[i] == NULL_SCHEMA <==> items[i] == NULL_SCHEMA {
        FixKeepsNullSchema(items[i]);
      }
      assert NULL_SCHEMA in items ==> exists i :: 0 <= i < |items| && items[i] == NULL_SCHEMA;
    }
  }

  /** The rewrite leaves no null branch exactly when no sole branch brings one. */
  lemma {:induction false} CleanExactlyWhenSettled(j: Json)
    ensures Clean(Fix(j)) <==> Settles(j)
    decreases Height(j)
  {
    match j
    case Arr(items) =>
      forall i | 0 <= i < |items| ensures Clean(Fix(items[i])) <==> Settles(items[i]) {
        assert items[i] in items;
        CleanExactlyWhenSettled(items[i]);
      }
    case Obj(f) =>
      LocalIsNotHigher(f);
      assert Height(j) == 1 + MapHeight(f);
      LocalHasNullBranch(f);
      FixKeepsNullBranches(Local(f), Fix(j).fields);
      forall k | k in Local(f) ensures Clean(Fix(Local(f)[k])) <==> Settles(Local(f)[k]) {
        CleanExactlyWhenSettled(Local(f)[k]);
      }
      assert forall k <- Local(f) :: Fix(j).fields[k] == Fix(Local(f)[k]);
    case _ =>
  }

  lemma {:induction false} FixIsNotHigher(j: Json)
    ensures Height(Fix(j)) <= Height(j)
    decreases Height(j)
  {
    match j
    case Arr(items) =>
      forall x | x in items ensures Height(Fix(x)) <= Height(x) {
        FixIsNotHigher(x);
      }
      SeqHeightBound(Fix(j).items, SeqHeight(items));
    case Obj(f) =>
      LocalIsNotHigher(f);
      assert Height(j) == 1 + MapHeight(f);
      forall k | k in Local(f) ensures Height(Fix(Local(f)[k])) <= MapHeight(f) {
        FixIsNotHigher(Local(f)[k]);
      }
    case _ =>
  }

  lemma {:induction false} SeqHeightBound(items: seq<Json>, bound: nat)
    requires forall x <- items :: Height(x) <= bound
    ensures SeqHeight(items) <= bound
  {
    if items != [] {
      assert items[0] in items && forall x <- items[1..] :: x in items;
      SeqHeightBound(items[1..], bound);
    }
  }

  /** A dictionary with a null branch comes out different: shorter, without `anyOf`, or with a lower one. */
  lemma NullBranchIsChanged(f: map<Key, Json>)
    requires HasNullBranch(f)
    ensures Fix(Obj(f)) != Obj(f)
  {
    var branches, g := f[AnyOf].items, Local(f);
    var nonNull := NonNull(branches);
    if AnyOf in g {
      if |nonNull| == 1 {
        var sole := nonNull[0];
        assert sole in branches && g[AnyOf] == sole.fields[AnyOf];
        SoleIsLower(branches, sole);
        FixIsNotHigher(g[AnyOf]);
      } else {
        assert |Fix(g[AnyOf]).items| == |nonNull| < |branches|;
      }
      assert Fix(Obj(f)).fields[AnyOf] == Fix(g[AnyOf]) != f[AnyOf];
    } else {
      assert AnyOf !in Fix(Obj(f)).fields;
    }
  }

  /** The rewrite leaves a document as it is exactly when there is nothing to rewrite. */
  lemma {:induction false} FixedExactlyWhenClean(j: Json)
    ensures Fix(j) == j <==> Clean(j)
    decreases Height(j)
  {
    match j
    case Arr(items) =>
      forall i | 0 <= i < |items| ensures Fix(items[i]) == items[i] <==> Clean(items[i]) {
        assert items[i] in items;
        FixedExactlyWhenClean(items[i]);
      }
      assert Fix(j).items == items <==> forall i :: 0 <= i < |items| ==> Fix(items[i]) == items[i];
    case Obj(f) =>
      if HasNullBranch(f) {
        NullBranchIsChanged(f);
      } else {
        FieldsAreLower(f);
        forall k | k in f ensures Fix(f[k]) == f[k] <==> Clean(f[k]) {
          FixedExactlyWhenClean(f[k]);
        }
        assert Fix(j).fields == f <==> forall k <- f :: Fix(f[k]) == f[k];
      }
    case _ =>
  }

  /** Rewriting twice is rewriting once, exactly when no sole branch brings a null branch. */
  lemma IdempotentExactlyWhenSettled(j: Json)
    ensures Fix(Fix(j)) == Fix(j) <==> Settles(j)
  {
    FixedExactlyWhenClean(Fix(j));
    CleanExactlyWhenSettled(j);
  }

  function Optionally(j: Json): Json { Obj(map[AnyOf := Arr([j, NULL_SCHEMA])]) }

  /** An optional of an optional, for one, is not settled: rewriting it leaves the inner null branch where it was. */
  lemma OptionalOfOptional(x: Json)
    requires x != NULL_SCHEMA
    ensures !Settles(Optionally(Optionally(x)))
    ensures !Clean(Fix(Optionally(Optionally(x))))
  {
    var inner := Optionally(x);
    var f := Optionally(inner).fields;
    assert f[AnyOf].items[1] == NULL_SCHEMA && inner.fields[AnyOf].items[1] == NULL_SCHEMA;
    assert AnyOf in inner.fields && inner != NULL_SCHEMA;
    assert NonNull([inner, NULL_SCHEMA]) == [inner] by {
      assert [inner, NULL_SCHEMA][1..] == [NULL_SCHEMA] && [NULL_SCHEMA][1..] == [];
    }
    assert BringsNullBranch(f);
    CleanExactlyWhenSettled(Optionally(inner));
  }
}
