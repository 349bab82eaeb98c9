/** When the summary says nothing: exactly which differences between two contracts go unlisted. */
module ContractSilence {
  import opened Basics
  import opened JsonTree
  import opened ContractDiff

  /** What a walk at `path` can see of a schema: `required` as a set, other keywords whole. */
  datatype View = View(properties: map<string, Json>, required: set<string>, others: map<string, Json>)

  function ViewOf(v: Option<Json>, path: Path): View {
    View(Properties(v), Required(v), Fields(v) - Reported(path))
  }

  ghost predicate AgreeOn(a: map<string, Json>, b: map<string, Json>, keys: seq<string>) {
    forall k | k in keys :: Lookup(a, k) == Lookup(b, k)
  }

  lemma AgreeTail(a: map<string, Json>, b: map<string, Json>, keys: seq<string>)
    requires keys != []
    ensures AgreeOn(a, b, keys) <==> Lookup(a, keys[0]) == Lookup(b, keys[0]) && AgreeOn(a, b, keys[1..])
  {
  }

  lemma AgreeEverywhere(a: map<string, Json>, b: map<string, Json>, without: set<string>)
    ensures AgreeOn(a, b, InOrder(a.Keys + b.Keys - without)) <==> a - without == b - without
  {
    var keys := InOrder(a.Keys + b.Keys - without);
    if AgreeOn(a, b, keys) {
      forall k | k in (a - without).Keys + (b - without).Keys
        ensures k in a && k in b && a[k] == b[k]
      {
        assert k in keys;
        assert Lookup(a, k) == Lookup(b, k);
      }
      assert (a - without).Keys == (b - without).Keys;
    }
    if a - without == b - without {
      forall k | k in keys
        ensures Lookup(a, k) == Lookup(b, k)
      {
        assert k in (a - without).Keys <==> k in (b - without).Keys;
        assert k in a ==> (a - without)[k] == (b - without)[k];
      }
    }
  }

  // ---- one level -----------------------------------------------------------

  lemma OnePropertySilent(before: map<string, Json>, after: map<string, Json>, name: string, path: Path, input: bool)
    ensures OneProperty(before, after, name, path, input) == [] <==> Lookup(before, name) == Lookup(after, name)
  {
  }

  lemma {:induction false} PropertiesSilent(before: map<string, Json>, after: map<string, Json>, names: seq<string>, path: Path, input: bool)
    ensures PropertyChanges(before, after, names, path, input) == [] <==> AgreeOn(before, after, names)
  {
    if names != [] {
      OnePropertySilent(before, after, names[0], path, input);
      PropertiesSilent(before, after, names[1..], path, input);
      AgreeTail(before, after, names);
    }
  }

  lemma NestedSilent(before: Option<Json>, after: Option<Json>, path: Path, input: bool)
    ensures Nested(before, after, path, input) == [] <==> before == after
  {
  }

  lemma {:induction false} ElementsSilent(before: seq<Json>, after: seq<Json>, key: string, i: nat, path: Path, input: bool)
    ensures Elements(before, after, key, i, path, input) == []
       <==> forall j: nat | i <= j < Max(|before|, |after|) :: ItemAt(before, j) == ItemAt(after, j)
    decreases Max(|before|, |after|) - i
  {
    if i < Max(|before|, |after|) {
      NestedSilent(ItemAt(before, i), ItemAt(after, i), path + [Item(key, i)], input);
      ElementsSilent(before, after, key, i + 1, path, input);
    }
  }

  /** Lists that agree at every position are the same list. */
  lemma SameItems(a: seq<Json>, b: seq<Json>)
    requires forall j: nat | j < Max(|a|, |b|) :: ItemAt(a, j) == ItemAt(b, j)
    ensures a == b
  {
    var m := Min(|a|, |b|);
    assert m < Max(|a|, |b|) ==> ItemAt(a, m) == ItemAt(b, m);
    forall j | 0 <= j < |a|
      ensures a[j] == b[j]
    {
      assert ItemAt(a, j) == ItemAt(b, j);
    }
  }

  lemma ListsSilent(was: Option<Json>, now: Option<Json>, key: string, path: Path, input: bool)
    requires HoldsObjects(was) || HoldsObjects(now)
    ensures Elements(Items(was), Items(now), key, 0, path, input) == [] <==> was == now
  {
    var a, b := Items(was), Items(now);
    ElementsSilent(a, b, key, 0, path, input);
    if Elements(a, b, key, 0, path, input) == [] {
      SameItems(a, b);
    }
  }

  lemma OneKeywordSilent(before: map<string, Json>, after: map<string, Json>, key: string, path: Path, input: bool)
    ensures OneKeyword(before, after, key, path, input) == [] <==> Lookup(before, key) == Lookup(after, key)
  {
    var was, now := Lookup(before, key), Lookup(after, key);
    if was == now {
    } else if input && Opens(was, now, key) {
    } else if !Literal(key) && (IsObj(was) || IsObj(now)) {
      NestedSilent(was, now, path + [Name(key)], input);
    } else if !Literal(key) && (HoldsObjects(was) || HoldsObjects(now)) {
      ListsSilent(was, now, key, path, input);
    }
  }

  lemma {:induction false} KeywordsSilent(before: map<string, Json>, after: map<string, Json>, keys: seq<string>, path: Path, input: bool)
    ensures KeywordChanges(before, after, keys, path, input) == [] <==> AgreeOn(before, after, keys)
  {
    if keys != [] {
      OneKeywordSilent(before, after, keys[0], path, input);
      KeywordsSilent(before, after, keys[1..], path, input);
      AgreeTail(before, after, keys);
    }
  }

  lemma RequirementsSilent(before: set<string>, after: set<string>, path: Path, input: bool)
    ensures RequirementChanges(before, after, path, input) == [] <==> before == after
  {
  }

  /** A schema walk is silent exactly when the two sides look the same to it. */
  lemma SchemaSilentExactly(before: Option<Json>, after: Option<Json>, path: Path, input: bool)
    ensures Schema(before, after, path, input) == [] <==> ViewOf(before, path) == ViewOf(after, path)
  {
    if before != after {
      var p, q := Properties(before), Properties(after);
      var a, b := Fields(before), Fields(after);
      PropertiesSilent(p, q, InOrder(p.Keys + q.Keys), path, input);
      assert p - {} == p && q - {} == q && p.Keys + q.Keys - {} == p.Keys + q.Keys;
      AgreeEverywhere(p, q, {});
      RequirementsSilent(Required(before), Required(after), path, input);
      KeywordsSilent(a, b, InOrder(OtherKeys(a, b, path)), path, input);
      AgreeEverywhere(a, b, Reported(path));
    }
  }

  // ---- the whole contract --------------------------------------------------

  datatype ContractView = ContractView(
    title: Option<Json>, description: Option<Json>, input: View, output: View,
    annotations: map<string, Json>, metadata: map<string, Json>, others: map<string, Json>)

  function ViewOfContract(c: Json): ContractView {
    var f := Fields(Some(c));
    ContractView(
      Lookup(f, "title"), Lookup(f, "description"),
      ViewOf(Lookup(f, "inputSchema"), []), ViewOf(Lookup(f, "outputSchema"), []),
      Fields(Lookup(f, "annotations")), Fields(Lookup(f, "_meta")), f - Known())
  }

  predicate NothingAdded(had: Evidence, has: Evidence) {
    has.urls <= had.urls && has.emails <= had.emails && has.hidden <= had.hidden
  }

  lemma {:induction false} FieldsSilent(before: map<string, Json>, after: map<string, Json>, keys: seq<string>)
    ensures FieldChanges(before, after, keys) == [] <==> AgreeOn(before, after, keys)
  {
    if keys != [] {
      FieldsSilent(before, after, keys[1..]);
      AgreeTail(before, after, keys);
    }
  }

  lemma {:induction false} AnnotationsSilent(before: map<string, Json>, after: map<string, Json>, keys: seq<string>)
    ensures AnnotationChanges(before, after, keys) == [] <==> AgreeOn(before, after, keys)
  {
    if keys != [] {
      AnnotationsSilent(before, after, keys[1..]);
      AgreeTail(before, after, keys);
    }
  }

  lemma {:induction false} MetadataSilent(before: map<string, Json>, after: map<string, Json>, keys: seq<string>)
    ensures KeyedChanges(before, after, keys) == [] <==> AgreeOn(before, after, keys)
  {
    if keys != [] {
      MetadataSilent(before, after, keys[1..]);
      AgreeTail(before, after, keys);
    }
  }

  lemma AgreeOnAll(a: map<string, Json>, b: map<string, Json>)
    ensures AgreeOn(a, b, InOrder(a.Keys + b.Keys)) <==> a == b
  {
  }

  lemma TopLevelSilent(before: Json, after: Json)
    ensures TopLevel(before, after) == [] <==> ViewOfContract(before) == ViewOfContract(after)
  {
    var a, b := Fields(Some(before)), Fields(Some(after));
    var x, y := Fields(Lookup(a, "annotations")), Fields(Lookup(b, "annotations"));
    var m, n := Fields(Lookup(a, "_meta")), Fields(Lookup(b, "_meta"));
    FieldsSilent(a, b, ["title", "description"]);
    assert AgreeOn(a, b, ["title", "description"])
      <==> Lookup(a, "title") == Lookup(b, "title") && Lookup(a, "description") == Lookup(b, "description");
    SchemaSilentExactly(Lookup(a, "inputSchema"), Lookup(b, "inputSchema"), [], true);
    SchemaSilentExactly(Lookup(a, "outputSchema"), Lookup(b, "outputSchema"), [], false);
    AnnotationsSilent(x, y, InOrder(x.Keys + y.Keys));
    AgreeOnAll(x, y);
    MetadataSilent(m, n, InOrder(m.Keys + n.Keys));
    AgreeOnAll(m, n);
    FieldsSilent(a, b, InOrder(a.Keys + b.Keys - Known()));
    AgreeEverywhere(a, b, Known());
  }

  /** An empty summary means the same view and no new evidence, and nothing else does. */
  lemma SummarySilentExactly(before: Json, after: Json, had: Evidence, has: Evidence)
    ensures Summary(before, after, had, has) == []
       <==> ViewOfContract(before) == ViewOfContract(after) && NothingAdded(had, has)
  {
    TopLevelSilent(before, after);
  }

  // ---- normalised contracts ------------------------------------------------

  predicate Names(v: Json) {
    v.Arr? && v.items != [] && forall i | 0 <= i < |v.items| :: v.items[i].Str?
  }

  predicate FilledObject(v: Option<Json>) {
    v.Some? ==> v.value.Obj? && v.value.fields != map[]
  }

  predicate NormalSchema(v: Option<Json>) {
    && FilledObject(v)
    && FilledObject(Get(v, "properties"))
    && (Get(v, "required").Some? ==> Names(Get(v, "required").value))
  }

  /** No empty or wrongly typed container where the walk looks for one. */
  predicate NormalContract(c: Json) {
    && c.Obj?
    && NormalSchema(Get(Some(c), "inputSchema"))
    && NormalSchema(Get(Some(c), "outputSchema"))
    && FilledObject(Get(Some(c), "annotations"))
    && FilledObject(Get(Some(c), "_meta"))
  }

  /** Two schemas that differ at most in how they list the same required names. */
  predicate SameSchema(a: Option<Json>, b: Option<Json>) {
    && a.Some? == b.Some?
    && Fields(a) - {"required"} == Fields(b) - {"required"}
    && Required(a) == Required(b)
  }

  predicate SameContract(a: Json, b: Json) {
    && Fields(Some(a)) - {"name", "inputSchema", "outputSchema"} == Fields(Some(b)) - {"name", "inputSchema", "outputSchema"}
    && SameSchema(Get(Some(a), "inputSchema"), Get(Some(b), "inputSchema"))
    && SameSchema(Get(Some(a), "outputSchema"), Get(Some(b), "outputSchema"))
  }

  lemma SameView(a: Option<Json>, b: Option<Json>)
    requires NormalSchema(a) && NormalSchema(b)
    ensures ViewOf(a, []) == ViewOf(b, []) <==> SameSchema(a, b)
  {
    var f, g := Fields(a), Fields(b);
    if ViewOf(a, []) == ViewOf(b, []) {
      FilledEqual(Get(a, "properties"), Get(b, "properties"));
      WithoutMore(f, g, Reported([]), {"required"});
      NoNames(a);
      NoNames(b);
    }
    if SameSchema(a, b) {
      Restrict(f, g, {"required"}, Reported([]));
      assert Lookup(f - {"required"}, "properties") == Lookup(g - {"required"}, "properties");
      assert Lookup(f, "properties") == Lookup(g, "properties");
    }
  }

  lemma FilledEqual(a: Option<Json>, b: Option<Json>)
    requires FilledObject(a) && FilledObject(b) && Fields(a) == Fields(b)
    ensures a == b
  {
  }

  lemma Restrict(a: map<string, Json>, b: map<string, Json>, less: set<string>, more: set<string>)
    requires a - less == b - less && less <= more
    ensures a - more == b - more
  {
    assert a - more == (a - less) - more;
    assert b - more == (b - less) - more;
  }

  /** Equality without `more` and on the keys between gives equality without `less`. */
  lemma WithoutMore(a: map<string, Json>, b: map<string, Json>, more: set<string>, less: set<string>)
    requires a - more == b - more && forall k | k in more - less :: Lookup(a, k) == Lookup(b, k)
    ensures a - less == b - less
  {
    forall k
      ensures k !in less ==> Lookup(a, k) == Lookup(b, k)
    {
      if k !in more {
        assert Lookup(a - more, k) == Lookup(b - more, k);
      }
    }
    forall k | k in (a - less).Keys + (b - less).Keys
      ensures k in a && k in b && a[k] == b[k]
    {
      assert Lookup(a, k) == Lookup(b, k);
    }
    assert (a - less).Keys == (b - less).Keys;
  }

  lemma NoNames(v: Option<Json>)
    requires NormalSchema(v)
    ensures Required(v) == {} <==> Get(v, "required").None?
  {
    if Get(v, "required").Some? {
      var items := Get(v, "required").value.items;
      assert items[0].text in RequiredIn(items);
    }
  }

  /** Normalised contracts that differ anywhere but `name` never give an empty summary. */
  lemma NoSilentDifference(before: Json, after: Json, had: Evidence, has: Evidence)
    requires NormalContract(before) && NormalContract(after)
    ensures Summary(before, after, had, has) == [] <==> SameContract(before, after) && NothingAdded(had, has)
  {
    SummarySilentExactly(before, after, had, has);
    SameContractView(before, after);
  }

  lemma SameContractView(a: Json, b: Json)
    requires NormalContract(a) && NormalContract(b)
    ensures ViewOfContract(a) == ViewOfContract(b) <==> SameContract(a, b)
  {
    var f, g := Fields(Some(a)), Fields(Some(b));
    SameView(Get(Some(a), "inputSchema"), Get(Some(b), "inputSchema"));
    SameView(Get(Some(a), "outputSchema"), Get(Some(b), "outputSchema"));
    var less := {"name", "inputSchema", "outputSchema"};
    if ViewOfContract(a) == ViewOfContract(b) {
      FilledEqual(Lookup(f, "annotations"), Lookup(g, "annotations"));
      FilledEqual(Lookup(f, "_meta"), Lookup(g, "_meta"));
      WithoutMore(f, g, Known(), less);
    }
    if SameContract(a, b) {
      Restrict(f, g, less, Known());
      forall k | k in Known() - less
        ensures Lookup(f, k) == Lookup(g, k)
      {
        assert Lookup(f - less, k) == Lookup(g - less, k);
      }
    }
  }

  /** Without normalisation a schema can be switched off or on and nothing is listed. */
  lemma ScalarSchemaSwapIsSilent(none: Evidence)
    ensures Summary(Obj(map["inputSchema" := Bool(false)]), Obj(map["inputSchema" := Bool(true)]), none, none) == []
  {
    var a, b := Obj(map["inputSchema" := Bool(false)]), Obj(map["inputSchema" := Bool(true)]);
    SummarySilentExactly(a, b, none, none);
    assert Fields(Some(a)) - Known() == Fields(Some(b)) - Known();
  }
}
