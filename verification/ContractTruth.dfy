/**
 Exactly which changes are listed: a walk lists a change when and only when what it says is so
 at a place that can be reached. What can be said of a place is defined without the walk.
 */
module ContractTruth {
  import opened Basics
  import opened JsonTree
  import opened ContractDiff
  import opened ContractSilence
  import opened ContractFlags

  function SegOf(hop: Hop): Seg {
    match hop
    case Prop(n) => Name(n)
    case Key(k) => Name(k)
    case Elem(k, i) => Item(k, i)
  }

  /** What stands one step down on either side, if anything. */
  function Sides(p: Place, hop: Hop): (Option<Json>, Option<Json>) {
    match hop
    case Prop(n) => (Lookup(Properties(p.before), n), Lookup(Properties(p.after), n))
    case Key(k) => (Get(p.before, k), Get(p.after, k))
    case Elem(k, i) => (ItemAt(Items(Get(p.before, k)), i), ItemAt(Items(Get(p.after, k)), i))
  }

  predicate Differs(p: Place, key: string) {
    Get(p.before, key) != Get(p.after, key)
  }

  /** An input schema refused the properties it does not name and no longer does. */
  predicate StopsRefusing(p: Place, key: string) {
    p.input && Opens(Get(p.before, key), Get(p.after, key), key)
  }

  /** A keyword that holds a schema, or a list of them, on either side. */
  predicate HoldsSchema(p: Place, key: string) {
    IsObj(Get(p.before, key)) || IsObj(Get(p.after, key))
  }

  predicate HoldsSchemas(p: Place, key: string) {
    !HoldsSchema(p, key) && (HoldsObjects(Get(p.before, key)) || HoldsObjects(Get(p.after, key)))
  }

  /** The pair one step down is compared as a definition of its own. */
  predicate Entered(p: Place, hop: Hop) {
    match hop
    case Prop(_) => true
    case Key(k) => Descends(p, k) && !StopsRefusing(p, k) && HoldsSchema(p, k)
    case Elem(k, _) => Descends(p, k) && !StopsRefusing(p, k) && HoldsSchemas(p, k)
  }

  /** What is said of two definitions: each of four parts that differs, or that they differ in no way that shows. */
  predicate OwnDiffers(x: Json, y: Json, what: What, path: Path) {
    match what
    case TypeChanged => Get(Some(x), "type") != Get(Some(y), "type")
    case DescriptionChanged => Get(Some(x), "description") != Get(Some(y), "description")
    case ValuesChanged => Get(Some(x), "enum") != Get(Some(y), "enum")
    case DefaultChanged => Get(Some(x), "default") != Get(Some(y), "default")
    case DefinitionChanged =>
      && x != y && ViewOf(Some(x), path) == ViewOf(Some(y), path)
      && (forall k | k in {"type", "description", "enum", "default"} :: Get(Some(x), k) == Get(Some(y), k))
    case _ => false
  }

  /**
   The words of the vocabulary above: where parameters and demands stand, which keywords hold
   values, which can open an input up, and which are left to a definition's own comparison.
   */
  lemma VocabularyExactly(p: Place, key: string, name: string)
    ensures Properties(p.after) == Fields(Get(p.after, "properties"))
    ensures name in Required(p.after) <==> Str(name) in Items(Get(p.after, "required"))
    ensures StopsRefusing(p, key) <==>
            && p.input && key in {"additionalProperties", "unevaluatedProperties"}
            && Get(p.before, key) == Some(Bool(false)) && Get(p.after, key) != Some(Bool(false))
    ensures Descends(p, key) <==>
            && key !in {"properties", "required", "examples", "default", "const", "enum"}
            && (p.path != [] ==> key !in {"type", "description"})
    ensures Literal(key) && key !in Reported(p.path) <==>
            key in {"examples", "const"} || (p.path == [] && key in {"default", "enum"})
  {
    var items := Items(Get(p.after, "required"));
    if Str(name) in items {
      var i :| 0 <= i < |items| && items[i] == Str(name);
      assert items[i].text in RequiredIn(items);
    }
  }

  /** `c` says what became of the pair one step down. */
  predicate SaidOfStep(p: Place, c: Change, hop: Hop) {
    && Entered(p, hop) && c.input == p.input && c.path == p.path + [SegOf(hop)]
    && match Sides(p, hop)
       case (None, Some(_)) => c.what == Added && c.flag == if hop.Prop? && p.input then Some(NewInput) else None
       case (Some(_), None) => c.what == Removed && c.flag.None?
       case (Some(x), Some(y)) => c.flag.None? && OwnDiffers(x, y, c.what, c.path)
       case (None, None) => false
  }

  /** `c` says what became of the requirements and keywords of the place itself. */
  predicate SaidHere(p: Place, c: Change, hop: Hop) {
    && c.input == p.input
    && match c.what
       case NowRequired =>
         && hop.Prop? && c.path == p.path + [SegOf(hop)] && c.flag == FlagIf(p.input, MustSupply)
         && hop.name in Required(p.after) && hop.name !in Required(p.before)
       case NoLongerRequired =>
         && hop.Prop? && c.path == p.path + [SegOf(hop)] && c.flag.None?
         && hop.name in Required(p.before) && hop.name !in Required(p.after)
       case Opened(k) => c.path == p.path && c.flag == Some(Undescribed) && StopsRefusing(p, k)
       case KeywordChanged(k) =>
         && c.path == p.path && c.flag.None? && k !in Reported(p.path) && Differs(p, k) && !StopsRefusing(p, k)
         && (Literal(k) || (!HoldsSchema(p, k) && !HoldsSchemas(p, k)))
       case _ => false
  }

  predicate Said(p: Place, c: Change, hop: Hop) {
    SaidHere(p, c, hop) || SaidOfStep(p, c, hop)
  }

  // ---- definitions ---------------------------------------------------------

  lemma OwnChangesExactly(x: Json, y: Json, path: Path, input: bool, c: Change)
    ensures c in OwnChanges(x, y, path, input) <==>
            c.input == input && c.path == path && c.flag.None? && !c.what.DefinitionChanged? && OwnDiffers(x, y, c.what, path)
  {
    var a := If(Get(Some(x), "type") != Get(Some(y), "type"), Change(TypeChanged, input, path, None));
    var b := If(Get(Some(x), "description") != Get(Some(y), "description"), Change(DescriptionChanged, input, path, None));
    var d := If(Get(Some(x), "enum") != Get(Some(y), "enum"), Change(ValuesChanged, input, path, None));
    var e := If(Get(Some(x), "default") != Get(Some(y), "default"), Change(DefaultChanged, input, path, None));
    InFour(a, b, d, e, c);
    assert OwnChanges(x, y, path, input) == a + b + d + e;
  }

  lemma InFour(a: seq<Change>, b: seq<Change>, d: seq<Change>, e: seq<Change>, c: Change)
    ensures c in a + b + d + e <==> c in a || c in b || c in d || c in e
  {
  }

  function Rank(what: What): nat {
    match what
    case TypeChanged => 0
    case DescriptionChanged => 1
    case ValuesChanged => 2
    case DefaultChanged => 3
    case _ => 4
  }

  /** A definition's own changes are listed once each: type, description, values, default. */
  lemma OwnChangesInOrder(x: Json, y: Json, path: Path, input: bool)
    ensures var r := OwnChanges(x, y, path, input);
            forall i, j | 0 <= i < j < |r| :: Rank(r[i].what) < Rank(r[j].what)
  {
  }

  lemma NoOwnChanges(x: Json, y: Json, path: Path, input: bool)
    ensures OwnChanges(x, y, path, input) == [] <==>
            forall k | k in {"type", "description", "enum", "default"} :: Get(Some(x), k) == Get(Some(y), k)
  {
  }

  lemma PropertyExactly(x: Json, y: Json, path: Path, input: bool, c: Change)
    requires x != y
    ensures c in Property(x, y, path, input) <==>
            || (c.input == input && c.path == path && c.flag.None? && OwnDiffers(x, y, c.what, path))
            || c in Schema(Some(x), Some(y), path, input)
  {
    OwnChangesExactly(x, y, path, input, c);
    NoOwnChanges(x, y, path, input);
    SchemaSilentExactly(Some(x), Some(y), path, input);
    PropertyList(x, y, path, input);
    InTwo(OwnChanges(x, y, path, input), Schema(Some(x), Some(y), path, input), c);
  }

  lemma PropertyList(x: Json, y: Json, path: Path, input: bool)
    ensures var r := OwnChanges(x, y, path, input) + Schema(Some(x), Some(y), path, input);
            Property(x, y, path, input) == if r == [] then [Change(DefinitionChanged, input, path, None)] else r
  {
    if !x.Obj? && !y.Obj? {
      ScalarsAreSilent(Some(x), Some(y), path, input);
    }
  }

  lemma InTwo(a: seq<Change>, b: seq<Change>, c: Change)
    ensures c in a + b <==> c in a || c in b
  {
  }

  /** A definition one step down: what is said of it, and what its own walk lists. */
  lemma NestedExactly(p: Place, hop: Hop, c: Change)
    requires Entered(p, hop) && !hop.Prop?
    ensures var (was, now) := Sides(p, hop); var at := p.path + [SegOf(hop)];
            c in Nested(was, now, at, p.input) <==>
              || SaidOfStep(p, c, hop)
              || (now.Some? && was != now && c in Schema(was, now, at, p.input))
  {
    var (was, now) := Sides(p, hop);
    var at := p.path + [SegOf(hop)];
    if was.Some? && now.Some? {
      if was != now {
        PropertyExactly(was.value, now.value, at, p.input, c);
      }
    } else if now.Some? {
      assert Nested(was, now, at, p.input) == [Change(Added, p.input, at, None)] + Schema(None, now, at, p.input);
      InCons(Change(Added, p.input, at, None), Schema(None, now, at, p.input), c);
    }
  }

  /** One step down: what is said of the pair there, or something its own walk lists. */
  ghost predicate FromStep(p: Place, c: Change, hop: Hop) {
    SaidOfStep(p, c, hop) || (Hopped(p, hop).Some? && c in Walk(Hopped(p, hop).value))
  }

  lemma ByPropertyExactly(p: Place, name: string, c: Change)
    ensures c in ByProperty(p, name) <==> FromStep(p, c, Prop(name))
  {
    var (was, now) := Sides(p, Prop(name));
    var at := p.path + [Name(name)];
    if was.Some? && now.Some? {
      if was != now {
        PropertyExactly(was.value, now.value, at, p.input, c);
      }
    } else if now.Some? {
      assert ByProperty(p, name) == [Change(Added, p.input, at, FlagIf(p.input, NewInput))] + Schema(None, now, at, p.input);
      InCons(Change(Added, p.input, at, FlagIf(p.input, NewInput)), Schema(None, now, at, p.input), c);
    }
  }

  lemma BySchemaExactly(p: Place, key: string, c: Change)
    requires Entered(p, Key(key))
    ensures c in ByKeyword(p, key) <==> FromStep(p, c, Key(key))
  {
    NestedExactly(p, Key(key), c);
  }

  lemma InCons(first: Change, rest: seq<Change>, c: Change)
    ensures c in [first] + rest <==> c == first || c in rest
  {
  }

  lemma OpeningList(p: Place, key: string)
    requires StopsRefusing(p, key)
    ensures ByKeyword(p, key)
         == [Change(Opened(key), true, p.path, Some(Undescribed))]
            + if IsObj(Get(p.after, key)) then Schema(None, Get(p.after, key), p.path + [Name(key)], true) else []
  {
  }

  /** What opened up is walked as if nothing had stood there. */
  lemma OpeningSchema(was: Option<Json>, now: Option<Json>, path: Path)
    requires !IsObj(was)
    ensures Schema(was, now, path, true) == if IsObj(now) then Schema(None, now, path, true) else []
  {
    if IsObj(now) {
      ScalarReadsAsAbsent(was, now, path, true);
    } else {
      ScalarsAreSilent(was, now, path, true);
    }
  }

  lemma OpeningHop(p: Place, key: string)
    requires StopsRefusing(p, key)
    ensures Hopped(p, Key(key))
         == if Get(p.after, key).Some? then Some(Place(Get(p.before, key), Get(p.after, key), p.path + [Name(key)], true)) else None
  {
  }

  lemma ByOpeningExactly(p: Place, key: string, c: Change)
    requires StopsRefusing(p, key)
    ensures c in ByKeyword(p, key) <==>
            || c == Change(Opened(key), true, p.path, Some(Undescribed))
            || (Hopped(p, Key(key)).Some? && c in Walk(Hopped(p, Key(key)).value))
  {
    OpeningList(p, key);
    OpeningHop(p, key);
    OpeningSchema(Get(p.before, key), Get(p.after, key), p.path + [Name(key)]);
    InCons(Change(Opened(key), true, p.path, Some(Undescribed)),
           if IsObj(Get(p.after, key)) then Schema(None, Get(p.after, key), p.path + [Name(key)], true) else [], c);
  }

  /** An element of a list of schemas. */
  lemma ElementExactly(p: Place, key: string, i: nat, c: Change)
    requires Entered(p, Elem(key, i))
    ensures c in ByElement(Items(Get(p.before, key)), Items(Get(p.after, key)), key, i, p.path, p.input)
       <==> FromStep(p, c, Elem(key, i))
  {
    NestedExactly(p, Elem(key, i), c);
  }

  lemma ListIsCompared(p: Place, key: string)
    requires Descends(p, key) && !StopsRefusing(p, key) && HoldsSchemas(p, key) && Differs(p, key)
    ensures ByKeyword(p, key) == Elements(Items(Get(p.before, key)), Items(Get(p.after, key)), key, 0, p.path, p.input)
  {
  }

  lemma ByElementsFrom(p: Place, key: string, c: Change) returns (i: nat)
    requires Descends(p, key) && !StopsRefusing(p, key) && HoldsSchemas(p, key) && c in ByKeyword(p, key)
    ensures FromStep(p, c, Elem(key, i))
  {
    ListIsCompared(p, key);
    i := FromElements(Items(Get(p.before, key)), Items(Get(p.after, key)), key, 0, p.path, p.input, c);
    ElementExactly(p, key, i, c);
  }

  lemma ElementIsListed(p: Place, key: string, i: nat, c: Change)
    requires SaidOfStep(p, c, Elem(key, i))
    ensures c in ByKeyword(p, key) && Differs(p, key)
  {
    ElementExactly(p, key, i, c);
    InElements(Items(Get(p.before, key)), Items(Get(p.after, key)), key, 0, i, p.path, p.input, c);
    assert Sides(p, Elem(key, i)).0 != Sides(p, Elem(key, i)).1;
    ListIsCompared(p, key);
  }

  lemma ByValueExactly(p: Place, key: string, c: Change)
    requires key !in Reported(p.path) && !StopsRefusing(p, key) && (Literal(key) || (!HoldsSchema(p, key) && !HoldsSchemas(p, key)))
    ensures c in ByKeyword(p, key) <==> Differs(p, key) && c == Change(KeywordChanged(key), p.input, p.path, None)
  {
  }

  // ---- requirements --------------------------------------------------------

  lemma InEach(names: seq<string>, what: What, path: Path, input: bool, flag: Option<Flag>, name: string)
    ensures Change(what, input, path + [Name(name)], flag) in Each(names, what, path, input, flag) <==> name in names
  {
    var each, c := Each(names, what, path, input, flag), Change(what, input, path + [Name(name)], flag);
    if name in names {
      var i :| 0 <= i < |names| && names[i] == name;
      assert each[i] == c;
    }
    if c in each {
      var i :| 0 <= i < |each| && each[i] == c;
      assert (path + [Name(names[i])])[|path|] == (path + [Name(name)])[|path|];
    }
  }

  lemma FromEach(names: seq<string>, what: What, path: Path, input: bool, flag: Option<Flag>, c: Change) returns (name: string)
    requires c in Each(names, what, path, input, flag)
    ensures name in names && c == Change(what, input, path + [Name(name)], flag)
  {
    var each := Each(names, what, path, input, flag);
    var i :| 0 <= i < |each| && each[i] == c;
    name := names[i];
  }

  ghost function ByRequirement(p: Place): seq<Change> {
    RequirementChanges(Required(p.before), Required(p.after), p.path, p.input)
  }

  lemma RequirementFrom(p: Place, c: Change) returns (hop: Hop)
    requires c in ByRequirement(p)
    ensures SaidHere(p, c, hop)
  {
    var name;
    if c in Each(InOrder(Required(p.after) - Required(p.before)), NowRequired, p.path, p.input, FlagIf(p.input, MustSupply)) {
      name := FromEach(InOrder(Required(p.after) - Required(p.before)), NowRequired, p.path, p.input, FlagIf(p.input, MustSupply), c);
    } else {
      name := FromEach(InOrder(Required(p.before) - Required(p.after)), NoLongerRequired, p.path, p.input, None, c);
    }
    hop := Prop(name);
  }

  lemma RequirementIsListed(p: Place, c: Change, hop: Hop)
    requires SaidHere(p, c, hop) && (c.what.NowRequired? || c.what.NoLongerRequired?)
    ensures c in ByRequirement(p)
  {
    if c.what.NowRequired? {
      InEach(InOrder(Required(p.after) - Required(p.before)), NowRequired, p.path, p.input, FlagIf(p.input, MustSupply), hop.name);
    } else {
      InEach(InOrder(Required(p.before) - Required(p.after)), NoLongerRequired, p.path, p.input, None, hop.name);
    }
  }

  // ---- one place -----------------------------------------------------------

  lemma KeywordFrom(p: Place, key: string, c: Change) returns (hop: Hop)
    requires c in ByKeyword(p, key) && key !in Reported(p.path)
    ensures Said(p, c, hop) || FromStep(p, c, hop)
  {
    hop := Key(key);
    if StopsRefusing(p, key) {
      ByOpeningExactly(p, key, c);
    } else if Literal(key) || (!HoldsSchema(p, key) && !HoldsSchemas(p, key)) {
      ByValueExactly(p, key, c);
    } else if HoldsSchema(p, key) {
      BySchemaExactly(p, key, c);
    } else {
      var i := ByElementsFrom(p, key, c);
      hop := Elem(key, i);
    }
  }

  /** Whatever a walk lists is said of this place, or listed by the walk one step down. */
  lemma ChangeFrom(p: Place, c: Change) returns (hop: Hop)
    requires c in Walk(p)
    ensures Said(p, c, hop) || FromStep(p, c, hop)
  {
    var a, b := Properties(p.before), Properties(p.after);
    if c in PropertyChanges(a, b, ContractFlags.Names(p), p.path, p.input) {
      var name := FromPropertyChanges(a, b, ContractFlags.Names(p), p.path, p.input, c);
      ByPropertyExactly(p, name, c);
      hop := Prop(name);
    } else if c in ByRequirement(p) {
      hop := RequirementFrom(p, c);
    } else {
      var key := FromKeywordChanges(Fields(p.before), Fields(p.after), Keys(p), p.path, p.input, c);
      hop := KeywordFrom(p, key, c);
    }
  }

  lemma StepIsListed(p: Place, c: Change, hop: Hop)
    requires SaidOfStep(p, c, hop)
    ensures c in Walk(p)
  {
    match hop
    case Prop(name) =>
      ByPropertyExactly(p, name, c);
      InSchemaByProperty(p, name, c);
    case Key(key) =>
      BySchemaExactly(p, key, c);
      InSchemaByKeyword(p, key, c);
    case Elem(key, i) =>
      ElementIsListed(p, key, i, c);
      InSchemaByKeyword(p, key, c);
  }

  /** Whatever can be said of a place is listed by its walk. */
  lemma SaidIsListed(p: Place, c: Change, hop: Hop)
    requires Said(p, c, hop)
    ensures c in Walk(p)
  {
    if SaidOfStep(p, c, hop) {
      StepIsListed(p, c, hop);
    } else if c.what.NowRequired? || c.what.NoLongerRequired? {
      RequirementIsListed(p, c, hop);
    } else {
      if c.what.Opened? {
        ByOpeningExactly(p, c.what.key, c);
      } else {
        ByValueExactly(p, c.what.key, c);
      }
      InSchemaByKeyword(p, c.what.key, c);
    }
  }

  // ---- every place ---------------------------------------------------------

  /** Each change a walk lists is said of a place that can be reached from where the walk began ... */
  lemma {:induction false} EveryChangeHolds(p: Place, c: Change) returns (hops: seq<Hop>, hop: Hop)
    requires c in Walk(p)
    ensures Reach(p, hops).Some? && Said(Reach(p, hops).value, c, hop)
    decreases OptHeight(p.before) + OptHeight(p.after)
  {
    hop := ChangeFrom(p, c);
    if Said(p, c, hop) {
      hops := [];
    } else {
      HopIsLower(p, hop);
      var first := hop;
      hops, hop := EveryChangeHolds(Hopped(p, hop).value, c);
      ReachThrough(p, first, hops);
      hops := [first] + hops;
    }
  }

  lemma ReachThrough(p: Place, hop: Hop, hops: seq<Hop>)
    requires Hopped(p, hop).Some?
    ensures Reach(p, [hop] + hops) == Reach(Hopped(p, hop).value, hops)
  {
  }

  /** ... and everything that can be said of a place that can be reached is listed, at any depth. */
  lemma {:induction false} EverythingSaidIsListed(p: Place, hops: seq<Hop>, c: Change, hop: Hop)
    requires Reach(p, hops).Some? && Said(Reach(p, hops).value, c, hop)
    ensures c in Walk(p)
    decreases |hops|
  {
    if hops == [] {
      SaidIsListed(p, c, hop);
    } else {
      EverythingSaidIsListed(Hopped(p, hops[0]).value, hops[1..], c, hop);
      match hops[0]
      case Prop(name) => PropertyHop(p, name, c);
      case Key(key) => KeyHop(p, key, c);
      case Elem(key, i) => ElementHop(p, key, i, c);
    }
  }

  ghost predicate SaidSomewhere(p: Place, c: Change) {
    exists hops, hop :: Reach(p, hops).Some? && Said(Reach(p, hops).value, c, hop)
  }

  /** A walk lists exactly what can be said of the places it reaches. */
  lemma ListedExactly(p: Place, c: Change)
    ensures c in Walk(p) <==> SaidSomewhere(p, c)
  {
    if c in Walk(p) {
      var hops, hop := EveryChangeHolds(p, c);
    }
    if SaidSomewhere(p, c) {
      var hops, hop :| Reach(p, hops).Some? && Said(Reach(p, hops).value, c, hop);
      EverythingSaidIsListed(p, hops, c, hop);
    }
  }
}
