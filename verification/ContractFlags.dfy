/**
 What the walk flags: every widening of the input schema at every place it reaches, and
 nothing else. Places and widenings are defined without mentioning the walk.
 */
module ContractFlags {
  import opened Basics
  import opened JsonTree
  import opened ContractDiff
  import opened ContractSilence

  /** One step down a pair of schemas. */
  datatype Hop = Prop(name: string) | Key(key: string) | Elem(key: string, index: nat)

  /** Corresponding schemas, and the name they are listed under. */
  datatype Place = Place(before: Option<Json>, after: Option<Json>, path: Path, input: bool)

  /** Keywords below which schemas are looked for. */
  predicate Descends(p: Place, key: string) {
    !Literal(key) && key !in Reported(p.path)
  }

  /** The step exists when the replacement has something there. A list is entered only if no object stood in its place. */
  function Hopped(p: Place, hop: Hop): Option<Place> {
    match hop
    case Prop(name) =>
      if name in Properties(p.after)
      then Some(Place(Lookup(Properties(p.before), name), Lookup(Properties(p.after), name), p.path + [Name(name)], p.input))
      else None
    case Key(key) =>
      if key in Fields(p.after) && Descends(p, key)
      then Some(Place(Get(p.before, key), Get(p.after, key), p.path + [Name(key)], p.input))
      else None
    case Elem(key, i) =>
      var was, now := Get(p.before, key), Get(p.after, key);
      if Descends(p, key) && !IsObj(was) && !(p.input && Opens(was, now, key)) && i < |Items(now)|
      then Some(Place(ItemAt(Items(was), i), ItemAt(Items(now), i), p.path + [Item(key, i)], p.input))
      else None
  }

  function Reach(p: Place, hops: seq<Hop>): Option<Place>
    decreases |hops|
  {
    if hops == [] then Some(p)
    else match Hopped(p, hops[0]) case None => None case Some(q) => Reach(q, hops[1..])
  }

  /** The ways an input schema can ask for or accept more at one place. */
  datatype Widening = NewParameter(name: string) | NewRequirement(name: string) | Opening(key: string)

  predicate Widens(p: Place, w: Widening) {
    p.input && match w
    case NewParameter(n) => n in Properties(p.after) && n !in Properties(p.before)
    case NewRequirement(n) => n in Required(p.after) && n !in Required(p.before)
    case Opening(k) => Opens(Get(p.before, k), Get(p.after, k), k)
  }

  function Report(p: Place, w: Widening): Change {
    match w
    case NewParameter(n) => Change(Added, true, p.path + [Name(n)], Some(NewInput))
    case NewRequirement(n) => Change(NowRequired, true, p.path + [Name(n)], Some(MustSupply))
    case Opening(k) => Change(Opened(k), true, p.path, Some(Undescribed))
  }

  ghost function Walk(p: Place): seq<Change> {
    Schema(p.before, p.after, p.path, p.input)
  }

  ghost function Names(p: Place): seq<string> {
    InOrder(Properties(p.before).Keys + Properties(p.after).Keys)
  }

  ghost function Keys(p: Place): seq<string> {
    InOrder(OtherKeys(Fields(p.before), Fields(p.after), p.path))
  }

  ghost function ByProperty(p: Place, name: string): seq<Change> {
    OneProperty(Properties(p.before), Properties(p.after), name, p.path, p.input)
  }

  ghost function ByKeyword(p: Place, key: string): seq<Change> {
    OneKeyword(Fields(p.before), Fields(p.after), key, p.path, p.input)
  }

  // ---- the pieces of a walk ------------------------------------------------

  lemma {:induction false} InPropertyChanges(before: map<string, Json>, after: map<string, Json>, names: seq<string>, name: string, path: Path, input: bool, c: Change)
    requires name in names && c in OneProperty(before, after, name, path, input)
    ensures c in PropertyChanges(before, after, names, path, input)
  {
    if names[0] != name {
      InPropertyChanges(before, after, names[1..], name, path, input, c);
    }
  }

  lemma {:induction false} FromPropertyChanges(before: map<string, Json>, after: map<string, Json>, names: seq<string>, path: Path, input: bool, c: Change) returns (name: string)
    requires c in PropertyChanges(before, after, names, path, input)
    ensures name in names && c in OneProperty(before, after, name, path, input)
  {
    if c in OneProperty(before, after, names[0], path, input) {
      name := names[0];
    } else {
      name := FromPropertyChanges(before, after, names[1..], path, input, c);
    }
  }

  lemma {:induction false} InKeywordChanges(before: map<string, Json>, after: map<string, Json>, keys: seq<string>, key: string, path: Path, input: bool, c: Change)
    requires key in keys && c in OneKeyword(before, after, key, path, input)
    ensures c in KeywordChanges(before, after, keys, path, input)
  {
    if keys[0] != key {
      InKeywordChanges(before, after, keys[1..], key, path, input, c);
    }
  }

  lemma {:induction false} FromKeywordChanges(before: map<string, Json>, after: map<string, Json>, keys: seq<string>, path: Path, input: bool, c: Change) returns (key: string)
    requires c in KeywordChanges(before, after, keys, path, input)
    ensures key in keys && c in OneKeyword(before, after, key, path, input)
  {
    if c in OneKeyword(before, after, keys[0], path, input) {
      key := keys[0];
    } else {
      key := FromKeywordChanges(before, after, keys[1..], path, input, c);
    }
  }

  ghost function ByElement(before: seq<Json>, after: seq<Json>, key: string, i: nat, path: Path, input: bool): seq<Change> {
    Nested(ItemAt(before, i), ItemAt(after, i), path + [Item(key, i)], input)
  }

  lemma {:induction false} InElements(before: seq<Json>, after: seq<Json>, key: string, from: nat, i: nat, path: Path, input: bool, c: Change)
    requires from <= i < Max(|before|, |after|) && c in ByElement(before, after, key, i, path, input)
    ensures c in Elements(before, after, key, from, path, input)
    decreases i - from
  {
    if from < i {
      InElements(before, after, key, from + 1, i, path, input, c);
    }
  }

  lemma {:induction false} FromElements(before: seq<Json>, after: seq<Json>, key: string, from: nat, path: Path, input: bool, c: Change) returns (i: nat)
    requires c in Elements(before, after, key, from, path, input)
    ensures i < Max(|before|, |after|) && c in ByElement(before, after, key, i, path, input)
    decreases Max(|before|, |after|) - from
  {
    if c in ByElement(before, after, key, from, path, input) {
      i := from;
    } else {
      i := FromElements(before, after, key, from + 1, path, input, c);
    }
  }

  /** Values without members have nothing to walk. */
  lemma ScalarsAreSilent(before: Option<Json>, after: Option<Json>, path: Path, input: bool)
    requires !IsObj(before) && !IsObj(after)
    ensures Schema(before, after, path, input) == []
  {
  }

  /** A value that is not an object reads like an absent one. */
  lemma ScalarReadsAsAbsent(before: Option<Json>, after: Option<Json>, path: Path, input: bool)
    requires !IsObj(before) && IsObj(after)
    ensures Schema(before, after, path, input) == Schema(None, after, path, input)
  {
  }

  lemma InSchemaByProperty(p: Place, name: string, c: Change)
    requires name in Properties(p.before) || name in Properties(p.after)
    requires c in ByProperty(p, name)
    ensures c in Walk(p)
  {
    assert name in Names(p);
    InPropertyChanges(Properties(p.before), Properties(p.after), Names(p), name, p.path, p.input, c);
    if p.before == p.after {
      OnePropertySilent(Properties(p.before), Properties(p.after), name, p.path, p.input);
    }
  }

  lemma InSchemaByKeyword(p: Place, key: string, c: Change)
    requires key in Fields(p.before) || key in Fields(p.after)
    requires key !in Reported(p.path) && c in ByKeyword(p, key)
    ensures c in Walk(p)
  {
    assert key in Keys(p);
    InKeywordChanges(Fields(p.before), Fields(p.after), Keys(p), key, p.path, p.input, c);
    if p.before == p.after {
      OneKeywordSilent(Fields(p.before), Fields(p.after), key, p.path, p.input);
    }
  }

  // ---- completeness --------------------------------------------------------

  lemma PropertyWalks(x: Json, y: Json, path: Path, input: bool, c: Change)
    requires c in Schema(Some(x), Some(y), path, input)
    ensures x != y && c in Property(x, y, path, input)
  {
  }

  /** A schema pair under a keyword is walked unless it was removed. */
  lemma NestedWalks(before: Option<Json>, after: Option<Json>, path: Path, input: bool, c: Change)
    requires after.Some? && c in Schema(before, after, path, input)
    ensures c in Nested(before, after, path, input)
  {
    if before.Some? {
      PropertyWalks(before.value, after.value, path, input, c);
    }
  }

  lemma PropertyHop(p: Place, name: string, c: Change)
    requires Hopped(p, Prop(name)).Some? && c in Walk(Hopped(p, Prop(name)).value)
    ensures c in Walk(p)
  {
    var q := Hopped(p, Prop(name)).value;
    if q.before.Some? {
      PropertyWalks(q.before.value, q.after.value, q.path, p.input, c);
    }
    assert c in ByProperty(p, name);
    InSchemaByProperty(p, name, c);
  }

  lemma KeyHop(p: Place, key: string, c: Change)
    requires Hopped(p, Key(key)).Some? && c in Walk(Hopped(p, Key(key)).value)
    ensures c in Walk(p)
  {
    var q := Hopped(p, Key(key)).value;
    if !IsObj(q.before) && !IsObj(q.after) {
      ScalarsAreSilent(q.before, q.after, q.path, p.input);
    }
    if p.input && Opens(q.before, q.after, key) {
      ScalarReadsAsAbsent(q.before, q.after, q.path, p.input);
    }
    NestedWalks(q.before, q.after, q.path, p.input, c);
    assert c in ByKeyword(p, key);
    InSchemaByKeyword(p, key, c);
  }

  lemma ElementHop(p: Place, key: string, i: nat, c: Change)
    requires Hopped(p, Elem(key, i)).Some? && c in Walk(Hopped(p, Elem(key, i)).value)
    ensures c in Walk(p)
  {
    var was, now := Get(p.before, key), Get(p.after, key);
    var q := Hopped(p, Elem(key, i)).value;
    if !IsObj(q.before) && !IsObj(q.after) {
      ScalarsAreSilent(q.before, q.after, q.path, p.input);
    }
    NestedWalks(q.before, q.after, q.path, p.input, c);
    InElements(Items(was), Items(now), key, 0, i, p.path, p.input, c);
    ListIsWalked(p, key, i);
    assert q.before != q.after;
    assert c in ByKeyword(p, key);
    InSchemaByKeyword(p, key, c);
  }

  lemma ListIsWalked(p: Place, key: string, i: nat)
    requires Hopped(p, Elem(key, i)).Some?
    requires IsObj(Hopped(p, Elem(key, i)).value.before) || IsObj(Hopped(p, Elem(key, i)).value.after)
    ensures Get(p.before, key) != Get(p.after, key)
        ==> ByKeyword(p, key) == Elements(Items(Get(p.before, key)), Items(Get(p.after, key)), key, 0, p.path, p.input)
  {
  }

  lemma LocalReport(p: Place, w: Widening)
    requires Widens(p, w)
    ensures Report(p, w) in Walk(p)
  {
    var c := Report(p, w);
    match w
    case NewParameter(n) =>
      assert c in ByProperty(p, n);
      InSchemaByProperty(p, n, c);
    case NewRequirement(n) =>
      var names := InOrder(Required(p.after) - Required(p.before));
      assert n in names;
      var i :| 0 <= i < |names| && names[i] == n;
      assert Each(names, NowRequired, p.path, p.input, Some(MustSupply))[i] == c;
      assert c in RequirementChanges(Required(p.before), Required(p.after), p.path, p.input);
    case Opening(k) =>
      assert c in ByKeyword(p, k);
      InSchemaByKeyword(p, k, c);
  }

  /** Every widening at every reachable place is listed with its flag, at any depth. */
  lemma {:induction false} EveryWideningIsFlagged(p: Place, hops: seq<Hop>, w: Widening)
    requires Reach(p, hops).Some? && Widens(Reach(p, hops).value, w)
    ensures Report(Reach(p, hops).value, w) in Walk(p)
    decreases |hops|
  {
    if hops == [] {
      LocalReport(p, w);
    } else {
      var c := Report(Reach(p, hops).value, w);
      EveryWideningIsFlagged(Hopped(p, hops[0]).value, hops[1..], w);
      match hops[0]
      case Prop(name) => PropertyHop(p, name, c);
      case Key(key) => KeyHop(p, key, c);
      case Elem(key, i) => ElementHop(p, key, i, c);
    }
  }

  // ---- soundness -----------------------------------------------------------

  /** Where a flagged change comes from: this place, or the walk of one below it. */
  ghost predicate Explained(p: Place, c: Change, w: Option<Widening>, hop: Hop) {
    match w
    case Some(found) => Widens(p, found) && c == Report(p, found)
    case None => Hopped(p, hop).Some? && c in Walk(Hopped(p, hop).value)
  }

  lemma OwnChangesUnflagged(x: Json, y: Json, path: Path, input: bool, c: Change)
    requires c in OwnChanges(x, y, path, input)
    ensures c.flag.None?
  {
  }

  lemma FromPropertyBody(x: Json, y: Json, path: Path, input: bool, c: Change)
    requires c in Property(x, y, path, input) && c.flag.Some?
    ensures c in Schema(Some(x), Some(y), path, input)
  {
    if c in OwnChanges(x, y, path, input) {
      OwnChangesUnflagged(x, y, path, input, c);
    }
  }

  lemma FromNested(before: Option<Json>, after: Option<Json>, path: Path, input: bool, c: Change)
    requires c in Nested(before, after, path, input) && c.flag.Some?
    ensures after.Some? && c in Schema(before, after, path, input)
  {
    if before.Some? && after.Some? {
      FromPropertyBody(before.value, after.value, path, input, c);
    }
  }

  lemma FromProperty(p: Place, name: string, c: Change) returns (w: Option<Widening>, hop: Hop)
    requires c in ByProperty(p, name) && c.flag.Some?
    ensures Explained(p, c, w, hop)
  {
    var was, now := Lookup(Properties(p.before), name), Lookup(Properties(p.after), name);
    w, hop := None, Prop(name);
    if was.Some? && now.Some? {
      FromPropertyBody(was.value, now.value, p.path + [Name(name)], p.input, c);
    } else if c == Change(Added, p.input, p.path + [Name(name)], FlagIf(p.input, NewInput)) {
      w := Some(NewParameter(name));
    }
  }

  lemma FromOpening(p: Place, key: string, c: Change) returns (w: Option<Widening>)
    requires p.input && Opens(Get(p.before, key), Get(p.after, key), key) && key !in Reported(p.path)
    requires c in ByKeyword(p, key) && c.flag.Some?
    ensures Explained(p, c, w, Key(key))
  {
    if c == Report(p, Opening(key)) {
      w := Some(Opening(key));
    } else {
      var was, now, at := Get(p.before, key), Get(p.after, key), p.path + [Name(key)];
      w := None;
      assert IsObj(now) && c in Schema(None, now, at, p.input);
      ScalarReadsAsAbsent(was, now, at, p.input);
      assert Hopped(p, Key(key)) == Some(Place(was, now, at, p.input));
    }
  }

  lemma FromList(p: Place, key: string, c: Change) returns (hop: Hop)
    requires !IsObj(Get(p.before, key)) && !(p.input && Opens(Get(p.before, key), Get(p.after, key), key)) && Descends(p, key)
    requires c in Elements(Items(Get(p.before, key)), Items(Get(p.after, key)), key, 0, p.path, p.input) && c.flag.Some?
    ensures Explained(p, c, None, hop)
  {
    var was, now := Items(Get(p.before, key)), Items(Get(p.after, key));
    var i := FromElements(was, now, key, 0, p.path, p.input, c);
    FromNested(ItemAt(was, i), ItemAt(now, i), p.path + [Item(key, i)], p.input, c);
    hop := Elem(key, i);
    assert Hopped(p, hop) == Some(Place(ItemAt(was, i), ItemAt(now, i), p.path + [Item(key, i)], p.input));
  }

  lemma FromKeyword(p: Place, key: string, c: Change) returns (w: Option<Widening>, hop: Hop)
    requires c in ByKeyword(p, key) && c.flag.Some? && key !in Reported(p.path)
    ensures Explained(p, c, w, hop)
  {
    var was, now := Get(p.before, key), Get(p.after, key);
    w, hop := None, Key(key);
    if p.input && Opens(was, now, key) {
      w := FromOpening(p, key, c);
    } else if !Literal(key) && (IsObj(was) || IsObj(now)) {
      FromNested(was, now, p.path + [Name(key)], p.input, c);
    } else {
      hop := FromList(p, key, c);
    }
  }

  lemma FlagStep(p: Place, c: Change) returns (w: Option<Widening>, hop: Hop)
    requires c in Walk(p) && c.flag.Some?
    ensures Explained(p, c, w, hop)
  {
    var a, b := Properties(p.before), Properties(p.after);
    if c in PropertyChanges(a, b, Names(p), p.path, p.input) {
      var name := FromPropertyChanges(a, b, Names(p), p.path, p.input, c);
      w, hop := FromProperty(p, name, c);
    } else if c in RequirementChanges(Required(p.before), Required(p.after), p.path, p.input) {
      var names := InOrder(Required(p.after) - Required(p.before));
      var each := Each(names, NowRequired, p.path, p.input, FlagIf(p.input, MustSupply));
      assert c in each;
      var i :| 0 <= i < |each| && each[i] == c;
      assert names[i] in names;
      w, hop := Some(NewRequirement(names[i])), Prop("");
    } else {
      var key := FromKeywordChanges(Fields(p.before), Fields(p.after), Keys(p), p.path, p.input, c);
      w, hop := FromKeyword(p, key, c);
    }
  }

  lemma HopIsLower(p: Place, hop: Hop)
    requires Hopped(p, hop).Some?
    ensures var q := Hopped(p, hop).value;
      OptHeight(q.before) + OptHeight(q.after) < OptHeight(p.before) + OptHeight(p.after)
  {
    var a, b := Fields(p.before), Fields(p.after);
    match hop
    case Prop(name) =>
      MemberHeight(a, "properties");
      MemberHeight(b, "properties");
      MemberHeight(Properties(p.before), name);
      MemberHeight(Properties(p.after), name);
    case Key(key) =>
      MemberHeight(a, key);
      MemberHeight(b, key);
    case Elem(key, i) =>
      MemberHeight(a, key);
      MemberHeight(b, key);
      ElementHeight(Items(Get(p.before, key)), i);
      ElementHeight(Items(Get(p.after, key)), i);
  }

  /** Every flag points at a widening of the input schema at a place that exists. */
  lemma {:induction false} EveryFlagIsAWidening(p: Place, c: Change) returns (hops: seq<Hop>, w: Widening)
    requires c in Walk(p) && c.flag.Some?
    ensures Reach(p, hops).Some?
    ensures Widens(Reach(p, hops).value, w) && c == Report(Reach(p, hops).value, w)
    decreases OptHeight(p.before) + OptHeight(p.after)
  {
    var found, hop := FlagStep(p, c);
    if found.Some? {
      hops, w := [], found.value;
    } else {
      HopIsLower(p, hop);
      hops, w := EveryFlagIsAWidening(Hopped(p, hop).value, c);
      hops := [hop] + hops;
    }
  }

  lemma {:induction false} ReachKeepsSide(p: Place, hops: seq<Hop>)
    requires Reach(p, hops).Some?
    ensures Reach(p, hops).value.input == p.input
    decreases |hops|
  {
    if hops != [] {
      ReachKeepsSide(Hopped(p, hops[0]).value, hops[1..]);
    }
  }

  /** Changes to what a tool returns are listed and never flagged. */
  lemma OutputIsNeverFlagged(p: Place, c: Change)
    requires c in Walk(p) && !p.input
    ensures c.flag.None?
  {
    if c.flag.Some? {
      var hops, _ := EveryFlagIsAWidening(p, c);
      ReachKeepsSide(p, hops);
    }
  }

  // ---- the whole contract --------------------------------------------------

  function InputPlace(before: Json, after: Json): Place {
    Place(Get(Some(before), "inputSchema"), Get(Some(after), "inputSchema"), [], true)
  }

  /** The hints whose change widens what the tool declares it may do. */
  predicate HintWidens(key: string, was: Option<Json>, now: Option<Json>) {
    if key in {"readOnlyHint", "idempotentHint"} then was == Some(Bool(true)) && now != Some(Bool(true))
    else key in {"destructiveHint", "openWorldHint"} && was != Some(Bool(true)) && now == Some(Bool(true))
  }

  ghost function Notes(c: Json): map<string, Json> {
    Fields(Get(Some(c), "annotations"))
  }

  lemma {:induction false} AnnotationFlags(before: map<string, Json>, after: map<string, Json>, keys: seq<string>, key: string)
    requires HintWidens(key, Lookup(before, key), Lookup(after, key)) && key in keys
    ensures exists c :: c in AnnotationChanges(before, after, keys) && c.what == AnnotationChanged(key) && c.flag.Some?
  {
    if keys[0] == key {
      var c := AnnotationChanges(before, after, keys)[0];
      assert c in AnnotationChanges(before, after, keys) && c.what == AnnotationChanged(key) && c.flag.Some?;
    } else {
      AnnotationFlags(before, after, keys[1..], key);
      var c :| c in AnnotationChanges(before, after, keys[1..]) && c.what == AnnotationChanged(key) && c.flag.Some?;
      assert c in AnnotationChanges(before, after, keys) && c.what == AnnotationChanged(key) && c.flag.Some?;
    }
  }

  lemma {:induction false} FromAnnotations(before: map<string, Json>, after: map<string, Json>, keys: seq<string>, c: Change)
    requires c in AnnotationChanges(before, after, keys) && c.flag.Some?
    ensures c.what.AnnotationChanged?
    ensures HintWidens(c.what.key, Lookup(before, c.what.key), Lookup(after, c.what.key))
  {
    if c in AnnotationChanges(before, after, keys[1..]) {
      FromAnnotations(before, after, keys[1..], c);
    }
  }

  lemma {:induction false} FieldsUnflagged(before: map<string, Json>, after: map<string, Json>, keys: seq<string>, c: Change)
    requires c in FieldChanges(before, after, keys) || c in KeyedChanges(before, after, keys)
    ensures c.flag.None?
  {
    if c in FieldChanges(before, after, keys[1..]) || c in KeyedChanges(before, after, keys[1..]) {
      FieldsUnflagged(before, after, keys[1..], c);
    }
  }

  /** Completeness for whole contracts: widened inputs, widened hints and new evidence all leave a flag. */
  lemma SummaryFlagsWidening(before: Json, after: Json, had: Evidence, has: Evidence, hops: seq<Hop>, w: Widening, key: string)
    ensures Reach(InputPlace(before, after), hops).Some? && Widens(Reach(InputPlace(before, after), hops).value, w)
        ==> Report(Reach(InputPlace(before, after), hops).value, w) in Summary(before, after, had, has)
    ensures HintWidens(key, Lookup(Notes(before), key), Lookup(Notes(after), key))
        ==> exists c :: c in Summary(before, after, had, has) && c.what == AnnotationChanged(key) && c.flag.Some?
  {
    var p := InputPlace(before, after);
    if Reach(p, hops).Some? && Widens(Reach(p, hops).value, w) {
      EveryWideningIsFlagged(p, hops, w);
      assert Report(Reach(p, hops).value, w) in TopLevel(before, after);
    }
    if HintWidens(key, Lookup(Notes(before), key), Lookup(Notes(after), key)) {
      var keys := InOrder(Notes(before).Keys + Notes(after).Keys);
      AnnotationFlags(Notes(before), Notes(after), keys, key);
      var c :| c in AnnotationChanges(Notes(before), Notes(after), keys) && c.what == AnnotationChanged(key) && c.flag.Some?;
      assert c in TopLevel(before, after);
    }
  }

  /** Soundness for whole contracts: a flag is a widened input, a widened hint or new evidence. */
  lemma SummaryFlagsNothingElse(before: Json, after: Json, had: Evidence, has: Evidence, c: Change)
    returns (hops: seq<Hop>, w: Widening)
    requires c in Summary(before, after, had, has) && c.flag.Some?
    ensures
      || (Reach(InputPlace(before, after), hops).Some?
          && Widens(Reach(InputPlace(before, after), hops).value, w)
          && c == Report(Reach(InputPlace(before, after), hops).value, w))
      || (c.what.AnnotationChanged?
          && HintWidens(c.what.key, Lookup(Notes(before), c.what.key), Lookup(Notes(after), c.what.key)))
      || (c in EvidenceChanges(had, has) && !(has.urls <= had.urls && has.emails <= had.emails && has.hidden <= had.hidden))
  {
    hops, w := [], Opening("");
    var a, b := Fields(Some(before)), Fields(Some(after));
    var m, n := Fields(Lookup(a, "_meta")), Fields(Lookup(b, "_meta"));
    var p := InputPlace(before, after);
    var out := Place(Lookup(a, "outputSchema"), Lookup(b, "outputSchema"), [], false);
    if c in Walk(p) {
      hops, w := EveryFlagIsAWidening(p, c);
    } else if c in Walk(out) {
      OutputIsNeverFlagged(out, c);
    } else if c in AnnotationChanges(Notes(before), Notes(after), InOrder(Notes(before).Keys + Notes(after).Keys)) {
      FromAnnotations(Notes(before), Notes(after), InOrder(Notes(before).Keys + Notes(after).Keys), c);
    } else if c in FieldChanges(a, b, ["title", "description"]) {
      FieldsUnflagged(a, b, ["title", "description"], c);
    } else if c in FieldChanges(a, b, InOrder(a.Keys + b.Keys - Known())) {
      FieldsUnflagged(a, b, InOrder(a.Keys + b.Keys - Known()), c);
    } else if c in KeyedChanges(m, n, InOrder(m.Keys + n.Keys)) {
      FieldsUnflagged(m, n, InOrder(m.Keys + n.Keys), c);
    }
  }
}
