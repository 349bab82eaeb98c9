/**
 What changed between an accepted tool contract and its replacement: the whole list of
 changes, in reading order, as the summary walk finds them. Texts are left to the display;
 a change says what happened, where, and why it is flagged.
 */
module ContractDiff {
  import opened Basics
  import opened JsonTree

  /** One segment of the dotted name a change is listed under. */
  datatype Seg = Name(name: string) | Item(key: string, index: nat)

  type Path = seq<Seg>

  datatype Flag =
    | NewInput | MustSupply | Undescribed
    | NotReadOnly | MayDestroy | ReachesOut | NotIdempotent
    | NewAddress | HidesText

  datatype What =
    | Added | Removed | NowRequired | NoLongerRequired | Opened(key: string)
    | TypeChanged | DescriptionChanged | ValuesChanged | DefaultChanged | DefinitionChanged
    | KeywordChanged(key: string)
    | FieldChanged(key: string) | AnnotationChanged(key: string) | MetadataChanged(key: string)
    | UrlsAdded | EmailsAdded | HiddenAdded

  /** `input` tells a change to what the model sends from one to what the tool returns. */
  datatype Change = Change(what: What, input: bool, path: Path, flag: Option<Flag>)

  // ---- one level of a schema -----------------------------------------------

  function Properties(v: Option<Json>): map<string, Json> {
    Fields(Get(v, "properties"))
  }

  function RequiredIn(items: seq<Json>): set<string> {
    set i | 0 <= i < |items| && items[i].Str? :: items[i].text
  }

  function Required(v: Option<Json>): set<string> {
    RequiredIn(Items(Get(v, "required")))
  }

  /** Keywords a walk at `path` reports elsewhere: a parameter's own ones are `Property`'s. */
  function Reported(path: Path): set<string> {
    if path == [] then {"properties", "required"}
    else {"properties", "required", "type", "description", "enum", "default"}
  }

  /** Keywords that carry values rather than schemas. */
  predicate Literal(key: string) {
    key in {"examples", "default", "const", "enum"}
  }

  predicate OpenKey(key: string) {
    key in {"additionalProperties", "unevaluatedProperties"}
  }

  /** An input schema that stops refusing the properties it does not name. */
  predicate Opens(before: Option<Json>, after: Option<Json>, key: string) {
    OpenKey(key) && before == Some(Bool(false)) && after != Some(Bool(false))
  }

  function If(condition: bool, change: Change): seq<Change> {
    if condition then [change] else []
  }

  function FlagIf(input: bool, flag: Flag): Option<Flag> {
    if input then Some(flag) else None
  }

  ghost function OtherKeys(before: map<string, Json>, after: map<string, Json>, path: Path): set<string> {
    before.Keys + after.Keys - Reported(path)
  }

  // ---- the walk ------------------------------------------------------------

  /** Compares two schemas at `path`. */
  ghost function Schema(before: Option<Json>, after: Option<Json>, path: Path, input: bool): seq<Change>
    decreases OptHeight(before) + OptHeight(after), 2, 0
  {
    if before == after then []
    else
      var a, b := Fields(before), Fields(after);
      MemberHeight(a, "properties");
      MemberHeight(b, "properties");
      PropertyChanges(Properties(before), Properties(after), InOrder(Properties(before).Keys + Properties(after).Keys), path, input)
      + RequirementChanges(Required(before), Required(after), path, input)
      + KeywordChanges(a, b, InOrder(OtherKeys(a, b, path)), path, input)
  }

  ghost function PropertyChanges(before: map<string, Json>, after: map<string, Json>, names: seq<string>, path: Path, input: bool)
    : seq<Change>
    decreases MapHeight(before) + MapHeight(after), 1, |names|
  {
    if names == [] then []
    else OneProperty(before, after, names[0], path, input) + PropertyChanges(before, after, names[1..], path, input)
  }

  ghost function OneProperty(before: map<string, Json>, after: map<string, Json>, name: string, path: Path, input: bool)
    : seq<Change>
    decreases MapHeight(before) + MapHeight(after), 1, 0
  {
    var was, now := Lookup(before, name), Lookup(after, name);
    var at := path + [Name(name)];
    MemberHeight(before, name);
    MemberHeight(after, name);
    EmptyHeight();
    match (was, now)
    case (None, Some(_)) => [Change(Added, input, at, FlagIf(input, NewInput))] + Schema(None, now, at, input)
    case (Some(_), None) => [Change(Removed, input, at, None)]
    case (Some(x), Some(y)) => if x == y then [] else Property(x, y, at, input)
    case (None, None) => []
  }

  ghost function Each(names: seq<string>, what: What, path: Path, input: bool, flag: Option<Flag>): seq<Change> {
    seq(|names|, i requires 0 <= i < |names| => Change(what, input, path + [Name(names[i])], flag))
  }

  ghost function RequirementChanges(before: set<string>, after: set<string>, path: Path, input: bool): seq<Change> {
    Each(InOrder(after - before), NowRequired, path, input, FlagIf(input, MustSupply))
    + Each(InOrder(before - after), NoLongerRequired, path, input, None)
  }

  ghost function KeywordChanges(before: map<string, Json>, after: map<string, Json>, keys: seq<string>, path: Path, input: bool)
    : seq<Change>
    decreases MapHeight(before) + MapHeight(after), 1, |keys|
  {
    if keys == [] then []
    else OneKeyword(before, after, keys[0], path, input) + KeywordChanges(before, after, keys[1..], path, input)
  }

  ghost function OneKeyword(before: map<string, Json>, after: map<string, Json>, key: string, path: Path, input: bool)
    : seq<Change>
    decreases MapHeight(before) + MapHeight(after), 1, 0
  {
    var was, now := Lookup(before, key), Lookup(after, key);
    var at := path + [Name(key)];
    MemberHeight(before, key);
    MemberHeight(after, key);
    EmptyHeight();
    if was == now then []
    else if input && Opens(was, now, key) then
      [Change(Opened(key), input, path, Some(Undescribed))] + (if IsObj(now) then Schema(None, now, at, input) else [])
    else if !Literal(key) && (IsObj(was) || IsObj(now)) then Nested(was, now, at, input)
    else if !Literal(key) && (HoldsObjects(was) || HoldsObjects(now)) then
      Elements(Items(was), Items(now), key, 0, path, input)
    else [Change(KeywordChanged(key), input, path, None)]
  }

  /** The members of two lists of schemas, pairwise from position `i` on. */
  ghost function Elements(before: seq<Json>, after: seq<Json>, key: string, i: nat, path: Path, input: bool): seq<Change>
    decreases ListHeight(before) + ListHeight(after), 1, Max(|before|, |after|) - i
  {
    ElementHeight(before, i);
    ElementHeight(after, i);
    if i >= Max(|before|, |after|) then []
    else Nested(ItemAt(before, i), ItemAt(after, i), path + [Item(key, i)], input) + Elements(before, after, key, i + 1, path, input)
  }

  /** A schema found under a keyword. */
  ghost function Nested(before: Option<Json>, after: Option<Json>, path: Path, input: bool): seq<Change>
    decreases OptHeight(before) + OptHeight(after), 4, 0
  {
    EmptyHeight();
    match (before, after)
    case (Some(x), Some(y)) => if x == y then [] else Property(x, y, path, input)
    case (None, Some(_)) => [Change(Added, input, path, None)] + Schema(None, after, path, input)
    case (Some(_), None) => [Change(Removed, input, path, None)]
    case (None, None) => []
  }

  ghost function OwnChanges(before: Json, after: Json, path: Path, input: bool): seq<Change> {
    If(Get(Some(before), "type") != Get(Some(after), "type"), Change(TypeChanged, input, path, None))
    + If(Get(Some(before), "description") != Get(Some(after), "description"), Change(DescriptionChanged, input, path, None))
    + If(Get(Some(before), "enum") != Get(Some(after), "enum"), Change(ValuesChanged, input, path, None))
    + If(Get(Some(before), "default") != Get(Some(after), "default"), Change(DefaultChanged, input, path, None))
  }

  /** A parameter whose definition changed; never without saying so. */
  ghost function Property(before: Json, after: Json, path: Path, input: bool): (r: seq<Change>)
    ensures r != []
    decreases OptHeight(Some(before)) + OptHeight(Some(after)), 3, 0
  {
    var r := OwnChanges(before, after, path, input)
             + (if before.Obj? || after.Obj? then Schema(Some(before), Some(after), path, input) else []);
    if r == [] then [Change(DefinitionChanged, input, path, None)] else r
  }

  // ---- the whole contract --------------------------------------------------

  ghost function KeyedChanges(before: map<string, Json>, after: map<string, Json>, keys: seq<string>): seq<Change> {
    if keys == [] then []
    else If(Lookup(before, keys[0]) != Lookup(after, keys[0]), Change(MetadataChanged(keys[0]), false, [], None))
         + KeyedChanges(before, after, keys[1..])
  }

  /** Hints whose change can widen what the tool does. */
  function HintFlag(key: string, was: Option<Json>, now: Option<Json>): Option<Flag> {
    var wasTrue, nowTrue := was == Some(Bool(true)), now == Some(Bool(true));
    if key == "readOnlyHint" && wasTrue && !nowTrue then Some(NotReadOnly)
    else if key == "destructiveHint" && !wasTrue && nowTrue then Some(MayDestroy)
    else if key == "openWorldHint" && !wasTrue && nowTrue then Some(ReachesOut)
    else if key == "idempotentHint" && wasTrue && !nowTrue then Some(NotIdempotent)
    else None
  }

  ghost function AnnotationChanges(before: map<string, Json>, after: map<string, Json>, keys: seq<string>): seq<Change> {
    if keys == [] then []
    else
      var was, now := Lookup(before, keys[0]), Lookup(after, keys[0]);
      If(was != now, Change(AnnotationChanged(keys[0]), false, [], HintFlag(keys[0], was, now)))
      + AnnotationChanges(before, after, keys[1..])
  }

  ghost function FieldChanges(before: map<string, Json>, after: map<string, Json>, keys: seq<string>): seq<Change> {
    if keys == [] then []
    else If(Lookup(before, keys[0]) != Lookup(after, keys[0]), Change(FieldChanged(keys[0]), false, [], None))
         + FieldChanges(before, after, keys[1..])
  }

  function Known(): set<string> {
    {"name", "title", "description", "inputSchema", "outputSchema", "annotations", "_meta"}
  }

  ghost function TopLevel(before: Json, after: Json): seq<Change> {
    var a, b := Fields(Some(before)), Fields(Some(after));
    var oldNotes, newNotes := Fields(Lookup(a, "annotations")), Fields(Lookup(b, "annotations"));
    var oldMeta, newMeta := Fields(Lookup(a, "_meta")), Fields(Lookup(b, "_meta"));
    FieldChanges(a, b, ["title", "description"])
    + Schema(Lookup(a, "inputSchema"), Lookup(b, "inputSchema"), [], true)
    + Schema(Lookup(a, "outputSchema"), Lookup(b, "outputSchema"), [], false)
    + AnnotationChanges(oldNotes, newNotes, InOrder(oldNotes.Keys + newNotes.Keys))
    + KeyedChanges(oldMeta, newMeta, InOrder(oldMeta.Keys + newMeta.Keys))
    + FieldChanges(a, b, InOrder(a.Keys + b.Keys - Known()))
  }

  /** The addresses and invisible characters one contract's texts contain. */
  datatype Evidence = Evidence(urls: set<string>, emails: set<string>, hidden: set<string>)

  function EvidenceChanges(before: Evidence, after: Evidence): seq<Change> {
    If(!(after.urls <= before.urls), Change(UrlsAdded, false, [], Some(NewAddress)))
    + If(!(after.emails <= before.emails), Change(EmailsAdded, false, [], Some(NewAddress)))
    + If(!(after.hidden <= before.hidden), Change(HiddenAdded, false, [], Some(HidesText)))
  }

  /** Every change from `before` to `after`, whose texts hold `had` and `has`. */
  ghost function Summary(before: Json, after: Json, had: Evidence, has: Evidence): seq<Change> {
    TopLevel(before, after) + EvidenceChanges(had, has)
  }
}
