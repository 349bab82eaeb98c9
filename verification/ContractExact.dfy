/** Exactly what a whole summary lists, and in which order its parts come. */
module ContractExact {
  import opened Basics
  import opened JsonTree
  import opened ContractDiff
  import opened ContractSilence
  import opened ContractFlags
  import opened ContractTruth

  // ---- keyed parts ---------------------------------------------------------

  lemma {:induction false} FieldsExactly(before: map<string, Json>, after: map<string, Json>, keys: seq<string>, c: Change)
    ensures c in FieldChanges(before, after, keys) <==>
            && c.what.FieldChanged? && c == Change(c.what, false, [], None)
            && c.what.key in keys && Lookup(before, c.what.key) != Lookup(after, c.what.key)
  {
    if keys != [] {
      FieldsExactly(before, after, keys[1..], c);
    }
  }

  lemma {:induction false} MetadataExactly(before: map<string, Json>, after: map<string, Json>, keys: seq<string>, c: Change)
    ensures c in KeyedChanges(before, after, keys) <==>
            && c.what.MetadataChanged? && c == Change(c.what, false, [], None)
            && c.what.key in keys && Lookup(before, c.what.key) != Lookup(after, c.what.key)
  {
    if keys != [] {
      MetadataExactly(before, after, keys[1..], c);
    }
  }

  /** The flag a changed hint carries: each of four hints has its own, and only for a change that widens. */
  predicate HintSays(key: string, was: Option<Json>, now: Option<Json>, flag: Option<Flag>) {
    var lost, gained := was == Some(Bool(true)) && now != Some(Bool(true)), was != Some(Bool(true)) && now == Some(Bool(true));
    && (flag == Some(NotReadOnly) <==> key == "readOnlyHint" && lost)
    && (flag == Some(NotIdempotent) <==> key == "idempotentHint" && lost)
    && (flag == Some(MayDestroy) <==> key == "destructiveHint" && gained)
    && (flag == Some(ReachesOut) <==> key == "openWorldHint" && gained)
    && (flag.Some? ==> flag.value in {NotReadOnly, NotIdempotent, MayDestroy, ReachesOut})
  }

  lemma HintFlagExactly(key: string, was: Option<Json>, now: Option<Json>, flag: Option<Flag>)
    ensures flag == HintFlag(key, was, now) <==> HintSays(key, was, now, flag)
  {
  }

  lemma {:induction false} AnnotationsExactly(before: map<string, Json>, after: map<string, Json>, keys: seq<string>, c: Change)
    ensures c in AnnotationChanges(before, after, keys) <==>
            && c.what.AnnotationChanged? && c == Change(c.what, false, [], c.flag) && c.what.key in keys
            && Lookup(before, c.what.key) != Lookup(after, c.what.key)
            && HintSays(c.what.key, Lookup(before, c.what.key), Lookup(after, c.what.key), c.flag)
  {
    if keys != [] {
      AnnotationsExactly(before, after, keys[1..], c);
      HintFlagExactly(keys[0], Lookup(before, keys[0]), Lookup(after, keys[0]), c.flag);
    }
  }

  // ---- the whole summary ---------------------------------------------------

  function OutputPlace(before: Json, after: Json): Place {
    Place(Get(Some(before), "outputSchema"), Get(Some(after), "outputSchema"), [], false)
  }

  function Meta(c: Json): map<string, Json> {
    Fields(Get(Some(c), "_meta"))
  }

  /** A field of the contract itself that is compared whole. */
  predicate WholeField(key: string) {
    key !in {"name", "inputSchema", "outputSchema", "annotations", "_meta"}
  }

  predicate Gains(had: set<string>, has: set<string>) {
    exists x :: x in has && x !in had
  }

  /** Addresses and hidden characters are reported only when there are new ones. */
  predicate SaidOfEvidence(had: Evidence, has: Evidence, c: Change) {
    || (c == Change(UrlsAdded, false, [], Some(NewAddress)) && Gains(had.urls, has.urls))
    || (c == Change(EmailsAdded, false, [], Some(NewAddress)) && Gains(had.emails, has.emails))
    || (c == Change(HiddenAdded, false, [], Some(HidesText)) && Gains(had.hidden, has.hidden))
  }

  /** What there is to say of two contracts and the evidence in their texts. */
  ghost predicate SaidOfContract(before: Json, after: Json, had: Evidence, has: Evidence, c: Change) {
    match c.what
    case FieldChanged(k) =>
      c == Change(c.what, false, [], None) && WholeField(k) && Get(Some(before), k) != Get(Some(after), k)
    case AnnotationChanged(k) =>
      && c == Change(c.what, false, [], c.flag) && Lookup(Notes(before), k) != Lookup(Notes(after), k)
      && HintSays(k, Lookup(Notes(before), k), Lookup(Notes(after), k), c.flag)
    case MetadataChanged(k) => c == Change(c.what, false, [], None) && Lookup(Meta(before), k) != Lookup(Meta(after), k)
    case UrlsAdded => SaidOfEvidence(had, has, c)
    case EmailsAdded => SaidOfEvidence(had, has, c)
    case HiddenAdded => SaidOfEvidence(had, has, c)
    case _ => SaidSomewhere(InputPlace(before, after), c) || SaidSomewhere(OutputPlace(before, after), c)
  }

  lemma SaidIsOfSchema(p: Place, c: Change, hop: Hop)
    requires Said(p, c, hop)
    ensures c.input == p.input && OfSchema(c.what)
  {
  }

  predicate OfSchema(what: What) {
    !(what.FieldChanged? || what.AnnotationChanged? || what.MetadataChanged? || what.UrlsAdded? || what.EmailsAdded? || what.HiddenAdded?)
  }

  /** A walk lists nothing but changes to its own schema. */
  lemma WalkIsOfSchema(p: Place, c: Change)
    requires c in Walk(p)
    ensures c.input == p.input && OfSchema(c.what)
  {
    var hops, hop := EveryChangeHolds(p, c);
    ReachKeepsSide(p, hops);
    SaidIsOfSchema(Reach(p, hops).value, c, hop);
  }

  lemma GainsExactly(had: set<string>, has: set<string>)
    ensures Gains(had, has) <==> !(has <= had)
  {
  }

  lemma InIf(condition: bool, change: Change, c: Change)
    ensures c in If(condition, change) <==> condition && c == change
  {
  }

  lemma EvidenceExactly(had: Evidence, has: Evidence, c: Change)
    ensures c in EvidenceChanges(had, has) <==> SaidOfEvidence(had, has, c)
  {
    GainsExactly(had.urls, has.urls);
    GainsExactly(had.emails, has.emails);
    GainsExactly(had.hidden, has.hidden);
    InIf(!(has.urls <= had.urls), Change(UrlsAdded, false, [], Some(NewAddress)), c);
    InIf(!(has.emails <= had.emails), Change(EmailsAdded, false, [], Some(NewAddress)), c);
    InIf(!(has.hidden <= had.hidden), Change(HiddenAdded, false, [], Some(HidesText)), c);
  }

  // ---- part by part --------------------------------------------------------

  ghost function FieldPart(before: Json, after: Json, keys: seq<string>): seq<Change> {
    FieldChanges(Fields(Some(before)), Fields(Some(after)), keys)
  }

  ghost function OtherFields(before: Json, after: Json): seq<string> {
    InOrder(Fields(Some(before)).Keys + Fields(Some(after)).Keys - Known())
  }

  ghost function NotePart(before: Json, after: Json): seq<Change> {
    AnnotationChanges(Notes(before), Notes(after), InOrder(Notes(before).Keys + Notes(after).Keys))
  }

  ghost function MetaPart(before: Json, after: Json): seq<Change> {
    KeyedChanges(Meta(before), Meta(after), InOrder(Meta(before).Keys + Meta(after).Keys))
  }

  lemma SummaryIsParts(before: Json, after: Json, had: Evidence, has: Evidence)
    ensures Summary(before, after, had, has)
         == FieldPart(before, after, ["title", "description"]) + Walk(InputPlace(before, after)) + Walk(OutputPlace(before, after))
            + NotePart(before, after) + MetaPart(before, after) + FieldPart(before, after, OtherFields(before, after))
            + EvidenceChanges(had, has)
  {
  }

  lemma InSeven(a: seq<Change>, b: seq<Change>, d: seq<Change>, e: seq<Change>, f: seq<Change>, g: seq<Change>, h: seq<Change>, c: Change)
    ensures c in a + b + d + e + f + g + h <==> c in a || c in b || c in d || c in e || c in f || c in g || c in h
  {
  }

  lemma FieldPartExactly(before: Json, after: Json, keys: seq<string>, c: Change)
    requires forall k | k in keys :: WholeField(k)
    ensures c in FieldPart(before, after, keys) <==>
            c.what.FieldChanged? && c.what.key in keys && SaidOfFields(before, after, c)
  {
    FieldsExactly(Fields(Some(before)), Fields(Some(after)), keys, c);
  }

  predicate SaidOfFields(before: Json, after: Json, c: Change)
    requires c.what.FieldChanged?
  {
    c == Change(c.what, false, [], None) && WholeField(c.what.key) && Get(Some(before), c.what.key) != Get(Some(after), c.what.key)
  }

  /** Title, description and every field that is not compared in parts. */
  lemma FieldsOfContractExactly(before: Json, after: Json, c: Change)
    ensures c in FieldPart(before, after, ["title", "description"]) || c in FieldPart(before, after, OtherFields(before, after))
       <==> c.what.FieldChanged? && SaidOfFields(before, after, c)
  {
    FieldPartExactly(before, after, ["title", "description"], c);
    FieldPartExactly(before, after, OtherFields(before, after), c);
    if c.what.FieldChanged? && SaidOfFields(before, after, c) {
      assert c.what.key in Fields(Some(before)) || c.what.key in Fields(Some(after));
      assert c.what.key in ["title", "description"] || c.what.key in OtherFields(before, after);
    }
  }

  lemma NotePartExactly(before: Json, after: Json, c: Change)
    ensures c in NotePart(before, after) <==>
            && c.what.AnnotationChanged? && c == Change(c.what, false, [], c.flag)
            && Lookup(Notes(before), c.what.key) != Lookup(Notes(after), c.what.key)
            && HintSays(c.what.key, Lookup(Notes(before), c.what.key), Lookup(Notes(after), c.what.key), c.flag)
  {
    AnnotationsExactly(Notes(before), Notes(after), InOrder(Notes(before).Keys + Notes(after).Keys), c);
  }

  lemma MetaPartExactly(before: Json, after: Json, c: Change)
    ensures c in MetaPart(before, after) <==>
            && c.what.MetadataChanged? && c == Change(c.what, false, [], None)
            && Lookup(Meta(before), c.what.key) != Lookup(Meta(after), c.what.key)
  {
    MetadataExactly(Meta(before), Meta(after), InOrder(Meta(before).Keys + Meta(after).Keys), c);
  }

  lemma WalkPartExactly(p: Place, c: Change)
    ensures c in Walk(p) <==> OfSchema(c.what) && SaidSomewhere(p, c)
  {
    ListedExactly(p, c);
    if c in Walk(p) {
      WalkIsOfSchema(p, c);
    }
  }

  /** The parts together cover what there is to say, one kind of change each. */
  lemma PartsCover(before: Json, after: Json, had: Evidence, has: Evidence, c: Change,
                   fields: bool, input: bool, output: bool, notes: bool, meta: bool, evidence: bool)
    requires fields <==> c.what.FieldChanged? && SaidOfFields(before, after, c)
    requires input <==> OfSchema(c.what) && SaidSomewhere(InputPlace(before, after), c)
    requires output <==> OfSchema(c.what) && SaidSomewhere(OutputPlace(before, after), c)
    requires notes <==>
             && c.what.AnnotationChanged? && c == Change(c.what, false, [], c.flag)
             && Lookup(Notes(before), c.what.key) != Lookup(Notes(after), c.what.key)
             && HintSays(c.what.key, Lookup(Notes(before), c.what.key), Lookup(Notes(after), c.what.key), c.flag)
    requires meta <==>
             && c.what.MetadataChanged? && c == Change(c.what, false, [], None)
             && Lookup(Meta(before), c.what.key) != Lookup(Meta(after), c.what.key)
    requires evidence <==> SaidOfEvidence(had, has, c)
    ensures fields || input || output || notes || meta || evidence <==> SaidOfContract(before, after, had, has, c)
  {
  }

  /** A summary lists exactly what there is to say of the two contracts, with its flag, and nothing else. */
  lemma SummaryExactly(before: Json, after: Json, had: Evidence, has: Evidence, c: Change)
    ensures c in Summary(before, after, had, has) <==> SaidOfContract(before, after, had, has, c)
  {
    SummaryIsParts(before, after, had, has);
    var title, others := FieldPart(before, after, ["title", "description"]), FieldPart(before, after, OtherFields(before, after));
    var input, output := Walk(InputPlace(before, after)), Walk(OutputPlace(before, after));
    InSeven(title, input, output, NotePart(before, after), MetaPart(before, after), others, EvidenceChanges(had, has), c);
    FieldsOfContractExactly(before, after, c);
    WalkPartExactly(InputPlace(before, after), c);
    WalkPartExactly(OutputPlace(before, after), c);
    NotePartExactly(before, after, c);
    MetaPartExactly(before, after, c);
    EvidenceExactly(had, has, c);
    PartsCover(before, after, had, has, c, c in title || c in others, c in input, c in output,
               c in NotePart(before, after), c in MetaPart(before, after), c in EvidenceChanges(had, has));
  }

  // ---- the order of the parts ----------------------------------------------

  /** Title and description, input, output, annotations, metadata, other fields, evidence. */
  function Section(c: Change): nat {
    match c.what
    case FieldChanged(k) => if k in {"title", "description"} then 0 else 5
    case AnnotationChanged(_) => 3
    case MetadataChanged(_) => 4
    case UrlsAdded => 6
    case EmailsAdded => 6
    case HiddenAdded => 6
    case _ => if c.input then 1 else 2
  }

  ghost predicate AllIn(part: seq<Change>, n: nat) {
    forall c | c in part :: Section(c) == n
  }

  lemma FieldSection(before: Json, after: Json, keys: seq<string>, n: nat)
    requires forall k | k in keys :: WholeField(k) && Section(Change(FieldChanged(k), false, [], None)) == n
    ensures AllIn(FieldPart(before, after, keys), n)
  {
    forall c | c in FieldPart(before, after, keys) ensures Section(c) == n {
      FieldPartExactly(before, after, keys, c);
      assert c == Change(FieldChanged(c.what.key), false, [], None);
    }
  }

  lemma TitleSection(before: Json, after: Json)
    ensures AllIn(FieldPart(before, after, ["title", "description"]), 0)
  {
    FieldSection(before, after, ["title", "description"], 0);
  }

  lemma OtherSection(before: Json, after: Json)
    ensures AllIn(FieldPart(before, after, OtherFields(before, after)), 5)
  {
    FieldSection(before, after, OtherFields(before, after), 5);
  }

  lemma NoteSection(before: Json, after: Json)
    ensures AllIn(NotePart(before, after), 3)
  {
    forall c | c in NotePart(before, after) ensures Section(c) == 3 {
      NotePartExactly(before, after, c);
    }
  }

  lemma MetaSection(before: Json, after: Json)
    ensures AllIn(MetaPart(before, after), 4)
  {
    forall c | c in MetaPart(before, after) ensures Section(c) == 4 {
      MetaPartExactly(before, after, c);
    }
  }

  lemma WalkSection(p: Place)
    ensures AllIn(Walk(p), if p.input then 1 else 2)
  {
    forall c | c in Walk(p) ensures Section(c) == if p.input then 1 else 2 {
      WalkIsOfSchema(p, c);
    }
  }

  lemma EvidenceSection(had: Evidence, has: Evidence)
    ensures AllIn(EvidenceChanges(had, has), 6)
  {
    var r := EvidenceChanges(had, has);
    forall c | c in r ensures Section(c) == 6 {
      EvidenceSectionOf(had, has, r, c);
    }
  }

  lemma EvidenceSectionOf(had: Evidence, has: Evidence, r: seq<Change>, c: Change)
    requires r == EvidenceChanges(had, has) && c in r
    ensures Section(c) == 6
  {
    EvidenceExactly(had, has, c);
  }

  predicate InSections(s: seq<Change>, n: nat) {
    && (forall i, j | 0 <= i < j < |s| :: Section(s[i]) <= Section(s[j]))
    && (forall i | 0 <= i < |s| :: Section(s[i]) <= n)
  }

  lemma SectionsJoin(s: seq<Change>, part: seq<Change>, n: nat)
    requires InSections(s, n) && AllIn(part, n + 1)
    ensures InSections(s + part, n + 1)
  {
    forall i | 0 <= i < |part| ensures Section(part[i]) == n + 1 {
      assert part[i] in part;
    }
  }

  lemma SevenSections(a: seq<Change>, b: seq<Change>, d: seq<Change>, e: seq<Change>, f: seq<Change>, g: seq<Change>, h: seq<Change>)
    requires AllIn(a, 0) && AllIn(b, 1) && AllIn(d, 2) && AllIn(e, 3) && AllIn(f, 4) && AllIn(g, 5) && AllIn(h, 6)
    ensures InSections(a + b + d + e + f + g + h, 6)
  {
    assert forall i | 0 <= i < |a| :: a[i] in a;
    SectionsJoin(a, b, 0);
    SectionsJoin(a + b, d, 1);
    SectionsJoin(a + b + d, e, 2);
    SectionsJoin(a + b + d + e, f, 3);
    SectionsJoin(a + b + d + e + f, g, 4);
    SectionsJoin(a + b + d + e + f + g, h, 5);
  }

  /** A summary reads in this order, so its first changes are the title's, the description's and the input schema's. */
  lemma SummaryInOrder(before: Json, after: Json, had: Evidence, has: Evidence)
    ensures var r := Summary(before, after, had, has);
            forall i, j | 0 <= i < j < |r| :: Section(r[i]) <= Section(r[j])
  {
    TitleSection(before, after);
    NoteSection(before, after);
    MetaSection(before, after);
    OtherSection(before, after);
    WalkSection(InputPlace(before, after));
    WalkSection(OutputPlace(before, after));
    EvidenceSection(had, has);
    SummaryIsParts(before, after, had, has);
    SevenSections(FieldPart(before, after, ["title", "description"]), Walk(InputPlace(before, after)), Walk(OutputPlace(before, after)),
                  NotePart(before, after), MetaPart(before, after), FieldPart(before, after, OtherFields(before, after)),
                  EvidenceChanges(had, has));
  }
}
