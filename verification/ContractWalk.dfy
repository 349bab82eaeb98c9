/**
 The walk as it runs: a collector that counts every change and keeps the first ones, filled
 in place by mutually recursive methods.
 */
module ContractWalk {
  import opened Basics
  import opened JsonTree
  import opened ContractDiff

  /** Changes beyond this many are counted and not described. */
  const MAX_LISTED: nat := 50

  function Flagged(changes: seq<Change>): nat {
    if changes == [] then 0 else Flagged(changes[1..]) + (if changes[0].flag.Some? then 1 else 0)
  }

  lemma {:induction false} FlaggedAppend(changes: seq<Change>, more: seq<Change>)
    ensures Flagged(changes + more) == Flagged(changes) + Flagged(more)
  {
    if changes == [] {
      assert changes + more == more;
    } else {
      assert (changes + more)[1..] == changes[1..] + more;
      FlaggedAppend(changes[1..], more);
    }
  }

  function Prefix(changes: seq<Change>, n: nat): seq<Change> {
    if |changes| <= n then changes else changes[..n]
  }

  class Collector {
    var listed: seq<Change>
    var total: nat
    var flagged: nat
    ghost var all: seq<Change>

    /** `all` is the unbounded list; the fields keep its start and its counts. */
    ghost predicate Valid()
      reads this
    {
      total == |all| && flagged == Flagged(all) && listed == Prefix(all, MAX_LISTED)
    }

    constructor ()
      ensures Valid() && all == []
    {
      listed, total, flagged, all := [], 0, 0, [];
    }

    method Push(change: Change)
      requires Valid()
      modifies this
      ensures Valid() && all == old(all) + [change]
    {
      FlaggedAppend(all, [change]);
      total := total + 1;
      if change.flag.Some? {
        flagged := flagged + 1;
      }
      if |listed| < MAX_LISTED {
        listed := listed + [change];
      }
      all := all + [change];
    }
  }

  // ---- a list of changes as the pieces a loop appends ----------------------

  function Concat(pieces: seq<seq<Change>>): seq<Change> {
    if pieces == [] then [] else pieces[0] + Concat(pieces[1..])
  }

  lemma {:induction false} ConcatSnoc(pieces: seq<seq<Change>>, last: seq<Change>)
    ensures Concat(pieces + [last]) == Concat(pieces) + last
  {
    if pieces == [] {
      assert [] + [last] == [last] && [last][1..] == [];
    } else {
      assert (pieces + [last])[1..] == pieces[1..] + [last];
      ConcatSnoc(pieces[1..], last);
      Regroup(pieces[0], Concat(pieces[1..]), last);
    }
  }

  lemma ConcatMore(start: seq<Change>, pieces: seq<seq<Change>>, i: nat)
    requires i < |pieces|
    ensures (start + Concat(pieces[..i])) + pieces[i] == start + Concat(pieces[..i + 1])
  {
    assert pieces[..i + 1] == pieces[..i] + [pieces[i]];
    ConcatSnoc(pieces[..i], pieces[i]);
    Regroup(start, Concat(pieces[..i]), pieces[i]);
  }

  ghost function PropertyPieces(before: map<string, Json>, after: map<string, Json>, names: seq<string>, path: Path, input: bool): seq<seq<Change>> {
    seq(|names|, i requires 0 <= i < |names| => OneProperty(before, after, names[i], path, input))
  }

  lemma {:induction false} PropertyPiecesConcat(before: map<string, Json>, after: map<string, Json>, names: seq<string>, path: Path, input: bool)
    ensures Concat(PropertyPieces(before, after, names, path, input)) == PropertyChanges(before, after, names, path, input)
  {
    if names != [] {
      PropertyPiecesConcat(before, after, names[1..], path, input);
      assert PropertyPieces(before, after, names, path, input)[1..] == PropertyPieces(before, after, names[1..], path, input);
    }
  }

  ghost function KeywordPieces(before: map<string, Json>, after: map<string, Json>, keys: seq<string>, path: Path, input: bool): seq<seq<Change>> {
    seq(|keys|, i requires 0 <= i < |keys| => OneKeyword(before, after, keys[i], path, input))
  }

  lemma {:induction false} KeywordPiecesConcat(before: map<string, Json>, after: map<string, Json>, keys: seq<string>, path: Path, input: bool)
    ensures Concat(KeywordPieces(before, after, keys, path, input)) == KeywordChanges(before, after, keys, path, input)
  {
    if keys != [] {
      KeywordPiecesConcat(before, after, keys[1..], path, input);
      assert KeywordPieces(before, after, keys, path, input)[1..] == KeywordPieces(before, after, keys[1..], path, input);
    }
  }

  // ---- the walk ------------------------------------------------------------

  method WalkSchema(before: Option<Json>, after: Option<Json>, path: Path, input: bool, out: Collector)
    requires out.Valid()
    modifies out
    ensures out.Valid() && out.all == old(out.all) + Schema(before, after, path, input)
    decreases OptHeight(before) + OptHeight(after), 2, 0
  {
    if before == after {
      return;
    }
    var a, b := Fields(before), Fields(after);
    MemberHeight(a, "properties");
    MemberHeight(b, "properties");
    ghost var start := out.all;
    WalkProperties(Properties(before), Properties(after), path, input, out);
    ghost var first := PropertyChanges(Properties(before), Properties(after), InOrder(Properties(before).Keys + Properties(after).Keys), path, input);
    WalkRequirements(Required(before), Required(after), path, input, out);
    ghost var second := RequirementChanges(Required(before), Required(after), path, input);
    WalkKeywords(a, b, path, input, out);
    ghost var third := KeywordChanges(a, b, InOrder(OtherKeys(a, b, path)), path, input);
    Regroup(start, first, second);
    Regroup(start, first + second, third);
  }

  method WalkProperties(before: map<string, Json>, after: map<string, Json>, path: Path, input: bool, out: Collector)
    requires out.Valid()
    modifies out
    ensures out.Valid()
    ensures out.all == old(out.all) + PropertyChanges(before, after, InOrder(before.Keys + after.Keys), path, input)
    decreases MapHeight(before) + MapHeight(after), 1, 1
  {
    var names := Sort(before.Keys + after.Keys);
    ghost var start, pieces := out.all, PropertyPieces(before, after, names, path, input);
    var i := 0;
    assert pieces[..0] == [];
    while i < |names|
      invariant 0 <= i <= |names|
      invariant out.Valid() && out.all == start + Concat(pieces[..i])
    {
      WalkOneProperty(before, after, names[i], path, input, out);
      ConcatMore(start, pieces, i);
      i := i + 1;
    }
    assert Concat(pieces[..|names|]) == Concat(pieces) by {
      assert pieces[..|names|] == pieces;
    }
    PropertyPiecesConcat(before, after, names, path, input);
  }

  method WalkOneProperty(before: map<string, Json>, after: map<string, Json>, name: string, path: Path, input: bool, out: Collector)
    requires out.Valid()
    modifies out
    ensures out.Valid() && out.all == old(out.all) + OneProperty(before, after, name, path, input)
    decreases MapHeight(before) + MapHeight(after), 1, 0
  {
    MemberHeight(before, name);
    MemberHeight(after, name);
    EmptyHeight();
    var was, now := Lookup(before, name), Lookup(after, name);
    var at := path + [Name(name)];
    match (was, now) {
      case (None, Some(_)) =>
        ghost var start := out.all;
        out.Push(Change(Added, input, at, FlagIf(input, NewInput)));
        WalkSchema(None, now, at, input, out);
        Regroup(start, [Change(Added, input, at, FlagIf(input, NewInput))], Schema(None, now, at, input));
      case (Some(_), None) =>
        out.Push(Change(Removed, input, at, None));
      case (Some(x), Some(y)) =>
        if x != y {
          WalkProperty(x, y, at, input, out);
        }
      case (None, None) =>
    }
  }

  method WalkRequirements(before: set<string>, after: set<string>, path: Path, input: bool, out: Collector)
    requires out.Valid()
    modifies out
    ensures out.Valid() && out.all == old(out.all) + RequirementChanges(before, after, path, input)
  {
    ghost var start := out.all;
    var added := Sort(after - before);
    PushEach(added, NowRequired, path, input, FlagIf(input, MustSupply), out);
    var dropped := Sort(before - after);
    PushEach(dropped, NoLongerRequired, path, input, None, out);
    Regroup(start, Each(added, NowRequired, path, input, FlagIf(input, MustSupply)),
            Each(dropped, NoLongerRequired, path, input, None));
  }

  method PushEach(names: seq<string>, what: What, path: Path, input: bool, flag: Option<Flag>, out: Collector)
    requires out.Valid()
    modifies out
    ensures out.Valid() && out.all == old(out.all) + Each(names, what, path, input, flag)
  {
    ghost var start := out.all;
    var i := 0;
    while i < |names|
      invariant 0 <= i <= |names|
      invariant out.Valid()
      invariant out.all == start + Each(names[..i], what, path, input, flag)
    {
      out.Push(Change(what, input, path + [Name(names[i])], flag));
      assert Each(names[..i + 1], what, path, input, flag)
          == Each(names[..i], what, path, input, flag) + [Change(what, input, path + [Name(names[i])], flag)];
      i := i + 1;
    }
    assert names[..i] == names;
  }

  method WalkKeywords(before: map<string, Json>, after: map<string, Json>, path: Path, input: bool, out: Collector)
    requires out.Valid()
    modifies out
    ensures out.Valid()
    ensures out.all == old(out.all) + KeywordChanges(before, after, InOrder(OtherKeys(before, after, path)), path, input)
    decreases MapHeight(before) + MapHeight(after), 1, 1
  {
    var keys := Sort(before.Keys + after.Keys - Reported(path));
    ghost var start, pieces := out.all, KeywordPieces(before, after, keys, path, input);
    var i := 0;
    assert pieces[..0] == [];
    while i < |keys|
      invariant 0 <= i <= |keys|
      invariant out.Valid() && out.all == start + Concat(pieces[..i])
    {
      WalkOneKeyword(before, after, keys[i], path, input, out);
      ConcatMore(start, pieces, i);
      i := i + 1;
    }
    assert Concat(pieces[..|keys|]) == Concat(pieces) by {
      assert pieces[..|keys|] == pieces;
    }
    KeywordPiecesConcat(before, after, keys, path, input);
  }

  method WalkOneKeyword(before: map<string, Json>, after: map<string, Json>, key: string, path: Path, input: bool, out: Collector)
    requires out.Valid()
    modifies out
    ensures out.Valid() && out.all == old(out.all) + OneKeyword(before, after, key, path, input)
    decreases MapHeight(before) + MapHeight(after), 1, 0
  {
    MemberHeight(before, key);
    MemberHeight(after, key);
    EmptyHeight();
    var was, now := Lookup(before, key), Lookup(after, key);
    var at := path + [Name(key)];
    if was == now {
    } else if input && Opens(was, now, key) {
      ghost var start := out.all;
      out.Push(Change(Opened(key), input, path, Some(Undescribed)));
      if IsObj(now) {
        WalkSchema(None, now, at, input, out);
        Regroup(start, [Change(Opened(key), input, path, Some(Undescribed))], Schema(None, now, at, input));
      }
    } else if !Literal(key) && (IsObj(was) || IsObj(now)) {
      WalkNested(was, now, at, input, out);
    } else if !Literal(key) && (HoldsObjects(was) || HoldsObjects(now)) {
      WalkElements(Items(was), Items(now), key, path, input, out);
    } else {
      out.Push(Change(KeywordChanged(key), input, path, None));
    }
  }

  method WalkElements(before: seq<Json>, after: seq<Json>, key: string, path: Path, input: bool, out: Collector)
    requires out.Valid()
    modifies out
    ensures out.Valid() && out.all == old(out.all) + Elements(before, after, key, 0, path, input)
    decreases ListHeight(before) + ListHeight(after), 1, 0
  {
    ghost var goal := out.all + Elements(before, after, key, 0, path, input);
    var i := 0;
    while i < Max(|before|, |after|)
      invariant 0 <= i <= Max(|before|, |after|)
      invariant out.Valid()
      invariant out.all + Elements(before, after, key, i, path, input) == goal
    {
      ElementHeight(before, i);
      ElementHeight(after, i);
      ghost var was := out.all;
      var at := path + [Item(key, i)];
      WalkNested(ItemAt(before, i), ItemAt(after, i), at, input, out);
      Regroup(was, Nested(ItemAt(before, i), ItemAt(after, i), at, input),
              Elements(before, after, key, i + 1, path, input));
      i := i + 1;
    }
  }

  method WalkNested(before: Option<Json>, after: Option<Json>, path: Path, input: bool, out: Collector)
    requires out.Valid()
    modifies out
    ensures out.Valid() && out.all == old(out.all) + Nested(before, after, path, input)
    decreases OptHeight(before) + OptHeight(after), 4, 0
  {
    EmptyHeight();
    match (before, after) {
      case (Some(x), Some(y)) =>
        if x != y {
          WalkProperty(x, y, path, input, out);
        }
      case (None, Some(_)) =>
        ghost var was := out.all;
        out.Push(Change(Added, input, path, None));
        WalkSchema(None, after, path, input, out);
        Regroup(was, [Change(Added, input, path, None)], Schema(None, after, path, input));
      case (Some(_), None) =>
        out.Push(Change(Removed, input, path, None));
      case (None, None) =>
    }
  }

  method WalkProperty(before: Json, after: Json, path: Path, input: bool, out: Collector)
    requires out.Valid()
    modifies out
    ensures out.Valid() && out.all == old(out.all) + Property(before, after, path, input)
    decreases OptHeight(Some(before)) + OptHeight(Some(after)), 3, 0
  {
    var start := out.total;
    ghost var was := out.all;
    PushOwn(before, after, path, input, out);
    if before.Obj? || after.Obj? {
      WalkSchema(Some(before), Some(after), path, input, out);
      Regroup(was, OwnChanges(before, after, path, input), Schema(Some(before), Some(after), path, input));
    }
    if out.total == start {
      out.Push(Change(DefinitionChanged, input, path, None));
    }
  }

  method PushIf(condition: bool, change: Change, out: Collector)
    requires out.Valid()
    modifies out
    ensures out.Valid() && out.all == old(out.all) + If(condition, change)
  {
    if condition {
      out.Push(change);
    }
  }

  method PushOwn(before: Json, after: Json, path: Path, input: bool, out: Collector)
    requires out.Valid()
    modifies out
    ensures out.Valid() && out.all == old(out.all) + OwnChanges(before, after, path, input)
  {
    var a, b := Some(before), Some(after);
    ghost var start, r := out.all, [];
    PushIf(Get(a, "type") != Get(b, "type"), Change(TypeChanged, input, path, None), out);
    r := Extend(start, r, If(Get(a, "type") != Get(b, "type"), Change(TypeChanged, input, path, None)));
    PushIf(Get(a, "description") != Get(b, "description"), Change(DescriptionChanged, input, path, None), out);
    r := Extend(start, r, If(Get(a, "description") != Get(b, "description"), Change(DescriptionChanged, input, path, None)));
    PushIf(Get(a, "enum") != Get(b, "enum"), Change(ValuesChanged, input, path, None), out);
    r := Extend(start, r, If(Get(a, "enum") != Get(b, "enum"), Change(ValuesChanged, input, path, None)));
    PushIf(Get(a, "default") != Get(b, "default"), Change(DefaultChanged, input, path, None), out);
    r := Extend(start, r, If(Get(a, "default") != Get(b, "default"), Change(DefaultChanged, input, path, None)));
  }

  // ---- the whole contract --------------------------------------------------

  method WalkAnnotations(before: map<string, Json>, after: map<string, Json>, out: Collector)
    requires out.Valid()
    modifies out
    ensures out.Valid()
    ensures out.all == old(out.all) + AnnotationChanges(before, after, InOrder(before.Keys + after.Keys))
  {
    var keys := Sort(before.Keys + after.Keys);
    ghost var goal := out.all + AnnotationChanges(before, after, keys);
    var i := 0;
    while i < |keys|
      invariant 0 <= i <= |keys|
      invariant out.Valid()
      invariant out.all + AnnotationChanges(before, after, keys[i..]) == goal
    {
      ghost var start := out.all;
      var was, now := Lookup(before, keys[i]), Lookup(after, keys[i]);
      var change := Change(AnnotationChanged(keys[i]), false, [], HintFlag(keys[i], was, now));
      PushIf(was != now, change, out);
      assert keys[i..][1..] == keys[i + 1..];
      Regroup(start, If(was != now, change), AnnotationChanges(before, after, keys[i + 1..]));
      i := i + 1;
    }
  }

  method WalkMetadata(before: map<string, Json>, after: map<string, Json>, out: Collector)
    requires out.Valid()
    modifies out
    ensures out.Valid()
    ensures out.all == old(out.all) + KeyedChanges(before, after, InOrder(before.Keys + after.Keys))
  {
    var keys := Sort(before.Keys + after.Keys);
    ghost var goal := out.all + KeyedChanges(before, after, keys);
    var i := 0;
    while i < |keys|
      invariant 0 <= i <= |keys|
      invariant out.Valid()
      invariant out.all + KeyedChanges(before, after, keys[i..]) == goal
    {
      ghost var start := out.all;
      var differ := Lookup(before, keys[i]) != Lookup(after, keys[i]);
      var change := Change(MetadataChanged(keys[i]), false, [], None);
      PushIf(differ, change, out);
      assert keys[i..][1..] == keys[i + 1..];
      Regroup(start, If(differ, change), KeyedChanges(before, after, keys[i + 1..]));
      i := i + 1;
    }
  }

  method WalkFields(before: map<string, Json>, after: map<string, Json>, keys: seq<string>, out: Collector)
    requires out.Valid()
    modifies out
    ensures out.Valid() && out.all == old(out.all) + FieldChanges(before, after, keys)
  {
    ghost var goal := out.all + FieldChanges(before, after, keys);
    var i := 0;
    while i < |keys|
      invariant 0 <= i <= |keys|
      invariant out.Valid()
      invariant out.all + FieldChanges(before, after, keys[i..]) == goal
    {
      ghost var start := out.all;
      var differ := Lookup(before, keys[i]) != Lookup(after, keys[i]);
      var change := Change(FieldChanged(keys[i]), false, [], None);
      PushIf(differ, change, out);
      assert keys[i..][1..] == keys[i + 1..];
      Regroup(start, If(differ, change), FieldChanges(before, after, keys[i + 1..]));
      i := i + 1;
    }
  }

  method WalkTopLevel(before: Json, after: Json, out: Collector)
    requires out.Valid()
    modifies out
    ensures out.Valid() && out.all == old(out.all) + TopLevel(before, after)
  {
    var a, b := Fields(Some(before)), Fields(Some(after));
    var aNotes, bNotes := Fields(Lookup(a, "annotations")), Fields(Lookup(b, "annotations"));
    var aMeta, bMeta := Fields(Lookup(a, "_meta")), Fields(Lookup(b, "_meta"));
    ghost var start := out.all;
    WalkFields(a, b, ["title", "description"], out);
    ghost var r := FieldChanges(a, b, ["title", "description"]);
    WalkSchema(Lookup(a, "inputSchema"), Lookup(b, "inputSchema"), [], true, out);
    r := Extend(start, r, Schema(Lookup(a, "inputSchema"), Lookup(b, "inputSchema"), [], true));
    WalkSchema(Lookup(a, "outputSchema"), Lookup(b, "outputSchema"), [], false, out);
    r := Extend(start, r, Schema(Lookup(a, "outputSchema"), Lookup(b, "outputSchema"), [], false));
    WalkAnnotations(aNotes, bNotes, out);
    r := Extend(start, r, AnnotationChanges(aNotes, bNotes, InOrder(aNotes.Keys + bNotes.Keys)));
    WalkMetadata(aMeta, bMeta, out);
    r := Extend(start, r, KeyedChanges(aMeta, bMeta, InOrder(aMeta.Keys + bMeta.Keys)));
    var others := Sort(a.Keys + b.Keys - Known());
    WalkFields(a, b, others, out);
    r := Extend(start, r, FieldChanges(a, b, others));
  }

  lemma Extend(start: seq<Change>, done: seq<Change>, next: seq<Change>) returns (r: seq<Change>)
    ensures r == done + next && (start + done) + next == start + r
  {
    r := done + next;
    Regroup(start, done, next);
  }

  method WalkEvidence(had: Evidence, has: Evidence, out: Collector)
    requires out.Valid()
    modifies out
    ensures out.Valid() && out.all == old(out.all) + EvidenceChanges(had, has)
  {
    ghost var start, r := out.all, [];
    PushIf(!(has.urls <= had.urls), Change(UrlsAdded, false, [], Some(NewAddress)), out);
    r := Extend(start, r, If(!(has.urls <= had.urls), Change(UrlsAdded, false, [], Some(NewAddress))));
    PushIf(!(has.emails <= had.emails), Change(EmailsAdded, false, [], Some(NewAddress)), out);
    r := Extend(start, r, If(!(has.emails <= had.emails), Change(EmailsAdded, false, [], Some(NewAddress))));
    PushIf(!(has.hidden <= had.hidden), Change(HiddenAdded, false, [], Some(HidesText)), out);
    r := Extend(start, r, If(!(has.hidden <= had.hidden), Change(HiddenAdded, false, [], Some(HidesText))));
  }

  method WalkContract(before: Json, after: Json, had: Evidence, has: Evidence, out: Collector)
    requires out.Valid() && out.all == []
    modifies out
    ensures out.Valid() && out.all == Summary(before, after, had, has)
  {
    WalkTopLevel(before, after, out);
    assert [] + TopLevel(before, after) == TopLevel(before, after);
    WalkEvidence(had, has, out);
  }

  datatype ContractSummary = ContractSummary(changes: seq<Change>, unlisted: nat, flagged: nat)

  /** The first changes are listed; the counts cover all of them. */
  method Summarize(before: Json, after: Json, had: Evidence, has: Evidence) returns (r: ContractSummary)
    ensures r.changes <= Summary(before, after, had, has) && |r.changes| == Min(50, |Summary(before, after, had, has)|)
    ensures |r.changes| + r.unlisted == |Summary(before, after, had, has)|
    ensures r.flagged == Flagged(Summary(before, after, had, has))
  {
    var out := new Collector();
    WalkContract(before, after, had, has, out);
    r := ContractSummary(out.listed, out.total - |out.listed|, out.flagged);
  }
}
