/** Flags are neither lost nor doubled: they match the reachable widenings of the input schema one to one, in order. */
module ContractCount {
  import opened Basics
  import opened JsonTree
  import opened ContractDiff
  import opened ContractFlags
  import opened ContractWalk

  /** A widening and the steps that lead to its place. */
  datatype Finding = Finding(hops: seq<Hop>, w: Widening)

  ghost predicate Found(p: Place, f: Finding) {
    Reach(p, f.hops).Some? && Widens(Reach(p, f.hops).value, f.w)
  }

  ghost function Size(p: Place): nat {
    OptHeight(p.before) + OptHeight(p.after)
  }

  function Lift(hop: Hop, fs: seq<Finding>): seq<Finding> {
    if fs == [] then [] else [Finding([hop] + fs[0].hops, fs[0].w)] + Lift(hop, fs[1..])
  }

  function Here(p: Place, w: Widening): seq<Finding> {
    if Widens(p, w) then [Finding([], w)] else []
  }

  // ---- the widenings, in the order they are met ----------------------------

  ghost function Findings(p: Place): seq<Finding>
    decreases Size(p), 3, 0
  {
    if p.before == p.after || !p.input then []
    else AtNames(p, Names(p)) + Wanted(InOrder(Required(p.after) - Required(p.before))) + AtKeys(p, Keys(p))
  }

  ghost function Below(p: Place, hop: Hop): seq<Finding>
    decreases Size(p), 0, 0
  {
    if Hopped(p, hop).None? then [] else HopIsLower(p, hop); Lift(hop, Findings(Hopped(p, hop).value))
  }

  ghost function AtName(p: Place, name: string): seq<Finding>
    decreases Size(p), 1, 0
  {
    Here(p, NewParameter(name)) + Below(p, Prop(name))
  }

  ghost function AtNames(p: Place, names: seq<string>): seq<Finding>
    decreases Size(p), 2, |names|
  {
    if names == [] then [] else AtName(p, names[0]) + AtNames(p, names[1..])
  }

  function Wanted(names: seq<string>): seq<Finding> {
    if names == [] then [] else [Finding([], NewRequirement(names[0]))] + Wanted(names[1..])
  }

  ghost function AtItems(p: Place, key: string, i: nat): seq<Finding>
    decreases Size(p), 1, |Items(Get(p.after, key))| - i
  {
    if i >= |Items(Get(p.after, key))| then [] else Below(p, Elem(key, i)) + AtItems(p, key, i + 1)
  }

  ghost function AtKey(p: Place, key: string): seq<Finding>
    decreases Size(p), 2, 0
  {
    Here(p, Opening(key)) + Below(p, Key(key)) + AtItems(p, key, 0)
  }

  ghost function AtKeys(p: Place, keys: seq<string>): seq<Finding>
    decreases Size(p), 2, 1 + |keys|
  {
    if keys == [] then [] else AtKey(p, keys[0]) + AtKeys(p, keys[1..])
  }

  // ---- reports -------------------------------------------------------------

  function Flags(cs: seq<Change>): seq<Change> {
    if cs == [] then [] else if cs[0].flag.Some? then [cs[0]] + Flags(cs[1..]) else Flags(cs[1..])
  }

  lemma {:induction false} FlagsAppend(a: seq<Change>, b: seq<Change>)
    ensures Flags(a + b) == Flags(a) + Flags(b)
  {
    if a == [] {
      assert a + b == b;
    } else {
      assert (a + b)[1..] == a[1..] + b;
      FlagsAppend(a[1..], b);
    }
  }

  function ReportOf(p: Place, f: Finding): Change {
    if Reach(p, f.hops).Some? then Report(Reach(p, f.hops).value, f.w) else Report(p, f.w)
  }

  function Reports(p: Place, fs: seq<Finding>): seq<Change> {
    if fs == [] then [] else [ReportOf(p, fs[0])] + Reports(p, fs[1..])
  }

  lemma {:induction false} ReportsAppend(p: Place, a: seq<Finding>, b: seq<Finding>)
    ensures Reports(p, a + b) == Reports(p, a) + Reports(p, b)
  {
    if a == [] {
      assert a + b == b;
    } else {
      assert (a + b)[1..] == a[1..] + b;
      ReportsAppend(p, a[1..], b);
    }
  }

  lemma ReachVia(p: Place, hop: Hop, hops: seq<Hop>)
    requires Hopped(p, hop).Some?
    ensures Reach(p, [hop] + hops) == Reach(Hopped(p, hop).value, hops)
  {
    assert ([hop] + hops)[1..] == hops;
  }

  /** What lies below a step is reported the same seen from above. */
  lemma {:induction false} ReportsLift(p: Place, hop: Hop, fs: seq<Finding>)
    requires Hopped(p, hop).Some? && forall f | f in fs :: Reach(Hopped(p, hop).value, f.hops).Some?
    ensures Reports(p, Lift(hop, fs)) == Reports(Hopped(p, hop).value, fs)
  {
    if fs != [] {
      assert fs[0] in fs && forall f | f in fs[1..] :: f in fs;
      ReachVia(p, hop, fs[0].hops);
      ReportsLift(p, hop, fs[1..]);
    }
  }

  // ---- each listed widening is real ----------------------------------------

  lemma {:induction false} LiftIn(hop: Hop, fs: seq<Finding>, f: Finding)
    ensures f in Lift(hop, fs) <==> f.hops != [] && f.hops[0] == hop && Finding(f.hops[1..], f.w) in fs
  {
    if fs != [] {
      LiftIn(hop, fs[1..], f);
      assert ([hop] + fs[0].hops)[1..] == fs[0].hops;
      assert f.hops != [] ==> f.hops == [f.hops[0]] + f.hops[1..];
    }
  }

  lemma {:induction false} BelowIn(p: Place, hop: Hop, f: Finding)
    ensures f in Below(p, hop)
       <==> Hopped(p, hop).Some? && f.hops != [] && f.hops[0] == hop && Found(Hopped(p, hop).value, Finding(f.hops[1..], f.w))
    decreases Size(p), 0, 0
  {
    if Hopped(p, hop).Some? {
      var q := Hopped(p, hop).value;
      HopIsLower(p, hop);
      LiftIn(hop, Findings(q), f);
      if f.hops != [] {
        FindingsExactly(q, Finding(f.hops[1..], f.w));
      }
    }
  }

  lemma {:induction false} AtNamesIn(p: Place, names: seq<string>, f: Finding)
    ensures f in AtNames(p, names) <==> exists n :: n in names && f in AtName(p, n)
    decreases |names|
  {
    if names != [] {
      AtNamesIn(p, names[1..], f);
      if f in AtNames(p, names[1..]) {
        var n :| n in names[1..] && f in AtName(p, n);
        assert n in names;
      } else if f in AtName(p, names[0]) {
        assert names[0] in names;
      }
      if n :| n in names && f in AtName(p, n) {
        assert n == names[0] || n in names[1..];
      }
    }
  }

  lemma {:induction false} AtKeysIn(p: Place, keys: seq<string>, f: Finding)
    ensures f in AtKeys(p, keys) <==> exists k :: k in keys && f in AtKey(p, k)
    decreases |keys|
  {
    if keys != [] {
      AtKeysIn(p, keys[1..], f);
      if f in AtKeys(p, keys[1..]) {
        var k :| k in keys[1..] && f in AtKey(p, k);
        assert k in keys;
      } else if f in AtKey(p, keys[0]) {
        assert keys[0] in keys;
      }
      if k :| k in keys && f in AtKey(p, k) {
        assert k == keys[0] || k in keys[1..];
      }
    }
  }

  lemma {:induction false} WantedIn(names: seq<string>, f: Finding)
    ensures f in Wanted(names) <==> f.hops == [] && f.w.NewRequirement? && f.w.name in names
  {
    if names != [] {
      WantedIn(names[1..], f);
      assert names == [names[0]] + names[1..];
    }
  }

  lemma {:induction false} AtItemsHas(p: Place, key: string, i: nat, j: nat, f: Finding)
    requires i <= j < |Items(Get(p.after, key))| && f in Below(p, Elem(key, j))
    ensures f in AtItems(p, key, i)
    decreases j - i
  {
    if i < j {
      AtItemsHas(p, key, i + 1, j, f);
    }
  }

  lemma {:induction false} AtItemsFrom(p: Place, key: string, i: nat, f: Finding) returns (j: nat)
    requires f in AtItems(p, key, i)
    ensures i <= j < |Items(Get(p.after, key))| && f in Below(p, Elem(key, j))
    decreases |Items(Get(p.after, key))| - i
  {
    if f in Below(p, Elem(key, i)) {
      j := i;
    } else {
      j := AtItemsFrom(p, key, i + 1, f);
    }
  }

  lemma AtItemsIn(p: Place, key: string, f: Finding)
    ensures f in AtItems(p, key, 0) <==> exists j: nat :: j < |Items(Get(p.after, key))| && f in Below(p, Elem(key, j))
  {
    if f in AtItems(p, key, 0) {
      var j := AtItemsFrom(p, key, 0, f);
    }
    if j: nat :| j < |Items(Get(p.after, key))| && f in Below(p, Elem(key, j)) {
      AtItemsHas(p, key, 0, j, f);
    }
  }

  /** Where both sides are equal nothing is widened, here or below. */
  lemma {:induction false} EqualHasNothing(p: Place, f: Finding)
    requires p.before == p.after
    ensures !Found(p, f)
    decreases |f.hops|
  {
    if f.hops != [] && Hopped(p, f.hops[0]).Some? {
      ReachVia(p, f.hops[0], f.hops[1..]);
      assert f.hops == [f.hops[0]] + f.hops[1..];
      EqualHasNothing(Hopped(p, f.hops[0]).value, Finding(f.hops[1..], f.w));
    }
  }

  /** The list holds exactly the reachable widenings. */
  lemma {:induction false} FindingsExactly(p: Place, f: Finding)
    ensures f in Findings(p) <==> Found(p, f)
    decreases Size(p), 1, 0
  {
    if p.before == p.after {
      EqualHasNothing(p, f);
    } else if !p.input {
      if Reach(p, f.hops).Some? {
        ReachKeepsSide(p, f.hops);
      }
    } else {
      var wanted := InOrder(Required(p.after) - Required(p.before));
      AtNamesIn(p, Names(p), f);
      WantedIn(wanted, f);
      AtKeysIn(p, Keys(p), f);
      if f.hops == [] {
        HereExactly(p, f);
      } else {
        BelowExactly(p, f);
      }
    }
  }

  lemma {:induction false} HereExactly(p: Place, f: Finding)
    requires f.hops == [] && p.input
    ensures (exists n :: n in Names(p) && f in AtName(p, n)) <==> f.w.NewParameter? && Widens(p, f.w)
    ensures (exists k :: k in Keys(p) && f in AtKey(p, k)) <==> f.w.Opening? && Widens(p, f.w)
    decreases Size(p), 0, 1
  {
    forall n ensures f in AtName(p, n) <==> f.w == NewParameter(n) && Widens(p, f.w) {
      BelowIn(p, Prop(n), f);
    }
    forall k ensures f in AtKey(p, k) <==> f.w == Opening(k) && Widens(p, f.w) {
      BelowIn(p, Key(k), f);
      AtItemsIn(p, k, f);
      forall j: nat ensures f !in Below(p, Elem(k, j)) {
        BelowIn(p, Elem(k, j), f);
      }
    }
    if f.w.NewParameter? && Widens(p, f.w) {
      assert f.w.name in Names(p) && f in AtName(p, f.w.name);
    }
    if f.w.Opening? && Widens(p, f.w) {
      assert f.w.key in Keys(p) && f in AtKey(p, f.w.key);
    }
  }

  lemma {:induction false} BelowExactly(p: Place, f: Finding)
    requires f.hops != [] && p.input
    ensures (exists n :: n in Names(p) && f in AtName(p, n)) || (exists k :: k in Keys(p) && f in AtKey(p, k)) <==> Found(p, f)
    decreases Size(p), 0, 1
  {
    var hop := f.hops[0];
    assert f.hops == [hop] + f.hops[1..];
    if Hopped(p, hop).Some? {
      ReachVia(p, hop, f.hops[1..]);
    }
    BelowIn(p, hop, f);
    forall n ensures f in AtName(p, n) <==> hop == Prop(n) && Found(p, f) {
      BelowIn(p, Prop(n), f);
    }
    forall k ensures f in AtKey(p, k) <==> (hop == Key(k) || (hop.Elem? && hop.key == k)) && Found(p, f) {
      BelowIn(p, Key(k), f);
      AtItemsIn(p, k, f);
      forall j: nat ensures f in Below(p, Elem(k, j)) <==> hop == Elem(k, j) && Found(p, f) {
        BelowIn(p, Elem(k, j), f);
      }
    }
    if Found(p, f) {
      match hop
      case Prop(n) => assert n in Names(p) && f in AtName(p, n);
      case Key(k) => assert k in Keys(p) && f in AtKey(p, k);
      case Elem(k, _) => assert k in Keys(p) && f in AtKey(p, k);
    }
  }

  // ---- no widening twice ---------------------------------------------------

  lemma DistinctBoth(a: seq<Finding>, b: seq<Finding>)
    requires Distinct(a) && Distinct(b) && forall f | f in a :: f !in b
    ensures Distinct(a + b)
  {
    assert forall i | 0 <= i < |a| :: a[i] in a;
    assert forall i | 0 <= i < |b| :: b[i] in b;
  }

  lemma {:induction false} LiftDistinct(hop: Hop, fs: seq<Finding>)
    requires Distinct(fs)
    ensures Distinct(Lift(hop, fs))
  {
    if fs != [] {
      var first := Finding([hop] + fs[0].hops, fs[0].w);
      LiftDistinct(hop, fs[1..]);
      LiftIn(hop, fs[1..], first);
      assert first.hops[1..] == fs[0].hops;
      assert fs[0] !in fs[1..];
      DistinctBoth([first], Lift(hop, fs[1..]));
    }
  }

  lemma {:induction false} BelowDistinct(p: Place, hop: Hop)
    ensures Distinct(Below(p, hop))
    decreases Size(p), 0, 0
  {
    if Hopped(p, hop).Some? {
      HopIsLower(p, hop);
      FindingsDistinct(Hopped(p, hop).value);
      LiftDistinct(hop, Findings(Hopped(p, hop).value));
    }
  }

  /** What is found at a name or a key says so: it names it, or begins with a step to it. */
  predicate Under(f: Finding, name: string) {
    if f.hops == [] then f.w == NewParameter(name) else f.hops[0] == Prop(name)
  }

  predicate UnderKey(f: Finding, key: string) {
    if f.hops == [] then f.w == Opening(key) else f.hops[0] == Key(key) || (f.hops[0].Elem? && f.hops[0].key == key)
  }

  lemma AtNameIsUnder(p: Place, name: string, f: Finding)
    requires f in AtName(p, name)
    ensures Under(f, name)
  {
    BelowIn(p, Prop(name), f);
  }

  lemma AtKeyIsUnder(p: Place, key: string, f: Finding)
    requires f in AtKey(p, key)
    ensures UnderKey(f, key)
  {
    BelowIn(p, Key(key), f);
    if f in AtItems(p, key, 0) {
      var j := AtItemsFrom(p, key, 0, f);
      BelowIn(p, Elem(key, j), f);
    }
  }

  lemma {:induction false} AtItemsDistinct(p: Place, key: string, i: nat)
    ensures Distinct(AtItems(p, key, i))
    decreases Size(p), 1, |Items(Get(p.after, key))| - i
  {
    if i < |Items(Get(p.after, key))| {
      BelowDistinct(p, Elem(key, i));
      AtItemsDistinct(p, key, i + 1);
      forall f | f in Below(p, Elem(key, i))
        ensures f !in AtItems(p, key, i + 1)
      {
        BelowIn(p, Elem(key, i), f);
        if f in AtItems(p, key, i + 1) {
          var j := AtItemsFrom(p, key, i + 1, f);
          BelowIn(p, Elem(key, j), f);
        }
      }
      DistinctBoth(Below(p, Elem(key, i)), AtItems(p, key, i + 1));
    }
  }

  lemma {:induction false} AtNameDistinct(p: Place, name: string)
    ensures Distinct(AtName(p, name))
    decreases Size(p), 1, 0
  {
    BelowDistinct(p, Prop(name));
    forall f | f in Here(p, NewParameter(name))
      ensures f !in Below(p, Prop(name))
    {
      BelowIn(p, Prop(name), f);
    }
    DistinctBoth(Here(p, NewParameter(name)), Below(p, Prop(name)));
  }

  lemma {:induction false} AtKeyDistinct(p: Place, key: string)
    ensures Distinct(AtKey(p, key))
    decreases Size(p), 2, 0
  {
    var here, keyed, items := Here(p, Opening(key)), Below(p, Key(key)), AtItems(p, key, 0);
    BelowDistinct(p, Key(key));
    AtItemsDistinct(p, key, 0);
    forall f
      ensures f in keyed ==> f !in here && f !in items
      ensures f in items ==> f !in here
    {
      BelowIn(p, Key(key), f);
      if f in items {
        var j := AtItemsFrom(p, key, 0, f);
        BelowIn(p, Elem(key, j), f);
      }
    }
    DistinctBoth(here, keyed);
    DistinctBoth(here + keyed, items);
  }

  lemma {:induction false} AtNamesDistinct(p: Place, names: seq<string>)
    requires Distinct(names)
    ensures Distinct(AtNames(p, names))
    decreases Size(p), 2, |names|
  {
    if names != [] {
      AtNameDistinct(p, names[0]);
      AtNamesDistinct(p, names[1..]);
      forall f | f in AtName(p, names[0])
        ensures f !in AtNames(p, names[1..])
      {
        AtNameIsUnder(p, names[0], f);
        AtNamesIn(p, names[1..], f);
        if n :| n in names[1..] && f in AtName(p, n) {
          AtNameIsUnder(p, n, f);
        }
      }
      DistinctBoth(AtName(p, names[0]), AtNames(p, names[1..]));
    }
  }

  lemma {:induction false} AtKeysDistinct(p: Place, keys: seq<string>)
    requires Distinct(keys)
    ensures Distinct(AtKeys(p, keys))
    decreases Size(p), 2, 1 + |keys|
  {
    if keys != [] {
      AtKeyDistinct(p, keys[0]);
      AtKeysDistinct(p, keys[1..]);
      forall f | f in AtKey(p, keys[0])
        ensures f !in AtKeys(p, keys[1..])
      {
        AtKeyIsUnder(p, keys[0], f);
        AtKeysIn(p, keys[1..], f);
        if k :| k in keys[1..] && f in AtKey(p, k) {
          AtKeyIsUnder(p, k, f);
        }
      }
      DistinctBoth(AtKey(p, keys[0]), AtKeys(p, keys[1..]));
    }
  }

  lemma {:induction false} WantedDistinct(names: seq<string>)
    requires Distinct(names)
    ensures Distinct(Wanted(names))
  {
    if names != [] {
      WantedDistinct(names[1..]);
      WantedIn(names[1..], Finding([], NewRequirement(names[0])));
      DistinctBoth([Finding([], NewRequirement(names[0]))], Wanted(names[1..]));
    }
  }

  lemma {:induction false} FindingsDistinct(p: Place)
    ensures Distinct(Findings(p))
    decreases Size(p), 3, 0
  {
    if p.before != p.after && p.input {
      var wanted := InOrder(Required(p.after) - Required(p.before));
      InOrderIsSorted(Properties(p.before).Keys + Properties(p.after).Keys);
      InOrderIsSorted(Required(p.after) - Required(p.before));
      InOrderIsSorted(OtherKeys(Fields(p.before), Fields(p.after), p.path));
      AtNamesDistinct(p, Names(p));
      WantedDistinct(wanted);
      AtKeysDistinct(p, Keys(p));
      forall f
        ensures f in AtNames(p, Names(p)) ==> f !in Wanted(wanted) && f !in AtKeys(p, Keys(p))
        ensures f in Wanted(wanted) ==> f !in AtKeys(p, Keys(p))
      {
        PartsDiffer(p, Names(p), wanted, Keys(p), f);
      }
      DistinctBoth(AtNames(p, Names(p)), Wanted(wanted));
      DistinctBoth(AtNames(p, Names(p)) + Wanted(wanted), AtKeys(p, Keys(p)));
    }
  }

  lemma PartsDiffer(p: Place, names: seq<string>, wanted: seq<string>, keys: seq<string>, f: Finding)
    ensures f in AtNames(p, names) ==> f !in Wanted(wanted) && f !in AtKeys(p, keys)
    ensures f in Wanted(wanted) ==> f !in AtKeys(p, keys)
  {
    AtNamesIn(p, names, f);
    WantedIn(wanted, f);
    AtKeysIn(p, keys, f);
    if n :| n in names && f in AtName(p, n) {
      AtNameIsUnder(p, n, f);
    }
    if k :| k in keys && f in AtKey(p, k) {
      AtKeyIsUnder(p, k, f);
    }
  }

  // ---- the flags are their reports -----------------------------------------

  lemma {:induction false} Unflagged(cs: seq<Change>)
    requires forall c | c in cs :: c.flag.None?
    ensures Flags(cs) == []
  {
    if cs != [] {
      assert cs[0] in cs && forall c | c in cs[1..] :: c in cs;
      Unflagged(cs[1..]);
    }
  }

  lemma PropertyFlags(x: Json, y: Json, path: Path, input: bool)
    ensures Flags(Property(x, y, path, input)) == Flags(Schema(Some(x), Some(y), path, input))
  {
    var own, schema := OwnChanges(x, y, path, input), Schema(Some(x), Some(y), path, input);
    if !x.Obj? && !y.Obj? {
      ScalarsAreSilent(Some(x), Some(y), path, input);
    }
    forall c | c in own
      ensures c.flag.None?
    {
      OwnChangesUnflagged(x, y, path, input, c);
    }
    Unflagged(own);
    FlagsAppend(own, schema);
    Unflagged([Change(DefinitionChanged, input, path, None)]);
    assert own + [] == own && [] + Flags(schema) == Flags(schema);
  }

  lemma NestedFlags(was: Option<Json>, now: Option<Json>, path: Path, input: bool)
    ensures Flags(Nested(was, now, path, input)) == if now.Some? then Flags(Schema(was, now, path, input)) else []
  {
    if was.Some? && now.Some? {
      PropertyFlags(was.value, now.value, path, input);
    } else if now.Some? {
      FlagsAppend([Change(Added, input, path, None)], Schema(None, now, path, input));
      Unflagged([Change(Added, input, path, None)]);
      assert [] + Flags(Schema(None, now, path, input)) == Flags(Schema(None, now, path, input));
    } else if was.Some? {
      Unflagged([Change(Removed, input, path, None)]);
    }
  }

  lemma {:induction false} BelowReports(p: Place, hop: Hop)
    requires Hopped(p, hop).Some?
    ensures Reports(p, Below(p, hop)) == Flags(Walk(Hopped(p, hop).value))
    decreases Size(p), 0, 0
  {
    var q := Hopped(p, hop).value;
    HopIsLower(p, hop);
    FlagsAreReports(q);
    forall f | f in Findings(q)
      ensures Reach(q, f.hops).Some?
    {
      FindingsExactly(q, f);
    }
    ReportsLift(p, hop, Findings(q));
  }

  lemma {:induction false} NameFlags(p: Place, name: string)
    requires p.input
    ensures Flags(ByProperty(p, name)) == Reports(p, AtName(p, name))
    decreases Size(p), 1, 0
  {
    var was, now := Lookup(Properties(p.before), name), Lookup(Properties(p.after), name);
    var at := p.path + [Name(name)];
    ReportsAppend(p, Here(p, NewParameter(name)), Below(p, Prop(name)));
    if now.Some? {
      BelowReports(p, Prop(name));
      if was.Some? {
        PropertyFlags(was.value, now.value, at, true);
        assert [] + Flags(Schema(was, now, at, true)) == Flags(Schema(was, now, at, true));
      } else {
        FlagsAppend([Report(p, NewParameter(name))], Schema(None, now, at, true));
      }
    } else if was.Some? {
      Unflagged([Change(Removed, true, at, None)]);
    }
  }

  lemma {:induction false} NamesFlags(p: Place, names: seq<string>)
    requires p.input
    ensures Flags(PropertyChanges(Properties(p.before), Properties(p.after), names, p.path, true)) == Reports(p, AtNames(p, names))
    decreases Size(p), 2, |names|
  {
    if names != [] {
      NameFlags(p, names[0]);
      NamesFlags(p, names[1..]);
      FlagsAppend(ByProperty(p, names[0]),
                  PropertyChanges(Properties(p.before), Properties(p.after), names[1..], p.path, true));
      ReportsAppend(p, AtName(p, names[0]), AtNames(p, names[1..]));
    }
  }

  lemma {:induction false} WantedFlags(p: Place, names: seq<string>)
    ensures Flags(Each(names, NowRequired, p.path, true, Some(MustSupply))) == Reports(p, Wanted(names))
  {
    if names != [] {
      WantedFlags(p, names[1..]);
      var each := Each(names, NowRequired, p.path, true, Some(MustSupply));
      assert each[1..] == Each(names[1..], NowRequired, p.path, true, Some(MustSupply));
    }
  }

  lemma RequirementFlags(p: Place)
    requires p.input
    ensures Flags(RequirementChanges(Required(p.before), Required(p.after), p.path, true))
         == Reports(p, Wanted(InOrder(Required(p.after) - Required(p.before))))
  {
    var up := InOrder(Required(p.after) - Required(p.before));
    var down := Each(InOrder(Required(p.before) - Required(p.after)), NoLongerRequired, p.path, true, None);
    WantedFlags(p, up);
    Unflagged(down);
    FlagsAppend(Each(up, NowRequired, p.path, true, Some(MustSupply)), down);
    assert Flags(Each(up, NowRequired, p.path, true, Some(MustSupply))) + [] == Reports(p, Wanted(up));
  }

  predicate ListWalked(p: Place, key: string) {
    p.input && Descends(p, key) && !IsObj(Get(p.before, key)) && !Opens(Get(p.before, key), Get(p.after, key), key)
  }

  lemma {:induction false} OneItemFlags(p: Place, key: string, i: nat)
    requires ListWalked(p, key)
    ensures var was, now := Items(Get(p.before, key)), Items(Get(p.after, key));
      Flags(ByElement(was, now, key, i, p.path, true)) == if i < |now| then Reports(p, Below(p, Elem(key, i))) else []
    decreases Size(p), 1, 0
  {
    var was, now := Items(Get(p.before, key)), Items(Get(p.after, key));
    NestedFlags(ItemAt(was, i), ItemAt(now, i), p.path + [Item(key, i)], true);
    if i < |now| {
      BelowReports(p, Elem(key, i));
    }
  }

  lemma {:induction false} ItemFlags(p: Place, key: string, i: nat)
    requires ListWalked(p, key)
    ensures Flags(Elements(Items(Get(p.before, key)), Items(Get(p.after, key)), key, i, p.path, true))
         == Reports(p, AtItems(p, key, i))
    decreases Size(p), 1, 1 + Max(|Items(Get(p.before, key))|, |Items(Get(p.after, key))|) - i
  {
    var was, now := Items(Get(p.before, key)), Items(Get(p.after, key));
    if i < Max(|was|, |now|) {
      ItemFlags(p, key, i + 1);
      OneItemFlags(p, key, i);
      FlagsAppend(ByElement(was, now, key, i, p.path, true), Elements(was, now, key, i + 1, p.path, true));
      ReportsAppend(p, Below(p, Elem(key, i)), AtItems(p, key, i + 1));
    }
  }

  /** Below equal values, or values that are not objects, nothing is widened. */
  lemma NothingBelow(p: Place, hop: Hop)
    requires Hopped(p, hop).Some? ==>
      var q := Hopped(p, hop).value; q.before == q.after || (!IsObj(q.before) && !IsObj(q.after))
    ensures Below(p, hop) == []
  {
    if Hopped(p, hop).Some? {
      var q := Hopped(p, hop).value;
      if Findings(q) != [] {
        var f := Findings(q)[0];
        FindingsExactly(q, f);
        NothingFound(q, f);
      }
    }
  }

  lemma {:induction false} NothingFound(p: Place, f: Finding)
    requires p.before == p.after || (!IsObj(p.before) && !IsObj(p.after))
    ensures !Found(p, f)
  {
    if p.before == p.after {
      EqualHasNothing(p, f);
    } else if f.hops != [] {
      assert Hopped(p, f.hops[0]).None?;
    }
  }

  lemma {:induction false} NoItems(p: Place, key: string, i: nat)
    requires var was, now := Get(p.before, key), Get(p.after, key);
      || was == now || IsObj(was) || IsObj(now) || Literal(key) || (p.input && Opens(was, now, key))
      || (!HoldsObjects(was) && !HoldsObjects(now))
    ensures AtItems(p, key, i) == []
    decreases |Items(Get(p.after, key))| - i
  {
    if i < |Items(Get(p.after, key))| {
      NothingBelow(p, Elem(key, i));
      NoItems(p, key, i + 1);
    }
  }

  lemma {:induction false} OpeningFlags(p: Place, key: string)
    requires p.input && key !in Reported(p.path) && Opens(Get(p.before, key), Get(p.after, key), key)
    ensures Flags(ByKeyword(p, key)) == [Report(p, Opening(key))] + Reports(p, Below(p, Key(key)))
    decreases Size(p), 1, 0
  {
    var was, now, at := Get(p.before, key), Get(p.after, key), p.path + [Name(key)];
    var first := [Report(p, Opening(key))];
    if IsObj(now) {
      BelowReports(p, Key(key));
      ScalarReadsAsAbsent(was, now, at, true);
      FlagsAppend(first, Schema(None, now, at, true));
    } else {
      NothingBelow(p, Key(key));
      assert first + [] == first;
    }
  }

  predicate UnderSchema(p: Place, key: string) {
    !Literal(key) && (IsObj(Get(p.before, key)) || IsObj(Get(p.after, key)))
  }

  lemma {:induction false} SchemaFlags(p: Place, key: string)
    requires p.input && key !in Reported(p.path) && !Opens(Get(p.before, key), Get(p.after, key), key)
    requires Get(p.before, key) != Get(p.after, key) && UnderSchema(p, key)
    ensures Flags(ByKeyword(p, key)) == Reports(p, Below(p, Key(key)))
    decreases Size(p), 1, 0
  {
    var was, now, at := Get(p.before, key), Get(p.after, key), p.path + [Name(key)];
    assert ByKeyword(p, key) == Nested(was, now, at, true);
    NestedFlags(was, now, at, true);
    if now.Some? {
      BelowReports(p, Key(key));
    }
  }

  lemma {:induction false} ListFlags(p: Place, key: string)
    requires p.input && key !in Reported(p.path) && !Opens(Get(p.before, key), Get(p.after, key), key)
    requires Get(p.before, key) == Get(p.after, key) || !UnderSchema(p, key)
    ensures Flags(ByKeyword(p, key)) == Reports(p, AtItems(p, key, 0))
    decreases Size(p), 2, 0
  {
    var was, now := Get(p.before, key), Get(p.after, key);
    if was != now && !Literal(key) && (HoldsObjects(was) || HoldsObjects(now)) {
      assert ByKeyword(p, key) == Elements(Items(was), Items(now), key, 0, p.path, true);
      ItemFlags(p, key, 0);
    } else {
      NoItems(p, key, 0);
      Unflagged(ByKeyword(p, key));
    }
  }

  /** The three sources at a keyword never mix: an opening, a schema, or a list of them. */
  lemma {:induction false} KeyFlags(p: Place, key: string)
    requires p.input && key !in Reported(p.path)
    ensures Flags(ByKeyword(p, key)) == Reports(p, AtKey(p, key))
    decreases Size(p), 2, 1
  {
    var here, below, items := Here(p, Opening(key)), Below(p, Key(key)), AtItems(p, key, 0);
    ReportsAppend(p, here, below);
    ReportsAppend(p, here + below, items);
    if Opens(Get(p.before, key), Get(p.after, key), key) {
      OpeningFlags(p, key);
      NoItems(p, key, 0);
    } else if Get(p.before, key) != Get(p.after, key) && UnderSchema(p, key) {
      SchemaFlags(p, key);
      NoItems(p, key, 0);
    } else {
      ListFlags(p, key);
      NothingBelow(p, Key(key));
    }
  }

  lemma {:induction false} KeysFlags(p: Place, keys: seq<string>)
    requires p.input && forall k | k in keys :: k !in Reported(p.path)
    ensures Flags(KeywordChanges(Fields(p.before), Fields(p.after), keys, p.path, true)) == Reports(p, AtKeys(p, keys))
    decreases Size(p), 2, 1 + |keys|
  {
    if keys != [] {
      assert keys[0] in keys && forall k | k in keys[1..] :: k in keys;
      KeyFlags(p, keys[0]);
      KeysFlags(p, keys[1..]);
      FlagsAppend(ByKeyword(p, keys[0]), KeywordChanges(Fields(p.before), Fields(p.after), keys[1..], p.path, true));
      ReportsAppend(p, AtKey(p, keys[0]), AtKeys(p, keys[1..]));
    }
  }

  /** The flagged changes of a walk are, in order, the reports of the reachable widenings. */
  lemma {:induction false} FlagsAreReports(p: Place)
    ensures Flags(Walk(p)) == Reports(p, Findings(p))
    decreases Size(p), 3, 0
  {
    if !p.input {
      forall c | c in Walk(p)
        ensures c.flag.None?
      {
        OutputIsNeverFlagged(p, c);
      }
      Unflagged(Walk(p));
    } else if p.before != p.after {
      var names := PropertyChanges(Properties(p.before), Properties(p.after), Names(p), p.path, true);
      var needs := RequirementChanges(Required(p.before), Required(p.after), p.path, true);
      var keys := KeywordChanges(Fields(p.before), Fields(p.after), Keys(p), p.path, true);
      var wanted := Wanted(InOrder(Required(p.after) - Required(p.before)));
      NamesFlags(p, Names(p));
      RequirementFlags(p);
      KeysFlags(p, Keys(p));
      FlagsAppend(names, needs);
      FlagsAppend(names + needs, keys);
      ReportsAppend(p, AtNames(p, Names(p)), wanted);
      ReportsAppend(p, AtNames(p, Names(p)) + wanted, AtKeys(p, Keys(p)));
    }
  }

  lemma {:induction false} ReportsLength(p: Place, fs: seq<Finding>)
    ensures |Reports(p, fs)| == |fs|
  {
    if fs != [] {
      ReportsLength(p, fs[1..]);
    }
  }

  /**
   A walk carries exactly as many flags as there are reachable widenings: `Findings` lists each
   of those once and nothing else, and the flagged changes are their reports in that order.
   */
  lemma FlagsCountWidenings(p: Place)
    ensures Distinct(Findings(p)) && forall f :: f in Findings(p) <==> Found(p, f)
    ensures Flags(Walk(p)) == Reports(p, Findings(p)) && |Flags(Walk(p))| == |Findings(p)|
  {
    FindingsDistinct(p);
    forall f
      ensures f in Findings(p) <==> Found(p, f)
    {
      FindingsExactly(p, f);
    }
    FlagsAreReports(p);
    ReportsLength(p, Findings(p));
  }

  // ---- the whole contract --------------------------------------------------

  lemma {:induction false} FlaggedCounts(cs: seq<Change>)
    ensures Flagged(cs) == |Flags(cs)|
  {
    if cs != [] {
      FlaggedCounts(cs[1..]);
    }
  }

  ghost function Widened(before: map<string, Json>, after: map<string, Json>, keys: set<string>): set<string> {
    set k | k in keys && HintWidens(k, Lookup(before, k), Lookup(after, k))
  }

  ghost function HintChange(before: map<string, Json>, after: map<string, Json>, key: string): seq<Change> {
    var was, now := Lookup(before, key), Lookup(after, key);
    If(was != now, Change(AnnotationChanged(key), false, [], HintFlag(key, was, now)))
  }

  lemma HintCounted(before: map<string, Json>, after: map<string, Json>, key: string)
    ensures Flagged(HintChange(before, after, key)) == if HintWidens(key, Lookup(before, key), Lookup(after, key)) then 1 else 0
  {
    assert HintFlag(key, Lookup(before, key), Lookup(after, key)).Some? <==> HintWidens(key, Lookup(before, key), Lookup(after, key));
  }

  lemma WidenedMore(before: map<string, Json>, after: map<string, Json>, keys: set<string>, key: string)
    requires key !in keys
    ensures |Widened(before, after, keys + {key})|
         == |Widened(before, after, keys)| + if HintWidens(key, Lookup(before, key), Lookup(after, key)) then 1 else 0
  {
    var more, rest := Widened(before, after, keys + {key}), Widened(before, after, keys);
    if HintWidens(key, Lookup(before, key), Lookup(after, key)) {
      assert more == rest + {key};
    } else {
      assert more == rest;
    }
  }

  lemma {:induction false} HintsCounted(before: map<string, Json>, after: map<string, Json>, keys: seq<string>, all: set<string>)
    requires Distinct(keys) && forall k :: k in all <==> k in keys
    ensures Flagged(AnnotationChanges(before, after, keys)) == |Widened(before, after, all)|
    decreases |keys|
  {
    if keys == [] {
      assert Widened(before, after, all) == {};
    } else {
      var first, rest := keys[0], keys[1..];
      assert keys == [first] + rest && first !in rest;
      HintsCounted(before, after, rest, all - {first});
      FlaggedAppend(HintChange(before, after, first), AnnotationChanges(before, after, rest));
      HintCounted(before, after, first);
      WidenedMore(before, after, all - {first}, first);
      assert all - {first} + {first} == all;
    }
  }

  lemma {:induction false} FieldsCountNothing(before: map<string, Json>, after: map<string, Json>, keys: seq<string>)
    ensures Flagged(FieldChanges(before, after, keys)) == 0 && Flagged(KeyedChanges(before, after, keys)) == 0
  {
    forall c | c in FieldChanges(before, after, keys) || c in KeyedChanges(before, after, keys)
      ensures c.flag.None?
    {
      FieldsUnflagged(before, after, keys, c);
    }
    Unflagged(FieldChanges(before, after, keys));
    Unflagged(KeyedChanges(before, after, keys));
    FlaggedCounts(FieldChanges(before, after, keys));
    FlaggedCounts(KeyedChanges(before, after, keys));
  }

  lemma WalkCounts(p: Place)
    ensures Flagged(Walk(p)) == |Findings(p)|
  {
    FlagsCountWidenings(p);
    FlaggedCounts(Walk(p));
  }

  ghost function OutputPlace(before: Json, after: Json): Place {
    Place(Get(Some(before), "outputSchema"), Get(Some(after), "outputSchema"), [], false)
  }

  lemma SixCounts(a: seq<Change>, b: seq<Change>, c: seq<Change>, d: seq<Change>, e: seq<Change>, f: seq<Change>)
    ensures Flagged(a + b + c + d + e + f) == Flagged(a) + Flagged(b) + Flagged(c) + Flagged(d) + Flagged(e) + Flagged(f)
  {
    FlaggedAppend(a, b);
    FlaggedAppend(a + b, c);
    FlaggedAppend(a + b + c, d);
    FlaggedAppend(a + b + c + d, e);
    FlaggedAppend(a + b + c + d + e, f);
  }

  lemma NotesCount(before: Json, after: Json)
    ensures var keys := Notes(before).Keys + Notes(after).Keys;
      Flagged(AnnotationChanges(Notes(before), Notes(after), InOrder(keys))) == |Widened(Notes(before), Notes(after), keys)|
  {
    var keys := Notes(before).Keys + Notes(after).Keys;
    InOrderIsSorted(keys);
    HintsCounted(Notes(before), Notes(after), InOrder(keys), keys);
  }

  lemma OutputCounts(before: Json, after: Json)
    ensures Flagged(Walk(OutputPlace(before, after))) == 0
  {
    WalkCounts(OutputPlace(before, after));
  }

  lemma TopLevelCounts(before: Json, after: Json)
    ensures Flagged(TopLevel(before, after))
         == |Findings(InputPlace(before, after))| + |Widened(Notes(before), Notes(after), Notes(before).Keys + Notes(after).Keys)|
  {
    var a, b := Fields(Some(before)), Fields(Some(after));
    var m, n := Fields(Lookup(a, "_meta")), Fields(Lookup(b, "_meta"));
    FieldsCountNothing(a, b, ["title", "description"]);
    FieldsCountNothing(m, n, InOrder(m.Keys + n.Keys));
    FieldsCountNothing(a, b, InOrder(a.Keys + b.Keys - Known()));
    WalkCounts(InputPlace(before, after));
    OutputCounts(before, after);
    NotesCount(before, after);
    SixCounts(FieldChanges(a, b, ["title", "description"]), Walk(InputPlace(before, after)), Walk(OutputPlace(before, after)),
              AnnotationChanges(Notes(before), Notes(after), InOrder(Notes(before).Keys + Notes(after).Keys)),
              KeyedChanges(m, n, InOrder(m.Keys + n.Keys)), FieldChanges(a, b, InOrder(a.Keys + b.Keys - Known())));
  }

  /** The flag count of a summary: reachable widenings of the input, widened hints, and kinds of new evidence. */
  lemma SummaryFlagCount(before: Json, after: Json, had: Evidence, has: Evidence)
    ensures Flagged(Summary(before, after, had, has))
         == |Findings(InputPlace(before, after))|
            + |Widened(Notes(before), Notes(after), Notes(before).Keys + Notes(after).Keys)|
            + |EvidenceChanges(had, has)|
  {
    TopLevelCounts(before, after);
    FlaggedAppend(TopLevel(before, after), EvidenceChanges(had, has));
    EvidenceCounts(had, has);
  }

  lemma EvidenceCounts(had: Evidence, has: Evidence)
    ensures Flagged(EvidenceChanges(had, has)) == |EvidenceChanges(had, has)|
  {
    AllFlagged(EvidenceChanges(had, has));
  }

  lemma {:induction false} AllFlagged(cs: seq<Change>)
    requires forall c | c in cs :: c.flag.Some?
    ensures Flagged(cs) == |cs|
  {
    if cs != [] {
      assert cs[0] in cs && forall c | c in cs[1..] :: c in cs;
      AllFlagged(cs[1..]);
    }
  }
}
