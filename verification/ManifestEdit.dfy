/** Folding reviewed tool approvals into the shared manifest set: everything selected, nothing else, or nothing at all. */
module ManifestEdit {
  import opened Basics

  datatype ApiError = BadRequest | Forbidden | TooLarge | Unavailable | Conflict | NotFound | Internal

  datatype Tool = Tool(name: string, hash: Option<string>, risk: nat)
  datatype Manifest = Manifest(annotated: bool, tools: seq<Tool>)
  type Manifests = map<string, Manifest>

  datatype Target = Target(server: string, tool: string, observedHash: string, manifestHash: string)

  /** A prepared approval to fold in; `risk` is present when the tool is classified for the first time. */
  datatype Edit = Edit(target: Target, risk: Option<nat>)

  /** A tool of one server. */
  type Slot = (string, string)

  function SlotOf(e: Edit): Slot {
    (e.target.server, e.target.tool)
  }

  predicate DistinctSlots(edits: seq<Edit>) {
    forall i, j | 0 <= i < j < |edits| :: SlotOf(edits[i]) != SlotOf(edits[j])
  }

  function First(tools: seq<Tool>, name: string): (r: Option<nat>)
    ensures r.Some? ==> r.value < |tools| && tools[r.value].name == name
    ensures r.Some? ==> forall i | 0 <= i < r.value :: tools[i].name != name
    ensures r.None? ==> forall i | 0 <= i < |tools| :: tools[i].name != name
  {
    if tools == [] then None
    else if tools[0].name == name then Some(0)
    else match First(tools[1..], name) case None => None case Some(i) => Some(i + 1)
  }

  /** One approval against the set as it stands. */
  function Apply(set_: Manifests, base: string, e: Edit): Result<Manifests, ApiError> {
    if e.target.manifestHash != base then Err(Conflict)
    else if e.target.server !in set_ then Err(NotFound)
    else
      var m := set_[e.target.server];
      if !m.annotated then Err(Conflict)
      else match (First(m.tools, e.target.tool), e.risk)
        case (Some(i), None) =>
          Ok(set_[e.target.server := m.(tools := m.tools[i := m.tools[i].(hash := Some(e.target.observedHash))])])
        case (None, Some(risk)) =>
          Ok(set_[e.target.server := m.(tools := m.tools + [Tool(e.target.tool, Some(e.target.observedHash), risk)])])
        case (_, _) => Err(Conflict)
  }

  function ApplyAll(set_: Manifests, base: string, edits: seq<Edit>): Result<Manifests, ApiError>
    decreases |edits|
  {
    if edits == [] then Ok(set_)
    else match Apply(set_, base, edits[0]) case Err(e) => Err(e) case Ok(next) => ApplyAll(next, base, edits[1..])
  }

  // ---- what an edit changes ------------------------------------------------

  /** The set already holds the reviewed hash. */
  predicate Agrees(set_: Manifests, e: Edit) {
    && e.target.server in set_
    && var tools := set_[e.target.server].tools;
       First(tools, e.target.tool).Some? && tools[First(tools, e.target.tool).value].hash == Some(e.target.observedHash)
  }

  /** Only the named slots of this server differ: entries keep their places and new ones come last. */
  predicate FramedServer(server: string, a: Manifest, b: Manifest, slots: set<Slot>) {
    && a.annotated == b.annotated && |a.tools| <= |b.tools|
    && (forall i | 0 <= i < |a.tools| :: b.tools[i].name == a.tools[i].name)
    && (forall i | 0 <= i < |a.tools| && (server, a.tools[i].name) !in slots :: b.tools[i] == a.tools[i])
    && (forall i | |a.tools| <= i < |b.tools| :: (server, b.tools[i].name) in slots)
  }

  ghost predicate Framed(a: Manifests, b: Manifests, slots: set<Slot>) {
    a.Keys == b.Keys && forall s | s in a :: FramedServer(s, a[s], b[s], slots)
  }

  function Slots(edits: seq<Edit>): set<Slot> {
    set i | 0 <= i < |edits| :: SlotOf(edits[i])
  }

  lemma FirstIs(tools: seq<Tool>, name: string, i: nat)
    requires i < |tools| && tools[i].name == name && forall j | 0 <= j < i :: tools[j].name != name
    ensures First(tools, name) == Some(i)
  {
  }

  lemma ApplyFrames(a: Manifests, base: string, e: Edit)
    requires Apply(a, base, e).Ok?
    ensures Framed(a, Apply(a, base, e).value, {SlotOf(e)}) && Agrees(Apply(a, base, e).value, e)
  {
    var server, m := e.target.server, a[e.target.server];
    var b := Apply(a, base, e).value;
    var found := First(m.tools, e.target.tool);
    FirstIs(b[server].tools, e.target.tool, if found.Some? then found.value else |m.tools|);
  }

  lemma FramesCompose(a: Manifests, b: Manifests, c: Manifests, s: set<Slot>, t: set<Slot>)
    requires Framed(a, b, s) && Framed(b, c, t)
    ensures Framed(a, c, s + t)
  {
  }

  /** An edit of another slot neither helps nor hinders this one. */
  lemma FrameSparesOthers(a: Manifests, b: Manifests, slots: set<Slot>, base: string, e: Edit)
    requires Framed(a, b, slots) && SlotOf(e) !in slots
    ensures Agrees(a, e) == Agrees(b, e)
    ensures Apply(a, base, e).Err? == Apply(b, base, e).Err?
    ensures Apply(a, base, e).Err? ==> Apply(a, base, e).error == Apply(b, base, e).error
  {
  }

  lemma {:induction false} ApplyAllFrames(a: Manifests, base: string, edits: seq<Edit>)
    requires DistinctSlots(edits) && ApplyAll(a, base, edits).Ok?
    ensures Framed(a, ApplyAll(a, base, edits).value, Slots(edits))
    decreases |edits|
  {
    if edits == [] {
      assert forall s | s in a :: FramedServer(s, a[s], a[s], {});
    } else {
      var b := Apply(a, base, edits[0]).value;
      ApplyFrames(a, base, edits[0]);
      ApplyAllFrames(b, base, edits[1..]);
      FramesCompose(a, b, ApplyAll(b, base, edits[1..]).value, {SlotOf(edits[0])}, Slots(edits[1..]));
      SlotsSplit(edits);
    }
  }

  lemma {:induction false} ApplyAllAgrees(a: Manifests, base: string, edits: seq<Edit>, i: nat)
    requires DistinctSlots(edits) && ApplyAll(a, base, edits).Ok? && i < |edits|
    ensures Agrees(ApplyAll(a, base, edits).value, edits[i])
    decreases |edits|
  {
    var b, rest := Apply(a, base, edits[0]).value, edits[1..];
    if i > 0 {
      ApplyAllAgrees(b, base, rest, i - 1);
      assert rest[i - 1] == edits[i];
    } else {
      ApplyFrames(a, base, edits[0]);
      ApplyAllFrames(b, base, rest);
      SlotsSplit(edits);
      FrameSparesOthers(b, ApplyAll(b, base, rest).value, Slots(rest), base, edits[0]);
    }
  }

  // ---- exactly what a selection does ---------------------------------------

  /** The entries a selection adds to a server, in selection order. */
  function NewTools(edits: seq<Edit>, server: string): seq<Tool> {
    if edits == [] then []
    else if edits[0].target.server == server && edits[0].risk.Some?
    then [Tool(edits[0].target.tool, Some(edits[0].target.observedHash), edits[0].risk.value)] + NewTools(edits[1..], server)
    else NewTools(edits[1..], server)
  }

  /** `e` gives entry `i` a new hash: it is the first of its name, and already classified. */
  predicate Rehashes(e: Edit, server: string, tools: seq<Tool>, i: nat)
    requires i < |tools|
  {
    SlotOf(e) == (server, tools[i].name) && e.risk.None? && First(tools, tools[i].name) == Some(i)
  }

  function HashFor(edits: seq<Edit>, server: string, tools: seq<Tool>, i: nat): Option<string>
    requires i < |tools|
  {
    if edits == [] then None
    else if Rehashes(edits[0], server, tools, i) then Some(edits[0].target.observedHash)
    else HashFor(edits[1..], server, tools, i)
  }

  function Rehashed(t: Tool, hash: Option<string>): Tool {
    if hash.Some? then t.(hash := hash) else t
  }

  /** Old entries in place with at most their hash replaced, then the new entries and no others. */
  predicate ExactServer(server: string, a: Manifest, b: Manifest, edits: seq<Edit>) {
    && b.annotated == a.annotated
    && |b.tools| == |a.tools| + |NewTools(edits, server)|
    && (forall i | 0 <= i < |a.tools| :: b.tools[i] == Rehashed(a.tools[i], HashFor(edits, server, a.tools, i)))
    && b.tools[|a.tools|..] == NewTools(edits, server)
  }

  lemma ApplyIsExact(a: Manifests, base: string, e: Edit, server: string)
    requires Apply(a, base, e).Ok? && server in a
    ensures var b := Apply(a, base, e).value; b.Keys == a.Keys && ExactServer(server, a[server], b[server], [e])
  {
    assert [e][1..] == [];
    var was := a[server].tools;
    forall i | 0 <= i < |was|
      ensures HashFor([e], server, was, i) == if Rehashes(e, server, was, i) then Some(e.target.observedHash) else None
    {
    }
  }

  /** Entries added at the end do not change which old entry is the first of its name. */
  lemma FirstOfLonger(a: seq<Tool>, b: seq<Tool>, i: nat)
    requires i < |a| <= |b| && forall j | 0 <= j < |a| :: a[j].name == b[j].name
    ensures First(a, a[i].name) == Some(i) <==> First(b, b[i].name) == Some(i)
  {
    if First(a, a[i].name) == Some(i) {
      FirstIs(b, b[i].name, i);
    }
    if First(b, b[i].name) == Some(i) {
      FirstIs(a, a[i].name, i);
    }
  }

  lemma {:induction false} HashForLonger(edits: seq<Edit>, server: string, a: seq<Tool>, b: seq<Tool>, i: nat)
    requires i < |a| <= |b| && forall j | 0 <= j < |a| :: a[j].name == b[j].name
    ensures HashFor(edits, server, a, i) == HashFor(edits, server, b, i)
  {
    if edits != [] {
      FirstOfLonger(a, b, i);
      HashForLonger(edits[1..], server, a, b, i);
    }
  }

  lemma {:induction false} NobodyRehashes(edits: seq<Edit>, server: string, tools: seq<Tool>, i: nat)
    requires i < |tools| && forall e | e in edits :: !Rehashes(e, server, tools, i)
    ensures HashFor(edits, server, tools, i) == None
  {
    if edits != [] {
      assert edits[0] in edits && forall e | e in edits[1..] :: e in edits;
      NobodyRehashes(edits[1..], server, tools, i);
    }
  }

  lemma HashForMore(e: Edit, rest: seq<Edit>, server: string, tools: seq<Tool>, i: nat)
    requires i < |tools|
    ensures HashFor([e] + rest, server, tools, i)
         == if Rehashes(e, server, tools, i) then Some(e.target.observedHash) else HashFor(rest, server, tools, i)
  {
    assert ([e] + rest)[1..] == rest;
  }

  lemma NewToolsMore(e: Edit, rest: seq<Edit>, server: string)
    ensures NewTools([e] + rest, server) == NewTools([e], server) + NewTools(rest, server)
  {
    assert ([e] + rest)[1..] == rest && [e][1..] == [];
  }

  lemma EntriesCompose(server: string, a: Manifest, b: Manifest, c: Manifest, e: Edit, rest: seq<Edit>, i: nat)
    requires ExactServer(server, a, b, [e]) && ExactServer(server, b, c, rest) && i < |a.tools|
    requires forall x | x in rest :: SlotOf(x) != SlotOf(e)
    ensures c.tools[i] == Rehashed(a.tools[i], HashFor([e] + rest, server, a.tools, i))
  {
    HashForLonger(rest, server, a.tools, b.tools, i);
    HashForMore(e, rest, server, a.tools, i);
    HashForMore(e, [], server, a.tools, i);
    assert [e] + [] == [e];
    if Rehashes(e, server, a.tools, i) {
      NobodyRehashes(rest, server, a.tools, i);
    }
  }

  lemma NewEntriesCompose(server: string, a: Manifest, b: Manifest, c: Manifest, e: Edit, rest: seq<Edit>)
    requires ExactServer(server, a, b, [e]) && ExactServer(server, b, c, rest)
    requires forall x | x in rest :: SlotOf(x) != SlotOf(e)
    ensures |c.tools| == |a.tools| + |NewTools([e] + rest, server)|
    ensures c.tools[|a.tools|..] == NewTools([e] + rest, server)
  {
    var n, added := |a.tools|, NewTools([e], server);
    NewToolsMore(e, rest, server);
    assert [e][1..] == [];
    if added != [] {
      assert b.tools[n] == b.tools[n..][0] == added[0];
      NobodyRehashes(rest, server, b.tools, n);
      assert c.tools[n..] == [c.tools[n]] + c.tools[n + 1..];
    }
  }

  lemma RestIsElsewhere(edits: seq<Edit>)
    requires edits != [] && DistinctSlots(edits)
    ensures forall x | x in edits[1..] :: SlotOf(x) != SlotOf(edits[0])
  {
    forall x | x in edits[1..]
      ensures SlotOf(x) != SlotOf(edits[0])
    {
      var k :| 0 <= k < |edits[1..]| && edits[1..][k] == x;
      assert edits[k + 1] == x;
    }
  }

  lemma {:induction false} ApplyAllIsExact(a: Manifests, base: string, edits: seq<Edit>, server: string)
    requires DistinctSlots(edits) && ApplyAll(a, base, edits).Ok? && server in a
    ensures var b := ApplyAll(a, base, edits).value; b.Keys == a.Keys && ExactServer(server, a[server], b[server], edits)
    decreases |edits|
  {
    if edits != [] {
      var e, rest := edits[0], edits[1..];
      var b, c := Apply(a, base, e).value, ApplyAll(a, base, edits).value;
      ApplyIsExact(a, base, e, server);
      ApplyAllIsExact(b, base, rest, server);
      RestIsElsewhere(edits);
      assert edits == [e] + rest;
      NewEntriesCompose(server, a[server], b[server], c[server], e, rest);
      forall i | 0 <= i < |a[server].tools|
        ensures c[server].tools[i] == Rehashed(a[server].tools[i], HashFor(edits, server, a[server].tools, i))
      {
        EntriesCompose(server, a[server], b[server], c[server], e, rest, i);
      }
    }
  }

  lemma {:induction false} HashForExactly(edits: seq<Edit>, server: string, tools: seq<Tool>, i: nat, e: Edit)
    requires i < |tools| && DistinctSlots(edits) && e in edits && Rehashes(e, server, tools, i)
    ensures HashFor(edits, server, tools, i) == Some(e.target.observedHash)
  {
    RestIsElsewhere(edits);
    if edits[0] != e {
      assert e in edits[1..];
      HashForExactly(edits[1..], server, tools, i, e);
    }
  }

  /**
   The published set, determined: the same servers and modes; the first entry of each selected
   name that was already classified has its hash replaced and nothing else; every other old
   entry, later ones of a selected name included, is as it was; and exactly the first
   classifications of the selection are added, last and in order.
   */
  lemma PublishedSetIsExact(a: Manifests, base: string, edits: seq<Edit>, server: string)
    requires DistinctSlots(edits) && ApplyAll(a, base, edits).Ok? && server in a
    ensures ApplyAll(a, base, edits).value.Keys == a.Keys
    ensures var was, now := a[server], ApplyAll(a, base, edits).value[server];
      && now.annotated == was.annotated
      && |now.tools| == |was.tools| + |NewTools(edits, server)| && now.tools[|was.tools|..] == NewTools(edits, server)
      && (forall i, e | 0 <= i < |was.tools| && e in edits && Rehashes(e, server, was.tools, i) ::
            now.tools[i] == was.tools[i].(hash := Some(e.target.observedHash)))
      && (forall i | 0 <= i < |was.tools| && (forall e | e in edits :: !Rehashes(e, server, was.tools, i)) ::
            now.tools[i] == was.tools[i])
  {
    ApplyAllIsExact(a, base, edits, server);
    var was := a[server].tools;
    forall i, e | 0 <= i < |was| && e in edits && Rehashes(e, server, was, i)
      ensures HashFor(edits, server, was, i) == Some(e.target.observedHash)
    {
      HashForExactly(edits, server, was, i, e);
    }
    forall i | 0 <= i < |was| && (forall e | e in edits :: !Rehashes(e, server, was, i))
      ensures HashFor(edits, server, was, i) == None
    {
      NobodyRehashes(edits, server, was, i);
    }
  }

  /** A published set holds every selected hash and differs from the old one in the selected slots alone. */
  lemma PublishedSetIsFramed(a: Manifests, base: string, edits: seq<Edit>)
    requires DistinctSlots(edits) && ApplyAll(a, base, edits).Ok?
    ensures Framed(a, ApplyAll(a, base, edits).value, Slots(edits))
    ensures forall e | e in edits :: Agrees(ApplyAll(a, base, edits).value, e)
  {
    ApplyAllFrames(a, base, edits);
    forall e | e in edits
      ensures Agrees(ApplyAll(a, base, edits).value, e)
    {
      var i :| 0 <= i < |edits| && edits[i] == e;
      ApplyAllAgrees(a, base, edits, i);
    }
  }

  lemma SlotsSplit(edits: seq<Edit>)
    requires edits != [] && DistinctSlots(edits)
    ensures Slots(edits) == {SlotOf(edits[0])} + Slots(edits[1..])
    ensures SlotOf(edits[0]) !in Slots(edits[1..])
  {
  }

  predicate Listed(m: Manifest, name: string) {
    exists i :: 0 <= i < |m.tools| && m.tools[i].name == name
  }

  /**
   An approval that cannot be folded in: reviewed against another manifest set, for a server that
   is not there or not in annotation mode, a first classification of a listed tool, or none of
   an unlisted one.
   */
  predicate Refused(a: Manifests, base: string, e: Edit) {
    || e.target.manifestHash != base
    || e.target.server !in a
    || !a[e.target.server].annotated
    || (Listed(a[e.target.server], e.target.tool) && e.risk.Some?)
    || (!Listed(a[e.target.server], e.target.tool) && e.risk.None?)
  }

  function Reason(a: Manifests, base: string, e: Edit): ApiError {
    if e.target.manifestHash == base && e.target.server !in a then NotFound else Conflict
  }

  lemma ApplyFailsExactly(a: Manifests, base: string, e: Edit)
    ensures Apply(a, base, e).Err? <==> Refused(a, base, e)
    ensures Apply(a, base, e).Err? ==> Apply(a, base, e).error == Reason(a, base, e)
  {
    if e.target.server in a && First(a[e.target.server].tools, e.target.tool).Some? {
      assert a[e.target.server].tools[First(a[e.target.server].tools, e.target.tool).value].name == e.target.tool;
    }
  }

  /** The first edit that is refused by the set that was read. */
  function FirstRefused(a: Manifests, base: string, edits: seq<Edit>): (r: Option<nat>)
    ensures r.Some? ==> r.value < |edits| && Refused(a, base, edits[r.value])
    ensures forall j | 0 <= j < |edits| && Refused(a, base, edits[j]) :: r.Some? && r.value <= j
  {
    if edits == [] then None
    else if Refused(a, base, edits[0]) then Some(0)
    else match FirstRefused(a, base, edits[1..]) case None => None case Some(i) => Some(i + 1)
  }

  lemma {:induction false} FirstRefusedAlike(a: Manifests, b: Manifests, base: string, edits: seq<Edit>)
    requires forall e | e in edits :: Refused(a, base, e) == Refused(b, base, e)
    ensures FirstRefused(a, base, edits) == FirstRefused(b, base, edits)
  {
    if edits != [] {
      assert edits[0] in edits && forall e | e in edits[1..] :: e in edits;
      FirstRefusedAlike(a, b, base, edits[1..]);
    }
  }

  lemma {:induction false} FailsAtFirstRefused(a: Manifests, base: string, edits: seq<Edit>)
    requires DistinctSlots(edits)
    ensures var i := FirstRefused(a, base, edits);
            if i.Some? then ApplyAll(a, base, edits) == Err(Reason(a, base, edits[i.value])) else ApplyAll(a, base, edits).Ok?
    decreases |edits|
  {
    if edits != [] {
      ApplyFailsExactly(a, base, edits[0]);
      if Apply(a, base, edits[0]).Ok? {
        var b, rest := Apply(a, base, edits[0]).value, edits[1..];
        ApplyFrames(a, base, edits[0]);
        FailsAtFirstRefused(b, base, rest);
        RestFailsAlike(a, b, base, edits);
        FirstRefusedAlike(a, b, base, rest);
        assert FirstRefused(a, base, rest).Some? ==> rest[FirstRefused(a, base, rest).value] in rest;
      }
    }
  }

  /** All or nothing: a selection fails exactly when one of its edits is refused, a stale base included, and for the reason of the first. */
  lemma ApplyAllFailsExactly(a: Manifests, base: string, edits: seq<Edit>)
    requires DistinctSlots(edits)
    ensures ApplyAll(a, base, edits).Err? <==> exists e :: e in edits && Refused(a, base, e)
    ensures ApplyAll(a, base, edits).Err? ==>
              exists i :: 0 <= i < |edits| && Refused(a, base, edits[i]) && (forall j | 0 <= j < i :: !Refused(a, base, edits[j]))
                          && ApplyAll(a, base, edits).error == Reason(a, base, edits[i])
  {
    FailsAtFirstRefused(a, base, edits);
    var i := FirstRefused(a, base, edits);
    if i.Some? {
      assert edits[i.value] in edits && Refused(a, base, edits[i.value]);
    }
  }

  ghost predicate SomeRefused(a: Manifests, base: string, edits: seq<Edit>) {
    exists e :: e in edits && Refused(a, base, e)
  }

  lemma SomeRefusedFails(a: Manifests, base: string, edits: seq<Edit>)
    requires DistinctSlots(edits)
    ensures ApplyAll(a, base, edits).Err? <==> SomeRefused(a, base, edits)
  {
    ApplyAllFailsExactly(a, base, edits);
  }

  lemma RestFailsAlike(a: Manifests, b: Manifests, base: string, edits: seq<Edit>)
    requires edits != [] && DistinctSlots(edits) && Framed(a, b, {SlotOf(edits[0])})
    ensures forall e | e in edits[1..] :: Refused(a, base, e) == Refused(b, base, e) && Reason(a, base, e) == Reason(b, base, e)
  {
    RestIsElsewhere(edits);
    forall e | e in edits[1..]
      ensures Refused(a, base, e) == Refused(b, base, e) && Reason(a, base, e) == Reason(b, base, e)
    {
      ApplyFailsExactly(a, base, e);
      ApplyFailsExactly(b, base, e);
      FrameSparesOthers(a, b, {SlotOf(edits[0])}, base, e);
    }
  }

  lemma AgreedEditChangesNothing(a: Manifests, base: string, e: Edit)
    requires Apply(a, base, e).Ok? && Agrees(a, e)
    ensures Apply(a, base, e) == Ok(a)
  {
    var m := a[e.target.server];
    var i := First(m.tools, e.target.tool).value;
    assert m.tools[i := m.tools[i].(hash := Some(e.target.observedHash))] == m.tools;
    assert a[e.target.server := m] == a;
  }

  lemma {:induction false} AgreedSelectionChangesNothing(a: Manifests, base: string, edits: seq<Edit>)
    requires ApplyAll(a, base, edits).Ok? && forall e | e in edits :: Agrees(a, e)
    ensures ApplyAll(a, base, edits) == Ok(a)
    decreases |edits|
  {
    if edits != [] {
      assert edits[0] in edits;
      AgreedEditChangesNothing(a, base, edits[0]);
      assert forall e | e in edits[1..] :: e in edits;
      AgreedSelectionChangesNothing(a, base, edits[1..]);
    }
  }

  /** The result is the set that was read exactly when it already agreed with every edit. */
  lemma UnchangedExactly(a: Manifests, base: string, edits: seq<Edit>)
    requires DistinctSlots(edits) && ApplyAll(a, base, edits).Ok?
    ensures ApplyAll(a, base, edits).value == a <==> forall e | e in edits :: Agrees(a, e)
  {
    PublishedSetIsFramed(a, base, edits);
    if forall e | e in edits :: Agrees(a, e) {
      AgreedSelectionChangesNothing(a, base, edits);
    }
  }

  // ---- the loop ------------------------------------------------------------

  ghost predicate AgreesOn(set_: Manifests, edits: seq<Edit>, n: nat) {
    forall j | 0 <= j < n && j < |edits| :: Agrees(set_, edits[j])
  }

  lemma AgreesOnAll(set_: Manifests, edits: seq<Edit>)
    ensures AgreesOn(set_, edits, |edits|) <==> forall e | e in edits :: Agrees(set_, e)
  {
    assert forall j | 0 <= j < |edits| :: edits[j] in edits;
  }

  /** Edit `i` leaves the frame one slot wider, and found its own slot as it was read. */
  lemma StepsOn(disk: Manifests, set_: Manifests, base: string, edits: seq<Edit>, i: nat)
    requires DistinctSlots(edits) && i < |edits| && Framed(disk, set_, Slots(edits[..i]))
    requires Apply(set_, base, edits[i]).Ok?
    ensures Framed(disk, Apply(set_, base, edits[i]).value, Slots(edits[..i + 1]))
    ensures AgreesOn(disk, edits, i + 1) <==> AgreesOn(disk, edits, i) && Agrees(set_, edits[i])
  {
    NotYetTouched(edits, i);
    FrameSparesOthers(disk, set_, Slots(edits[..i]), base, edits[i]);
    ApplyFrames(set_, base, edits[i]);
    FramesCompose(disk, set_, Apply(set_, base, edits[i]).value, Slots(edits[..i]), {SlotOf(edits[i])});
  }

  /** One approval, in place; `touched` unless the entry already held the hash. */
  method ReviseOne(set_: Manifests, base: string, e: Edit) returns (r: Result<Manifests, ApiError>, touched: bool)
    ensures Revised(set_, base, e, r, touched) && (r.Err? <==> Refused(set_, base, e))
  {
    ApplyFailsExactly(set_, base, e);
    if e.target.manifestHash != base {
      return Err(Conflict), false;
    }
    if e.target.server !in set_ {
      return Err(NotFound), false;
    }
    var m := set_[e.target.server];
    if !m.annotated {
      return Err(Conflict), false;
    }
    var found := First(m.tools, e.target.tool);
    if found.Some? {
      if e.risk.Some? {
        return Err(Conflict), false;
      }
      var tool := m.tools[found.value];
      if tool.hash == Some(e.target.observedHash) {
        AgreedEditChangesNothing(set_, base, e);
        return Ok(set_), false;
      }
      return Ok(set_[e.target.server := m.(tools := m.tools[found.value := tool.(hash := Some(e.target.observedHash))])]), true;
    }
    if e.risk.None? {
      return Err(Conflict), false;
    }
    var tool := Tool(e.target.tool, Some(e.target.observedHash), e.risk.value);
    return Ok(set_[e.target.server := m.(tools := m.tools + [tool])]), true;
  }

  /** The first `i` edits are folded in, and `changed` tells whether any of them made a difference. */
  ghost predicate Underway(disk: Manifests, set_: Manifests, base: string, edits: seq<Edit>, i: nat, changed: bool) {
    && i <= |edits| && ApplyAll(set_, base, edits[i..]) == ApplyAll(disk, base, edits)
    && (changed || set_ == disk) && Framed(disk, set_, Slots(edits[..i])) && changed == !AgreesOn(disk, edits, i)
  }

  lemma BeginsUnderway(disk: Manifests, base: string, edits: seq<Edit>)
    ensures Underway(disk, disk, base, edits, 0, false)
  {
    assert edits[0..] == edits;
    assert forall s | s in disk :: FramedServer(s, disk[s], disk[s], {});
  }

  /** What one approval did, as the loop learns it. */
  predicate Revised(set_: Manifests, base: string, e: Edit, r: Result<Manifests, ApiError>, touched: bool) {
    r == Apply(set_, base, e) && (r.Ok? ==> (touched <==> !Agrees(set_, e)) && (touched || r.value == set_))
  }

  lemma StaysUnderway(disk: Manifests, set_: Manifests, base: string, edits: seq<Edit>, i: nat, changed: bool,
                      r: Result<Manifests, ApiError>, touched: bool)
    requires DistinctSlots(edits) && Underway(disk, set_, base, edits, i, changed) && i < |edits|
    requires Revised(set_, base, edits[i], r, touched)
    ensures r.Ok? ==> Underway(disk, r.value, base, edits, i + 1, changed || touched)
    ensures r.Err? ==> ApplyAll(disk, base, edits) == Err(r.error) && SomeRefused(disk, base, edits)
  {
    assert edits[i..][1..] == edits[i + 1..];
    if r.Ok? {
      StepsOn(disk, set_, base, edits, i);
    } else {
      SomeRefusedFails(disk, base, edits);
    }
  }

  lemma EndsUnderway(disk: Manifests, set_: Manifests, base: string, edits: seq<Edit>, changed: bool)
    requires DistinctSlots(edits) && Underway(disk, set_, base, edits, |edits|, changed)
    ensures ApplyAll(disk, base, edits) == Ok(set_) && (changed || set_ == disk) && !SomeRefused(disk, base, edits)
    ensures changed <==> !forall e | e in edits :: Agrees(disk, e)
  {
    assert edits[|edits|..] == [];
    AgreesOnAll(disk, edits);
    SomeRefusedFails(disk, base, edits);
  }

  /** The set to publish, or `None` exactly when the one on disk already agrees with every edit. */
  method Revise(disk: Manifests, base: string, edits: seq<Edit>) returns (r: Result<Option<Manifests>, ApiError>)
    requires DistinctSlots(edits)
    ensures r.Err? <==> SomeRefused(disk, base, edits)
    ensures r.Err? ==> ApplyAll(disk, base, edits) == Err(r.error)
    ensures r.Ok? ==> ApplyAll(disk, base, edits) == Ok(if r.value.Some? then r.value.value else disk)
    ensures r.Ok? ==> (r.value.None? <==> forall e | e in edits :: Agrees(disk, e))
  {
    var set_, changed := disk, false;
    var i := 0;
    BeginsUnderway(disk, base, edits);
    while i < |edits|
      invariant 0 <= i <= |edits|
      invariant Underway(disk, set_, base, edits, i, changed)
    {
      var next, touched := ReviseOne(set_, base, edits[i]);
      StaysUnderway(disk, set_, base, edits, i, changed, next, touched);
      if next.Err? {
        return Err(next.error);
      }
      set_, changed := next.value, changed || touched;
      i := i + 1;
    }
    EndsUnderway(disk, set_, base, edits, changed);
    return if changed then Ok(Some(set_)) else Ok(None);
  }

  lemma NotYetTouched(edits: seq<Edit>, i: nat)
    requires DistinctSlots(edits) && i < |edits|
    ensures SlotOf(edits[i]) !in Slots(edits[..i])
    ensures Slots(edits[..i + 1]) == Slots(edits[..i]) + {SlotOf(edits[i])}
  {
  }
}
