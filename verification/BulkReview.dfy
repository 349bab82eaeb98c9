/**
 Accepting a batch of reviewed tools: one outcome for each selected tool, in order. What the
 upstreams, the review store and the manifest publisher answer is given from outside.
 */
module BulkReview {
  import opened Basics
  import opened ManifestEdit

  const MAX_ITEMS: nat := 50
  const MAX_REVIEW_BYTES: nat := 2 * 1024 * 1024

  datatype Review = Review(toolId: nat, bytes: nat)
  datatype Prepared = Prepared(review: Review, annotated: bool, risk: Option<nat>)
  datatype Candidate = Candidate(index: nat, prepared: Prepared)
  type Outcome = Result<Review, ApiError>

  /** The answers a batch receives. Those asked per tool are indexed by its position in the selection. */
  datatype Outside = Outside(
    authorized: bool,
    refreshed: set<string>,
    prepared: seq<Result<Prepared, ApiError>>,
    locks: Result<set<nat>, ApiError>,
    disk: Result<(Manifests, string), ApiError>,
    publishes: Result<string, ApiError>,
    approves: seq<Result<bool, ApiError>>,
    commits: Result<(), ApiError>,
    reloads: bool,
    records: seq<Result<(), ApiError>>)

  predicate Answers(w: Outside, n: nat) {
    |w.prepared| == n && |w.approves| == n && |w.records| == n
  }

  predicate Once(params: seq<Target>) {
    forall i, j | 0 <= i < j < |params| :: (params[i].server, params[i].tool) != (params[j].server, params[j].tool)
  }

  // ---- who is still in the running -----------------------------------------

  /** Tools from position `i` on whose server refreshed and whose approval could be prepared. */
  function Candidates(w: Outside, params: seq<Target>, i: nat): seq<Candidate>
    requires Answers(w, |params|) && i <= |params|
    decreases |params| - i
  {
    if i == |params| then []
    else if params[i].server in w.refreshed && w.prepared[i].Ok?
    then [Candidate(i, w.prepared[i].value)] + Candidates(w, params, i + 1)
    else Candidates(w, params, i + 1)
  }

  function Bytes(cs: seq<Candidate>): nat {
    if cs == [] then 0 else cs[0].prepared.review.bytes + Bytes(cs[1..])
  }

  /** Those whose review row was still pending when it was locked. */
  function StillPending(locked: set<nat>, cs: seq<Candidate>): seq<Candidate> {
    if cs == [] then []
    else if cs[0].prepared.review.toolId in locked then [cs[0]] + StillPending(locked, cs[1..])
    else StillPending(locked, cs[1..])
  }

  function Edits(params: seq<Target>, cs: seq<Candidate>): seq<Edit>
    requires forall c | c in cs :: c.index < |params|
  {
    if cs == [] then []
    else if cs[0].prepared.annotated then [Edit(params[cs[0].index], cs[0].prepared.risk)] + Edits(params, cs[1..])
    else Edits(params, cs[1..])
  }

  /** What publishing comes to: nothing to do, a published hash, or a refusal. */
  function Publication(w: Outside, edits: seq<Edit>): Result<Option<string>, ApiError> {
    if edits == [] then Ok(None)
    else match w.disk
      case Err(e) => Err(e)
      case Ok(read) =>
        match ApplyAll(read.0, read.1, edits)
        case Err(e) => Err(e)
        case Ok(next) =>
          if next == read.0 then Ok(None)
          else match w.publishes case Err(e) => Err(e) case Ok(hash) => Ok(Some(hash))
  }

  /** The manifest sets handed to the publisher: one, and only when it differs from what was read. */
  function Submitted(w: Outside, edits: seq<Edit>): seq<Manifests> {
    if edits != [] && w.disk.Ok? && ApplyAll(w.disk.value.0, w.disk.value.1, edits).Ok?
       && ApplyAll(w.disk.value.0, w.disk.value.1, edits).value != w.disk.value.0
    then [ApplyAll(w.disk.value.0, w.disk.value.1, edits).value] else []
  }

  /**
   What publishing comes to, from the edits alone: nothing when there are none or the set read
   agrees with all of them, a refusal when one is refused, and otherwise what the publisher says
   of the one set handed to it.
   */
  lemma PublicationExactly(w: Outside, edits: seq<Edit>)
    requires DistinctSlots(edits) && w.disk.Ok?
    ensures var (disk, base) := w.disk.value;
            var refused, agreed := SomeRefused(disk, base, edits), forall e | e in edits :: Agrees(disk, e);
            && (refused ==> Publication(w, edits).Err? && Publication(w, edits).error in {Conflict, NotFound})
            && (!refused && agreed ==> Publication(w, edits) == Ok(None))
            && (!refused && !agreed && w.publishes.Err? ==> Publication(w, edits) == Err(w.publishes.error))
            && (!refused && !agreed && w.publishes.Ok? ==> Publication(w, edits) == Ok(Some(w.publishes.value)))
            && (|Submitted(w, edits)| == if refused || agreed then 0 else 1)
            && (!refused && !agreed ==> ApplyAll(disk, base, edits) == Ok(Submitted(w, edits)[0]))
  {
    var (disk, base) := w.disk.value;
    ApplyAllFailsExactly(disk, base, edits);
    if ApplyAll(disk, base, edits).Ok? {
      UnchangedExactly(disk, base, edits);
    }
  }

  /** One approval reviewed against another manifest set and nothing at all is handed to the publisher. */
  lemma StaleBasePublishesNothing(w: Outside, edits: seq<Edit>, e: Edit)
    requires DistinctSlots(edits) && w.disk.Ok? && e in edits && e.target.manifestHash != w.disk.value.1
    ensures Submitted(w, edits) == [] && Publication(w, edits).Err?
  {
    PublicationExactly(w, edits);
    assert Refused(w.disk.value.0, w.disk.value.1, e);
  }

  // ---- what each tool should get -------------------------------------------

  /** Refreshed, prepared, and still pending when its row was locked. */
  predicate Locked(w: Outside, params: seq<Target>, i: nat)
    requires Answers(w, |params|) && i < |params|
  {
    params[i].server in w.refreshed && w.prepared[i].Ok? && w.locks.Ok? && w.prepared[i].value.review.toolId in w.locks.value
  }

  /** An annotation-mode tool is approved only if the shared publication went through. */
  predicate Tried(w: Outside, params: seq<Target>, pub: Result<Option<string>, ApiError>, i: nat)
    requires Answers(w, |params|) && i < |params|
  {
    Locked(w, params, i) && (w.prepared[i].value.annotated ==> pub.Ok?)
  }

  predicate Accepted(w: Outside, params: seq<Target>, pub: Result<Option<string>, ApiError>, i: nat)
    requires Answers(w, |params|) && i < |params|
  {
    Tried(w, params, pub, i) && w.approves[i] == Ok(true)
  }

  function Blame(error: ApiError): ApiError {
    match error
    case Conflict => Conflict
    case NotFound => Conflict
    case Unavailable => Unavailable
    case _ => Internal
  }

  function Expected(w: Outside, params: seq<Target>, pub: Result<Option<string>, ApiError>, i: nat): Outcome
    requires Answers(w, |params|) && i < |params|
  {
    if params[i].server !in w.refreshed then Err(Unavailable)
    else if w.prepared[i].Err? then Err(w.prepared[i].error)
    else if !Locked(w, params, i) then Err(Conflict)
    else if !Tried(w, params, pub, i) then Err(Blame(pub.error))
    else if !Accepted(w, params, pub, i) then Err(Conflict)
    else if w.records[i].Err? then Err(w.records[i].error)
    else Ok(w.prepared[i].value.review)
  }

  /** The outcome of a tool, case by case, in the order the batch finds out. */
  lemma OutcomeExactly(w: Outside, params: seq<Target>, pub: Result<Option<string>, ApiError>, i: nat)
    requires Answers(w, |params|) && i < |params| && w.locks.Ok?
    ensures var o, p := Expected(w, params, pub, i), w.prepared[i];
            && (params[i].server !in w.refreshed ==> o == Err(Unavailable))
            && (params[i].server in w.refreshed ==>
                  && (p.Err? ==> o == Err(p.error))
                  && (p.Ok? && p.value.review.toolId !in w.locks.value ==> o == Err(Conflict))
                  && (p.Ok? && p.value.review.toolId in w.locks.value ==>
                        if p.value.annotated && pub.Err?
                        then o == Err(if pub.error in {Conflict, NotFound} then Conflict
                                      else if pub.error == Unavailable then Unavailable else Internal)
                        else if w.approves[i] != Ok(true) then o == Err(Conflict)
                        else if w.records[i].Err? then o == Err(w.records[i].error)
                        else o == Ok(p.value.review)))
  {
  }

  /** The locked tools from position `i` on. */
  function Kept(w: Outside, params: seq<Target>, i: nat): seq<Candidate>
    requires Answers(w, |params|) && i <= |params|
    decreases |params| - i
  {
    if i == |params| then []
    else if Locked(w, params, i) then [Candidate(i, w.prepared[i].value)] + Kept(w, params, i + 1)
    else Kept(w, params, i + 1)
  }

  ghost function Changes(w: Outside, params: seq<Target>): seq<Edit>
    requires Answers(w, |params|)
  {
    KeptInOrder(w, params, 0);
    Edits(params, Kept(w, params, 0))
  }

  /** The checks before anything is locked. */
  ghost predicate Admissible(w: Outside, params: seq<Target>)
    requires Answers(w, |params|)
  {
    w.authorized && 1 <= |params| <= MAX_ITEMS && Once(params) && Bytes(Candidates(w, params, 0)) <= MAX_REVIEW_BYTES
  }

  /** The store answers every approval it is asked for. */
  ghost predicate Approves(w: Outside, params: seq<Target>)
    requires Answers(w, |params|)
  {
    forall i | 0 <= i < |params| && Tried(w, params, Publication(w, Changes(w, params)), i) :: w.approves[i].Ok?
  }

  /** The store answers every approval it is asked for, and the commit. */
  ghost predicate Commits(w: Outside, params: seq<Target>)
    requires Answers(w, |params|)
  {
    Admissible(w, params) && w.locks.Ok? && w.commits.Ok? && Approves(w, params)
  }

  // ---- the lists are in selection order ------------------------------------

  predicate Ordered(cs: seq<Candidate>) {
    forall j, k | 0 <= j < k < |cs| :: cs[j].index < cs[k].index
  }

  /** Each candidate is the prepared approval at its position. */
  predicate Genuine(w: Outside, params: seq<Target>, cs: seq<Candidate>)
    requires Answers(w, |params|)
  {
    forall k | 0 <= k < |cs| ::
      cs[k].index < |params| && params[cs[k].index].server in w.refreshed && w.prepared[cs[k].index] == Ok(cs[k].prepared)
  }

  lemma {:induction false} CandidatesInOrder(w: Outside, params: seq<Target>, i: nat)
    requires Answers(w, |params|) && i <= |params|
    ensures Ordered(Candidates(w, params, i)) && Genuine(w, params, Candidates(w, params, i))
    ensures forall k | 0 <= k < |Candidates(w, params, i)| :: i <= Candidates(w, params, i)[k].index
    decreases |params| - i
  {
    if i < |params| {
      CandidatesInOrder(w, params, i + 1);
    }
  }

  /** A tool is a candidate exactly when its server refreshed and its approval could be prepared. */
  lemma {:induction false} CandidatesExactly(w: Outside, params: seq<Target>, from: nat, i: nat)
    requires Answers(w, |params|) && from <= |params|
    ensures i in Indices(Candidates(w, params, from)) <==> from <= i < |params| && params[i].server in w.refreshed && w.prepared[i].Ok?
    decreases |params| - from
  {
    if from < |params| {
      CandidatesExactly(w, params, from + 1, i);
      var all, rest := Candidates(w, params, from), Candidates(w, params, from + 1);
      if params[from].server in w.refreshed && w.prepared[from].Ok? {
        assert all == [Candidate(from, w.prepared[from].value)] + rest;
        assert Indices(all) == {from} + Indices(rest) by {
          assert all[0].index == from && forall k | 0 <= k < |rest| :: rest[k] == all[k + 1];
        }
      }
    }
  }

  lemma {:induction false} KeptInOrder(w: Outside, params: seq<Target>, i: nat)
    requires Answers(w, |params|) && i <= |params|
    ensures Ordered(Kept(w, params, i)) && Genuine(w, params, Kept(w, params, i))
    ensures forall k | 0 <= k < |Kept(w, params, i)| ::
              i <= Kept(w, params, i)[k].index && Locked(w, params, Kept(w, params, i)[k].index)
    decreases |params| - i
  {
    if i < |params| {
      KeptInOrder(w, params, i + 1);
    }
  }

  lemma {:induction false} PendingAreKept(w: Outside, params: seq<Target>, i: nat)
    requires Answers(w, |params|) && i <= |params| && w.locks.Ok?
    ensures StillPending(w.locks.value, Candidates(w, params, i)) == Kept(w, params, i)
    decreases |params| - i
  {
    if i < |params| {
      PendingAreKept(w, params, i + 1);
      var rest := Candidates(w, params, i + 1);
      if params[i].server in w.refreshed && w.prepared[i].Ok? {
        assert Candidates(w, params, i)[1..] == rest;
      }
    }
  }

  lemma {:induction false} EditComesFrom(params: seq<Target>, cs: seq<Candidate>, e: Edit) returns (k: nat)
    requires (forall c | c in cs :: c.index < |params|) && e in Edits(params, cs)
    ensures k < |cs| && e.target == params[cs[k].index]
  {
    if e in Edits(params, cs[1..]) {
      k := EditComesFrom(params, cs[1..], e);
      k := k + 1;
    } else {
      k := 0;
    }
  }

  /** The edits are those of the annotation-mode candidates, each with its own risk, and no others ... */
  lemma {:induction false} EditsExactly(params: seq<Target>, cs: seq<Candidate>, e: Edit)
    requires forall c | c in cs :: c.index < |params|
    ensures e in Edits(params, cs) <==>
            exists c :: c in cs && c.prepared.annotated && e == Edit(params[c.index], c.prepared.risk)
  {
    if cs != [] {
      assert cs == [cs[0]] + cs[1..];
      EditsExactly(params, cs[1..], e);
    }
  }

  /** ... in the same order. */
  lemma {:induction false} EditsKeepOrder(params: seq<Target>, a: seq<Candidate>, b: seq<Candidate>)
    requires (forall c | c in a :: c.index < |params|) && forall c | c in b :: c.index < |params|
    ensures Edits(params, a + b) == Edits(params, a) + Edits(params, b)
  {
    if a == [] {
      assert a + b == b;
    } else {
      assert (a + b)[1..] == a[1..] + b;
      EditsKeepOrder(params, a[1..], b);
    }
  }

  /** The size of a batch is what its candidates' reviews come to together. */
  lemma {:induction false} BytesAddUp(a: seq<Candidate>, b: seq<Candidate>)
    ensures Bytes(a + b) == Bytes(a) + Bytes(b) && (|a| == 1 ==> Bytes(a) == a[0].prepared.review.bytes)
  {
    if a == [] {
      assert a + b == b;
    } else {
      assert (a + b)[1..] == a[1..] + b;
      BytesAddUp(a[1..], b);
    }
  }

  /** Distinct tools make distinct edits. */
  lemma {:induction false} EditsAreDistinct(params: seq<Target>, cs: seq<Candidate>)
    requires Once(params) && Ordered(cs) && forall c | c in cs :: c.index < |params|
    ensures DistinctSlots(Edits(params, cs))
  {
    if cs != [] {
      var rest := Edits(params, cs[1..]);
      EditsAreDistinct(params, cs[1..]);
      forall i | 0 <= i < |rest|
        ensures SlotOf(rest[i]) != (params[cs[0].index].server, params[cs[0].index].tool)
      {
        var k := EditComesFrom(params, cs[1..], rest[i]);
        assert cs[1..][k] == cs[k + 1];
        assert cs[0].index < cs[k + 1].index;
      }
    }
  }

  // ---- the batch -----------------------------------------------------------

  /** The stores a batch writes: manifest sets handed to the publisher, and positions approved and committed. */
  class Desk {
    var published: seq<Manifests>
    var committed: set<nat>

    constructor ()
      ensures published == [] && committed == {}
    {
      published, committed := [], {};
    }
  }

  function Indices(cs: seq<Candidate>): set<nat> {
    set k | 0 <= k < |cs| :: cs[k].index
  }

  /** Positions outside `open` have their outcome and those inside have none. */
  ghost predicate Settled(results: seq<Option<Outcome>>, w: Outside, params: seq<Target>, pub: Result<Option<string>, ApiError>, open: set<nat>)
    requires Answers(w, |params|)
  {
    |results| == |params|
    && forall i | 0 <= i < |params| :: results[i] == if i in open then None else Some(Expected(w, params, pub, i))
  }

  method Gather(w: Outside, params: seq<Target>, ghost pub: Result<Option<string>, ApiError>)
    returns (results: seq<Option<Outcome>>, cs: seq<Candidate>)
    requires Answers(w, |params|)
    ensures cs == Candidates(w, params, 0) && Settled(results, w, params, pub, Indices(cs))
  {
    results, cs := seq(|params|, _ => None), [];
    var i := 0;
    while i < |params|
      invariant 0 <= i <= |params| == |results|
      invariant cs + Candidates(w, params, i) == Candidates(w, params, 0)
      invariant forall c | c in cs :: c.index < i
      invariant forall j | 0 <= j < |params| ::
                  results[j] == if j >= i || j in Indices(cs) then None else Some(Expected(w, params, pub, j))
    {
      if params[i].server !in w.refreshed {
        results := results[i := Some(Err(Unavailable))];
      } else {
        match w.prepared[i] {
          case Ok(p) =>
            IndicesMore(cs, Candidate(i, p));
            Regroup(cs, [Candidate(i, p)], Candidates(w, params, i + 1));
            cs := cs + [Candidate(i, p)];
          case Err(e) => results := results[i := Some(Err(e))];
        }
      }
      i := i + 1;
    }
  }

  lemma IndicesMore(cs: seq<Candidate>, c: Candidate)
    ensures Indices(cs + [c]) == Indices(cs) + {c.index}
  {
    var more := cs + [c];
    assert forall k | 0 <= k < |cs| :: more[k] == cs[k];
    assert more[|cs|] == c;
  }

  lemma IndicesTail(cs: seq<Candidate>, k: nat)
    requires k < |cs| && Ordered(cs)
    ensures Indices(cs[k..]) == {cs[k].index} + Indices(cs[k + 1..]) && cs[k].index !in Indices(cs[k + 1..])
  {
  }

  lemma SettleOne(results: seq<Option<Outcome>>, w: Outside, params: seq<Target>, pub: Result<Option<string>, ApiError>, a: set<nat>, b: set<nat>, i: nat)
    requires Answers(w, |params|) && Settled(results, w, params, pub, a + ({i} + b)) && i < |params|
    requires a !! ({i} + b) && i !in b
    ensures Settled(results[i := Some(Expected(w, params, pub, i))], w, params, pub, a + b) && a !! b
  {
  }

  lemma StayOpen(results: seq<Option<Outcome>>, w: Outside, params: seq<Target>, pub: Result<Option<string>, ApiError>, a: set<nat>, b: set<nat>, i: nat)
    requires Answers(w, |params|) && Settled(results, w, params, pub, a + ({i} + b))
    requires a !! ({i} + b) && i !in b
    ensures Settled(results, w, params, pub, (a + {i}) + b) && (a + {i}) !! b
  {
  }

  method Retain(w: Outside, params: seq<Target>, cs: seq<Candidate>, start: seq<Option<Outcome>>, ghost pub: Result<Option<string>, ApiError>)
    returns (results: seq<Option<Outcome>>, kept: seq<Candidate>)
    requires Answers(w, |params|) && w.locks.Ok? && cs == Candidates(w, params, 0) && Settled(start, w, params, pub, Indices(cs))
    ensures kept == Kept(w, params, 0) && Settled(results, w, params, pub, Indices(kept))
  {
    ghost var goal := Kept(w, params, 0);
    assert StillPending(w.locks.value, cs) == goal && Ordered(cs) && Genuine(w, params, cs) by {
      CandidatesInOrder(w, params, 0);
      PendingAreKept(w, params, 0);
    }
    results, kept := RetainFrom(w, params, cs, start, pub);
  }

  method RetainFrom(w: Outside, params: seq<Target>, cs: seq<Candidate>, start: seq<Option<Outcome>>, ghost pub: Result<Option<string>, ApiError>)
    returns (results: seq<Option<Outcome>>, kept: seq<Candidate>)
    requires Answers(w, |params|) && w.locks.Ok? && Ordered(cs) && Genuine(w, params, cs)
    requires Settled(start, w, params, pub, Indices(cs))
    ensures kept == StillPending(w.locks.value, cs) && Settled(results, w, params, pub, Indices(kept))
  {
    ghost var goal := StillPending(w.locks.value, cs);
    results, kept := start, [];
    var k := 0;
    assert cs[k..] == cs && Indices([]) + Indices(cs) == Indices(cs);
    while k < |cs|
      invariant 0 <= k <= |cs|
      invariant kept + StillPending(w.locks.value, cs[k..]) == goal
      invariant Indices(kept) !! Indices(cs[k..])
      invariant Settled(results, w, params, pub, Indices(kept) + Indices(cs[k..]))
    {
      var c := cs[k];
      IndicesTail(cs, k);
      assert cs[k..][1..] == cs[k + 1..];
      if c.prepared.review.toolId in w.locks.value {
        StayOpen(results, w, params, pub, Indices(kept), Indices(cs[k + 1..]), c.index);
        IndicesMore(kept, c);
        Regroup(kept, [c], StillPending(w.locks.value, cs[k + 1..]));
        kept := kept + [c];
      } else {
        SettleOne(results, w, params, pub, Indices(kept), Indices(cs[k + 1..]), c.index);
        results := results[c.index := Some(Err(Conflict))];
      }
      k := k + 1;
    }
    assert Indices(kept) + Indices(cs[k..]) == Indices(kept);
  }

  /** Hands the publisher at most one set. */
  method Publish(w: Outside, edits: seq<Edit>, desk: Desk) returns (pub: Result<Option<string>, ApiError>)
    requires DistinctSlots(edits)
    modifies desk
    ensures pub == Publication(w, edits)
    ensures desk.published == old(desk.published) + Submitted(w, edits) && desk.committed == old(desk.committed)
  {
    if edits == [] {
      return Ok(None);
    }
    if w.disk.Err? {
      return Err(w.disk.error);
    }
    var (disk, base) := w.disk.value;
    var revised := Revise(disk, base, edits);
    match revised {
      case Err(e) => return Err(e);
      case Ok(None) => return Ok(None);
      case Ok(Some(next)) =>
        UnchangedExactly(disk, base, edits);
        desk.published := desk.published + [next];
        match w.publishes {
          case Err(e) => return Err(e);
          case Ok(hash) => return Ok(Some(hash));
        }
    }
  }

  method CollectEdits(params: seq<Target>, cs: seq<Candidate>) returns (edits: seq<Edit>)
    requires forall c | c in cs :: c.index < |params|
    ensures edits == Edits(params, cs)
  {
    edits := [];
    var k := 0;
    assert cs[k..] == cs;
    while k < |cs|
      invariant 0 <= k <= |cs|
      invariant edits + Edits(params, cs[k..]) == Edits(params, cs)
    {
      assert cs[k..][1..] == cs[k + 1..];
      if cs[k].prepared.annotated {
        Regroup(edits, [Edit(params[cs[k].index], cs[k].prepared.risk)], Edits(params, cs[k + 1..]));
        edits := edits + [Edit(params[cs[k].index], cs[k].prepared.risk)];
      }
      k := k + 1;
    }
  }

  method CountBytes(cs: seq<Candidate>) returns (n: nat)
    ensures n == Bytes(cs)
  {
    n := 0;
    var k := 0;
    assert cs[k..] == cs;
    while k < |cs|
      invariant 0 <= k <= |cs| && n + Bytes(cs[k..]) == Bytes(cs)
    {
      assert cs[k..][1..] == cs[k + 1..];
      n := n + cs[k].prepared.review.bytes;
      k := k + 1;
    }
  }

  // ---- approving what is left ----------------------------------------------

  lemma {:induction false} KeptIsComplete(w: Outside, params: seq<Target>, from: nat, i: nat)
    requires Answers(w, |params|) && from <= i < |params| && Locked(w, params, i)
    ensures i in Indices(Kept(w, params, from))
    decreases i - from
  {
    var kept := Kept(w, params, from);
    if from == i {
      assert kept[0].index == i;
    } else {
      KeptIsComplete(w, params, from + 1, i);
      var rest := Kept(w, params, from + 1);
      var k :| 0 <= k < |rest| && rest[k].index == i;
      assert kept[k + |kept| - |rest|] == rest[k];
    }
  }

  ghost function AcceptedSet(w: Outside, params: seq<Target>, pub: Result<Option<string>, ApiError>): set<nat>
    requires Answers(w, |params|)
  {
    set i | 0 <= i < |params| && Accepted(w, params, pub, i)
  }

  /** Those the store approved. */
  function ApprovedOf(w: Outside, params: seq<Target>, pub: Result<Option<string>, ApiError>, cs: seq<Candidate>): seq<Candidate>
    requires Answers(w, |params|)
  {
    if cs == [] then []
    else if cs[0].index < |params| && Accepted(w, params, pub, cs[0].index) then [cs[0]] + ApprovedOf(w, params, pub, cs[1..])
    else ApprovedOf(w, params, pub, cs[1..])
  }

  function AcceptedFrom(w: Outside, params: seq<Target>, pub: Result<Option<string>, ApiError>, i: nat): seq<Candidate>
    requires Answers(w, |params|) && i <= |params|
    decreases |params| - i
  {
    if i == |params| then []
    else if Accepted(w, params, pub, i) then [Candidate(i, w.prepared[i].value)] + AcceptedFrom(w, params, pub, i + 1)
    else AcceptedFrom(w, params, pub, i + 1)
  }

  lemma {:induction false} AcceptedInOrder(w: Outside, params: seq<Target>, pub: Result<Option<string>, ApiError>, i: nat)
    requires Answers(w, |params|) && i <= |params|
    ensures var cs := AcceptedFrom(w, params, pub, i);
      && Ordered(cs) && Genuine(w, params, cs)
      && (forall k | 0 <= k < |cs| :: i <= cs[k].index && Accepted(w, params, pub, cs[k].index))
    decreases |params| - i
  {
    if i < |params| {
      AcceptedInOrder(w, params, pub, i + 1);
    }
  }

  lemma {:induction false} AcceptedIsComplete(w: Outside, params: seq<Target>, pub: Result<Option<string>, ApiError>, from: nat, i: nat)
    requires Answers(w, |params|) && from <= i < |params| && Accepted(w, params, pub, i)
    ensures i in Indices(AcceptedFrom(w, params, pub, from))
    decreases i - from
  {
    var all := AcceptedFrom(w, params, pub, from);
    if from == i {
      assert all[0].index == i;
    } else {
      AcceptedIsComplete(w, params, pub, from + 1, i);
      var rest := AcceptedFrom(w, params, pub, from + 1);
      var k :| 0 <= k < |rest| && rest[k].index == i;
      assert all[k + |all| - |rest|] == rest[k];
    }
  }

  lemma {:induction false} ApprovedAreAccepted(w: Outside, params: seq<Target>, pub: Result<Option<string>, ApiError>, i: nat)
    requires Answers(w, |params|) && i <= |params|
    ensures ApprovedOf(w, params, pub, Kept(w, params, i)) == AcceptedFrom(w, params, pub, i)
    decreases |params| - i
  {
    if i < |params| {
      ApprovedAreAccepted(w, params, pub, i + 1);
      if Locked(w, params, i) {
        assert Kept(w, params, i)[1..] == Kept(w, params, i + 1);
      }
    }
  }

  lemma IndicesOfAccepted(w: Outside, params: seq<Target>, pub: Result<Option<string>, ApiError>)
    requires Answers(w, |params|)
    ensures Indices(AcceptedFrom(w, params, pub, 0)) == AcceptedSet(w, params, pub)
  {
    AcceptedInOrder(w, params, pub, 0);
    forall i | i in AcceptedSet(w, params, pub)
      ensures i in Indices(AcceptedFrom(w, params, pub, 0))
    {
      AcceptedIsComplete(w, params, pub, 0, i);
    }
  }

  datatype Decision = Keep | Settle(error: ApiError) | Abandon

  /** What becomes of one locked tool when its approval is tried. */
  function Decide(w: Outside, pub: Result<Option<string>, ApiError>, c: Candidate): Decision
    requires c.index < |w.approves|
  {
    if c.prepared.annotated && pub.Err? then Settle(Blame(pub.error))
    else match w.approves[c.index]
      case Err(_) => Abandon
      case Ok(yes) => if yes then Keep else Settle(Conflict)
  }

  lemma DecidesRightly(w: Outside, params: seq<Target>, pub: Result<Option<string>, ApiError>, c: Candidate)
    requires Answers(w, |params|) && c.index < |params| && w.prepared[c.index] == Ok(c.prepared) && Locked(w, params, c.index)
    ensures Decide(w, pub, c).Keep? <==> Accepted(w, params, pub, c.index)
    ensures Decide(w, pub, c).Abandon? <==> Tried(w, params, pub, c.index) && w.approves[c.index].Err?
    ensures Decide(w, pub, c).Settle? ==> Expected(w, params, pub, c.index) == Err(Decide(w, pub, c).error)
  {
  }

  /** Approves each in turn; a store error abandons the batch. */
  method AcceptAll(w: Outside, params: seq<Target>, pub: Result<Option<string>, ApiError>, kept: seq<Candidate>, start: seq<Option<Outcome>>)
    returns (results: seq<Option<Outcome>>, accepted: seq<Candidate>, broken: bool)
    requires Answers(w, |params|) && Ordered(kept) && Genuine(w, params, kept)
    requires forall k | 0 <= k < |kept| :: Locked(w, params, kept[k].index)
    requires Settled(start, w, params, pub, Indices(kept))
    ensures broken <==> exists k :: 0 <= k < |kept| && Tried(w, params, pub, kept[k].index) && w.approves[kept[k].index].Err?
    ensures !broken ==> accepted == ApprovedOf(w, params, pub, kept) && Settled(results, w, params, pub, Indices(accepted))
  {
    ghost var goal := ApprovedOf(w, params, pub, kept);
    results, accepted, broken := start, [], false;
    var k := 0;
    assert kept[k..] == kept && Indices([]) + Indices(kept) == Indices(kept);
    while k < |kept|
      invariant 0 <= k <= |kept|
      invariant accepted + ApprovedOf(w, params, pub, kept[k..]) == goal
      invariant Indices(accepted) !! Indices(kept[k..])
      invariant Settled(results, w, params, pub, Indices(accepted) + Indices(kept[k..]))
      invariant forall j | 0 <= j < k :: !(Tried(w, params, pub, kept[j].index) && w.approves[kept[j].index].Err?)
    {
      var c := kept[k];
      IndicesTail(kept, k);
      assert kept[k..][1..] == kept[k + 1..];
      DecidesRightly(w, params, pub, c);
      match Decide(w, pub, c) {
        case Abandon =>
          broken := true;
          return;
        case Keep =>
          StayOpen(results, w, params, pub, Indices(accepted), Indices(kept[k + 1..]), c.index);
          IndicesMore(accepted, c);
          Regroup(accepted, [c], ApprovedOf(w, params, pub, kept[k + 1..]));
          accepted := accepted + [c];
        case Settle(error) =>
          SettleOne(results, w, params, pub, Indices(accepted), Indices(kept[k + 1..]), c.index);
          results := results[c.index := Some(Err(error))];
      }
      k := k + 1;
    }
    assert Indices(accepted) + Indices(kept[k..]) == Indices(accepted);
  }

  method RecordAll(w: Outside, params: seq<Target>, ghost pub: Result<Option<string>, ApiError>, accepted: seq<Candidate>, start: seq<Option<Outcome>>)
    returns (results: seq<Option<Outcome>>)
    requires Answers(w, |params|) && Ordered(accepted) && Genuine(w, params, accepted)
    requires forall c | c in accepted :: Accepted(w, params, pub, c.index)
    requires Settled(start, w, params, pub, Indices(accepted))
    ensures Settled(results, w, params, pub, {})
  {
    results := start;
    var k := 0;
    assert accepted[k..] == accepted && {} + Indices(accepted) == Indices(accepted);
    while k < |accepted|
      invariant 0 <= k <= |accepted|
      invariant Settled(results, w, params, pub, {} + Indices(accepted[k..]))
    {
      var c := accepted[k];
      assert c in accepted;
      IndicesTail(accepted, k);
      SettleOne(results, w, params, pub, {}, Indices(accepted[k + 1..]), c.index);
      var outcome: Outcome := match w.records[c.index] case Err(e) => Err(e) case Ok(_) => Ok(c.prepared.review);
      results := results[c.index := Some(outcome)];
      k := k + 1;
    }
    assert {} + Indices(accepted[k..]) == {};
  }

  /** Anything the batch was asked to approve and got an answer for. */
  lemma BrokenExactly(w: Outside, params: seq<Target>, pub: Result<Option<string>, ApiError>)
    requires Answers(w, |params|)
    ensures (exists k :: 0 <= k < |Kept(w, params, 0)| && var i := Kept(w, params, 0)[k].index;
               i < |params| && Tried(w, params, pub, i) && w.approves[i].Err?)
       <==> !(forall i | 0 <= i < |params| && Tried(w, params, pub, i) :: w.approves[i].Ok?)
  {
    var kept := Kept(w, params, 0);
    KeptInOrder(w, params, 0);
    if !(forall i | 0 <= i < |params| && Tried(w, params, pub, i) :: w.approves[i].Ok?) {
      var i :| 0 <= i < |params| && Tried(w, params, pub, i) && !w.approves[i].Ok?;
      KeptIsComplete(w, params, 0, i);
      var k :| 0 <= k < |kept| && kept[k].index == i;
    }
  }

  /** One tool of one server is selected twice. */
  predicate Repeats(params: seq<Target>) {
    exists i, j :: 0 <= i < j < |params| && params[i].server == params[j].server && params[i].tool == params[j].tool
  }

  predicate Told(w: Outside, pub: Result<Option<string>, ApiError>) {
    pub.Ok? && pub.value.Some? ==> w.reloads
  }

  /**
   Accepts what it can. On success every selected tool has its outcome, in order. What is
   committed is exactly what was accepted, and at most one manifest set was handed on.
   */
  method Approve(w: Outside, params: seq<Target>, desk: Desk) returns (r: Result<seq<Outcome>, ApiError>)
    requires Answers(w, |params|)
    modifies desk
    ensures r.Ok? <==> Commits(w, params) && Told(w, Publication(w, Changes(w, params)))
    ensures !w.authorized ==> r == Err(Forbidden)
    ensures w.authorized && (params == [] || |params| > 50 || Repeats(params)) ==> r == Err(BadRequest)
    ensures w.authorized && 1 <= |params| <= 50 && !Repeats(params) && Bytes(Candidates(w, params, 0)) > 2_097_152 ==> r == Err(TooLarge)
    ensures Admissible(w, params) && w.locks.Err? ==> r == Err(w.locks.error)
    ensures Admissible(w, params) && w.locks.Ok? && !Approves(w, params) ==> r == Err(Unavailable)
    ensures Admissible(w, params) && w.locks.Ok? && Approves(w, params) && w.commits.Err? ==> r == Err(w.commits.error)
    ensures Commits(w, params) && !Told(w, Publication(w, Changes(w, params))) ==> r == Err(Unavailable)
    ensures r.Ok? ==> |r.value| == |params|
    ensures r.Ok? ==> forall i | 0 <= i < |params| :: r.value[i] == Expected(w, params, Publication(w, Changes(w, params)), i)
    ensures desk.committed == old(desk.committed)
      + if Commits(w, params) then AcceptedSet(w, params, Publication(w, Changes(w, params))) else {}
    ensures desk.published == old(desk.published)
      + if Admissible(w, params) && w.locks.Ok? then Submitted(w, Changes(w, params)) else []
  {
    assert Once(params) <==> !Repeats(params);
    if !w.authorized {
      return Err(Forbidden);
    }
    if params == [] || |params| > MAX_ITEMS || !Once(params) {
      return Err(BadRequest);
    }
    ghost var due := Publication(w, Changes(w, params));
    var results, cs := Gather(w, params, due);
    var bytes := CountBytes(cs);
    if bytes > MAX_REVIEW_BYTES {
      return Err(TooLarge);
    }
    if w.locks.Err? {
      return Err(w.locks.error);
    }
    var kept;
    results, kept := Retain(w, params, cs, results, due);
    KeptInOrder(w, params, 0);
    EditsAreDistinct(params, kept);
    var edits := CollectEdits(params, kept);
    var pub := Publish(w, edits, desk);
    var accepted, broken;
    results, accepted, broken := AcceptAll(w, params, pub, kept, results);
    BrokenExactly(w, params, pub);
    if broken {
      return Err(Unavailable);
    }
    if w.commits.Err? {
      return Err(w.commits.error);
    }
    ApprovedAreAccepted(w, params, pub, 0);
    AcceptedInOrder(w, params, pub, 0);
    IndicesOfAccepted(w, params, pub);
    desk.committed := desk.committed + Indices(accepted);
    if pub.Ok? && pub.value.Some? && !w.reloads {
      return Err(Unavailable);
    }
    results := RecordAll(w, params, pub, accepted, results);
    r := Ok(seq(|params|, i requires 0 <= i < |params| && results[i].Some? => results[i].value));
  }

  /** An accepted tool was locked, approved, committed, and published if its mode needs it. */
  lemma OkOutcomeIsEarned(w: Outside, params: seq<Target>, i: nat)
    requires Answers(w, |params|) && i < |params| && Commits(w, params)
    requires Expected(w, params, Publication(w, Changes(w, params)), i).Ok?
    ensures i in AcceptedSet(w, params, Publication(w, Changes(w, params)))
    ensures w.prepared[i].Ok? && w.locks.Ok? && w.prepared[i].value.review.toolId in w.locks.value
    ensures w.prepared[i].value.annotated ==> PublishedOrAgreed(w, params, params[i])
  {
    if w.prepared[i].value.annotated {
      KeptIsComplete(w, params, 0, i);
      KeptInOrder(w, params, 0);
      var kept := Kept(w, params, 0);
      var k :| 0 <= k < |kept| && kept[k].index == i;
      EditsHold(params, kept, k);
      EditsAreDistinct(params, kept);
      PublishedSetIsFramed(w.disk.value.0, w.disk.value.1, Changes(w, params));
    }
  }

  lemma {:induction false} EditsHold(params: seq<Target>, cs: seq<Candidate>, k: nat)
    requires forall c | c in cs :: c.index < |params|
    requires k < |cs| && cs[k].prepared.annotated
    ensures Edit(params[cs[k].index], cs[k].prepared.risk) in Edits(params, cs)
  {
    if k > 0 {
      EditsHold(params, cs[1..], k - 1);
    }
  }

  /** The set now in force, newly published or already so, carries the reviewed hash. */
  ghost predicate PublishedOrAgreed(w: Outside, params: seq<Target>, target: Target)
    requires Answers(w, |params|)
  {
    && w.disk.Ok?
    && var set_ := ApplyAll(w.disk.value.0, w.disk.value.1, Changes(w, params));
       && set_.Ok? && (set_.value != w.disk.value.0 ==> w.publishes.Ok?)
       && exists e :: e in Changes(w, params) && e.target == target && Agrees(set_.value, e)
  }
}
