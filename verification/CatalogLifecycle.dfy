/**
 The lifecycle of one catalog server: direct approvals, governed recovery, quarantine and
 manifest imports interleave over a row whose modification time is its version. A
 transaction is stamped when it begins and takes effect when it commits.
 */
module CatalogLifecycle {
  import opened Basics

  datatype Status = Proposed | Approved | Live | Quarantined | Retired

  /** The part of a server row that a transition compares. */
  datatype Row = Row(status: Status, stamp: nat)

  datatype Kind = Direct | Recovery | Quarantine | Import

  /** A committed lifecycle record: who, of what kind, when its transaction began, and the status it replaced. */
  datatype Audit = Audit(kind: Kind, approved: bool, actor: string, created: nat, replaced: Status)

  /** `version` counts the writes to the row that a reader has seen. */
  datatype Pc =
    | Start
    | Seen(target: Row, version: nat)
    | Cleared(target: Row, version: nat)
    | Begun(target: Row, version: nat, stamp: nat)
    | Writing(stamp: nat)
    | Done(updated: bool)

  datatype Run = Run(kind: Kind, actor: string, pc: Pc)

  /** `begun[t]` is the run that took stamp `t`; `written` holds the stamps the row has ever carried. */
  datatype State = State(
    two: bool, row: Row, version: nat, audits: seq<Audit>, runs: seq<Run>, begun: seq<nat>, written: set<nat>)

  /** What an import does once it holds the row. */
  datatype Effect = Effect(makesLive: bool, touches: bool, quarantinesAbsent: bool, approves: bool)

  datatype Action = Arrive(kind: Kind, actor: string) | Advance(run: nat, effect: Effect)

  // ---- the audit table -----------------------------------------------------

  /** The approval with the latest creation time, as the last-approver query orders them. */
  function Newest(audits: seq<Audit>): (r: Option<Audit>)
    ensures r.Some? ==> r.value in audits && r.value.approved
    ensures forall a | a in audits && a.approved :: r.Some? && a.created <= r.value.created
  {
    if audits == [] then None
    else
      var last := audits[|audits| - 1];
      var rest := Newest(audits[..|audits| - 1]);
      assert audits == audits[..|audits| - 1] + [last];
      if last.approved && (rest.None? || rest.value.created <= last.created) then Some(last) else rest
  }

  /** The direct promotion committed last. */
  function LastDirect(audits: seq<Audit>): (r: Option<Audit>)
    ensures r.Some? ==> r.value in audits && r.value.kind.Direct?
    ensures r.None? ==> forall a | a in audits :: !a.kind.Direct?
  {
    if audits == [] then None
    else if audits[|audits| - 1].kind.Direct? then Some(audits[|audits| - 1])
    else
      assert audits == audits[..|audits| - 1] + [audits[|audits| - 1]];
      LastDirect(audits[..|audits| - 1])
  }

  /** Somebody other than `actor` gave another kind of approval, created no earlier than `since`. */
  ghost predicate OtherApprovalSince(audits: seq<Audit>, actor: string, since: nat) {
    exists a :: a in audits && a.approved && !a.kind.Direct? && a.actor != actor && a.created >= since
  }

  /** `actor` did not make the last direct promotion, unless somebody else's approval of another kind is no older. */
  ghost predicate MayPromote(audits: seq<Audit>, actor: string) {
    var last := LastDirect(audits);
    last.None? || last.value.actor != actor || OtherApprovalSince(audits, actor, last.value.created)
  }

  // ---- steps ---------------------------------------------------------------

  function At(s: State, i: nat, pc: Pc): State
    requires i < |s.runs|
  {
    s.(runs := s.runs[i := s.runs[i].(pc := pc)])
  }

  /** A direct approval refuses a quarantined row, and recovery accepts nothing else. */
  function ReadTarget(s: State, i: nat): State
    requires i < |s.runs|
  {
    var fits := if s.runs[i].kind.Direct? then !s.row.status.Quarantined? else s.row.status.Quarantined?;
    At(s, i, if fits then Seen(s.row, s.version) else Done(false))
  }

  /** The two-approver rule is asked after the row was read. */
  function ReadLast(s: State, i: nat): State
    requires i < |s.runs| && s.runs[i].pc.Seen?
  {
    var run := s.runs[i];
    var prior := Newest(s.audits);
    if run.kind.Direct? && s.two && prior.Some? && prior.value.actor == run.actor then At(s, i, Done(false))
    else At(s, i, Cleared(run.pc.target, run.pc.version))
  }

  function Begin(s: State, i: nat): State
    requires i < |s.runs|
  {
    var pc := s.runs[i].pc;
    var stamp := |s.begun|;
    At(s, i, if pc.Cleared? then Begun(pc.target, pc.version, stamp) else Writing(stamp)).(begun := s.begun + [i])
  }

  function Write(s: State, status: Status, stamp: nat, records: seq<Audit>): State {
    s.(row := Row(status, stamp), version := s.version + 1, written := s.written + {stamp}, audits := s.audits + records)
  }

  /** The conditional update: status and modification time must still be the ones that were read. */
  function Transition(s: State, i: nat): State
    requires i < |s.runs| && s.runs[i].pc.Begun?
  {
    var run := s.runs[i];
    if s.row == run.pc.target
    then Write(At(s, i, Done(true)), Live, run.pc.stamp, [Audit(run.kind, true, run.actor, run.pc.stamp, s.row.status)])
    else At(s, i, Done(false))
  }

  /** Quarantine replaces whatever is there. */
  function Pull(s: State, i: nat): State
    requires i < |s.runs| && s.runs[i].pc.Writing?
  {
    var run := s.runs[i];
    Write(At(s, i, Done(true)), Quarantined, run.pc.stamp, [Audit(run.kind, false, run.actor, run.pc.stamp, s.row.status)])
  }

  /** An import may make the server live or touch it under a fresh time, quarantine it when absent, and record approval. */
  function Converge(s: State, i: nat, effect: Effect): State
    requires i < |s.runs| && s.runs[i].pc.Writing?
  {
    var run := s.runs[i];
    var done := At(s, i, Done(true));
    var record := Audit(Import, effect.approves, run.actor, run.pc.stamp, s.row.status);
    var approval := if effect.approves then [record] else [];
    if effect.makesLive || effect.touches then
      Write(done, if effect.makesLive then Live else s.row.status, |s.begun|, approval).(begun := s.begun + [i])
    else if effect.quarantinesAbsent && s.row.status.Live? then Write(done, Quarantined, run.pc.stamp, [record.(approved := false)])
    else done.(audits := s.audits + approval)
  }

  function AdvanceStep(s: State, i: nat, effect: Effect): State
    requires i < |s.runs|
  {
    var run := s.runs[i];
    match run.pc
    case Start => if run.kind.Direct? || run.kind.Recovery? then ReadTarget(s, i) else Begin(s, i)
    case Seen(_, _) => ReadLast(s, i)
    case Cleared(_, _) => Begin(s, i)
    case Begun(_, _, _) => Transition(s, i)
    case Writing(_) => if run.kind.Quarantine? then Pull(s, i) else Converge(s, i, effect)
    case Done(_) => s
  }

  function Step(s: State, a: Action): State {
    match a
    case Arrive(kind, actor) => s.(runs := s.runs + [Run(kind, actor, Start)])
    case Advance(i, effect) => if i < |s.runs| then AdvanceStep(s, i, effect) else s
  }

  function After(s: State, actions: seq<Action>): State
    decreases |actions|
  {
    if actions == [] then s else Step(After(s, actions[..|actions| - 1]), actions[|actions| - 1])
  }

  /** A server as first registered: its row carries the only stamp taken so far. */
  predicate Init(s: State) {
    s.row.stamp == 0 && s.version == 0 && s.audits == [] && s.runs == [] && s.begun == [0] && s.written == {0}
  }

  // ---- what every step keeps -----------------------------------------------

  ghost predicate SnapshotOk(row: Row, version: nat, written: set<nat>, target: Row, seen: nat) {
    && target.stamp in written && seen <= version
    && (seen == version ==> target == row)
    && (seen < version ==> target.stamp != row.stamp)
  }

  ghost predicate StampOk(begun: seq<nat>, written: set<nat>, i: nat, stamp: nat) {
    stamp < |begun| && begun[stamp] == i && stamp !in written
  }

  ghost predicate DirectBefore(audits: seq<Audit>, stamp: nat) {
    forall a | a in audits && a.kind.Direct? :: a.created < stamp
  }

  ghost predicate RunOk(s: State, i: nat, run: Run) {
    match run.pc
    case Seen(target, seen) =>
      SnapshotOk(s.row, s.version, s.written, target, seen) && Fits(run.kind, target)
    case Cleared(target, seen) =>
      && SnapshotOk(s.row, s.version, s.written, target, seen) && Fits(run.kind, target)
      && (run.kind.Direct? && s.two && seen == s.version ==> MayPromote(s.audits, run.actor))
    case Begun(target, seen, stamp) =>
      && SnapshotOk(s.row, s.version, s.written, target, seen) && Fits(run.kind, target)
      && StampOk(s.begun, s.written, i, stamp)
      && (run.kind.Direct? && s.two && seen == s.version ==> MayPromote(s.audits, run.actor))
      && (seen == s.version ==> DirectBefore(s.audits, stamp))
    case Writing(stamp) => StampOk(s.begun, s.written, i, stamp) && !run.kind.Direct? && !run.kind.Recovery?
    case _ => true
  }

  predicate Fits(kind: Kind, target: Row) {
    if kind.Direct? then !target.status.Quarantined? else kind.Recovery? && target.status.Quarantined?
  }

  ghost predicate AuditsOk(two: bool, audits: seq<Audit>, begun: seq<nat>) {
    && (forall a | a in audits :: a.created < |begun|)
    && (forall a | a in audits && a.approved && a.replaced.Quarantined? :: !a.kind.Direct?)
    && (forall p, q | 0 <= p < q < |audits| && audits[p].kind.Direct? && audits[q].kind.Direct? ::
          audits[p].created < audits[q].created)
    && (two ==> forall q | 0 <= q < |audits| && audits[q].kind.Direct? :: MayPromote(audits[..q], audits[q].actor))
    && (forall a | a in audits && a.kind.Direct? :: a.approved)
  }

  ghost predicate Inv(s: State) {
    && s.row.stamp in s.written && (forall t | t in s.written :: t < |s.begun|)
    && AuditsOk(s.two, s.audits, s.begun)
    && forall i | 0 <= i < |s.runs| :: RunOk(s, i, s.runs[i])
  }

  lemma {:induction false} LastDirectIsLatest(audits: seq<Audit>, k: nat)
    requires forall p, q | 0 <= p < q < |audits| && audits[p].kind.Direct? && audits[q].kind.Direct? ::
               audits[p].created < audits[q].created
    requires k < |audits| && audits[k].kind.Direct?
    ensures LastDirect(audits).Some? && audits[k].created <= LastDirect(audits).value.created
  {
    var n := |audits| - 1;
    if !audits[n].kind.Direct? {
      LastDirectIsLatest(audits[..n], k);
    }
  }

  lemma SameDirect(audits: seq<Audit>, a: Audit, b: Audit)
    requires forall p, q | 0 <= p < q < |audits| && audits[p].kind.Direct? && audits[q].kind.Direct? ::
               audits[p].created < audits[q].created
    requires a in audits && b in audits && a.kind.Direct? && b.kind.Direct? && a.created == b.created
    ensures a == b
  {
  }

  /** Passing the two-approver check means the actor may promote. */
  lemma CheckAllowsPromotion(two: bool, audits: seq<Audit>, begun: seq<nat>, actor: string)
    requires AuditsOk(two, audits, begun)
    requires Newest(audits).None? || Newest(audits).value.actor != actor
    ensures MayPromote(audits, actor)
  {
    var last, newest := LastDirect(audits), Newest(audits);
    assert last.Some? ==> last.value.approved && newest.Some? && last.value.created <= newest.value.created;
    if last.Some? && newest.value.kind.Direct? {
      var k :| 0 <= k < |audits| && audits[k] == newest.value;
      LastDirectIsLatest(audits, k);
      SameDirect(audits, newest.value, last.value);
    }
  }

  lemma ReadTargetKeeps(s: State, i: nat)
    requires Inv(s) && i < |s.runs| && (s.runs[i].kind.Direct? || s.runs[i].kind.Recovery?)
    ensures Inv(ReadTarget(s, i))
  {
  }

  lemma ReadLastKeeps(s: State, i: nat)
    requires Inv(s) && i < |s.runs| && s.runs[i].pc.Seen?
    ensures Inv(ReadLast(s, i))
  {
    assert RunOk(s, i, s.runs[i]);
    var prior := Newest(s.audits);
    if !(prior.Some? && prior.value.actor == s.runs[i].actor) {
      CheckAllowsPromotion(s.two, s.audits, s.begun, s.runs[i].actor);
    }
  }

  lemma BeginKeeps(s: State, i: nat)
    requires Inv(s) && i < |s.runs|
    requires s.runs[i].pc.Cleared? || (s.runs[i].pc.Start? && (s.runs[i].kind.Quarantine? || s.runs[i].kind.Import?))
    ensures Inv(Begin(s, i))
  {
  }

  /** A write moves the row to a stamp it never carried, so no earlier reader can match it again. */
  lemma WriteKeepsOthers(s: State, t: State, i: nat, j: nat, status: Status, stamp: nat, records: seq<Audit>)
    requires Inv(s) && i < |s.runs| && j < |s.runs| && i != j && stamp !in s.written
    requires StampOk(s.begun, s.written, i, stamp) || stamp == |s.begun|
    requires t.row == Row(status, stamp) && t.version == s.version + 1 && t.written == s.written + {stamp}
    requires t.audits == s.audits + records && s.begun <= t.begun && t.two == s.two
    ensures RunOk(t, j, s.runs[j])
  {
  }

  lemma AppendAudit(two: bool, audits: seq<Audit>, begun: seq<nat>, more: seq<nat>, audit: Audit)
    requires AuditsOk(two, audits, begun) && begun <= more && audit.created < |more|
    requires audit.kind.Direct? ==> audit.approved && !audit.replaced.Quarantined? && DirectBefore(audits, audit.created)
    requires audit.kind.Direct? && two ==> MayPromote(audits, audit.actor)
    ensures AuditsOk(two, audits + [audit], more)
  {
    var longer := audits + [audit];
    forall q | 0 <= q < |longer| && longer[q].kind.Direct? && two
      ensures MayPromote(longer[..q], longer[q].actor)
    {
      if q < |audits| {
        assert longer[..q] == audits[..q];
      } else {
        assert longer[..q] == audits;
      }
    }
  }

  lemma TransitionKeeps(s: State, i: nat)
    requires Inv(s) && i < |s.runs| && s.runs[i].pc.Begun?
    ensures Inv(Transition(s, i))
  {
    var run := s.runs[i];
    assert RunOk(s, i, run);
    var t := Transition(s, i);
    if s.row == run.pc.target {
      var audit := Audit(run.kind, true, run.actor, run.pc.stamp, s.row.status);
      AppendAudit(s.two, s.audits, s.begun, s.begun, audit);
      forall j | 0 <= j < |t.runs| && j != i
        ensures RunOk(t, j, t.runs[j])
      {
        WriteKeepsOthers(s, t, i, j, Live, run.pc.stamp, [audit]);
      }
    }
  }

  lemma PullKeeps(s: State, i: nat)
    requires Inv(s) && i < |s.runs| && s.runs[i].pc.Writing?
    ensures Inv(Pull(s, i))
  {
    var run := s.runs[i];
    assert RunOk(s, i, run);
    var t := Pull(s, i);
    var audit := Audit(run.kind, false, run.actor, run.pc.stamp, s.row.status);
    AppendAudit(s.two, s.audits, s.begun, s.begun, audit);
    forall j | 0 <= j < |t.runs| && j != i
      ensures RunOk(t, j, t.runs[j])
    {
      WriteKeepsOthers(s, t, i, j, Quarantined, run.pc.stamp, [audit]);
    }
  }

  lemma LastDirectSkips(audits: seq<Audit>, records: seq<Audit>)
    requires |records| <= 1 && forall a | a in records :: !a.kind.Direct?
    ensures LastDirect(audits + records) == LastDirect(audits)
  {
    if records == [] {
      assert audits + records == audits;
    } else {
      assert records[0] in records;
      assert (audits + records)[..|audits|] == audits;
    }
  }

  /** Recording an import's approval without a write disturbs no one. */
  lemma RecordKeepsOthers(s: State, t: State, j: nat, records: seq<Audit>)
    requires Inv(s) && j < |s.runs| && |records| <= 1 && forall a | a in records :: !a.kind.Direct?
    requires t.row == s.row && t.version == s.version && t.written == s.written && t.begun == s.begun && t.two == s.two
    requires t.audits == s.audits + records
    ensures RunOk(t, j, s.runs[j])
  {
    assert RunOk(s, j, s.runs[j]);
    LastDirectSkips(s.audits, records);
  }

  lemma ConvergeAudits(s: State, i: nat, effect: Effect)
    requires Inv(s) && i < |s.runs| && s.runs[i].pc.Writing?
    ensures var t := Converge(s, i, effect);
      && s.audits <= t.audits && |t.audits| <= |s.audits| + 1 && AuditsOk(t.two, t.audits, t.begun)
      && forall a | a in t.audits[|s.audits|..] :: !a.kind.Direct?
  {
    assert RunOk(s, i, s.runs[i]);
    var t := Converge(s, i, effect);
    if t.audits != s.audits {
      var record := t.audits[|s.audits|];
      assert t.audits == s.audits + [record];
      AppendAudit(s.two, s.audits, s.begun, t.begun, record);
    }
  }

  lemma ConvergeOthers(s: State, i: nat, effect: Effect, j: nat)
    requires Inv(s) && i < |s.runs| && s.runs[i].pc.Writing? && j < |s.runs| && j != i
    ensures RunOk(Converge(s, i, effect), j, s.runs[j])
  {
    assert RunOk(s, i, s.runs[i]);
    ConvergeAudits(s, i, effect);
    var t := Converge(s, i, effect);
    var records := t.audits[|s.audits|..];
    assert t.audits == s.audits + records;
    if t.version == s.version {
      RecordKeepsOthers(s, t, j, records);
    } else {
      WriteKeepsOthers(s, t, i, j, t.row.status, t.row.stamp, records);
    }
  }

  lemma ConvergeKeeps(s: State, i: nat, effect: Effect)
    requires Inv(s) && i < |s.runs| && s.runs[i].pc.Writing?
    ensures Inv(Converge(s, i, effect))
  {
    assert RunOk(s, i, s.runs[i]);
    var t := Converge(s, i, effect);
    ConvergeAudits(s, i, effect);
    forall j | 0 <= j < |t.runs|
      ensures RunOk(t, j, t.runs[j])
    {
      if j != i {
        ConvergeOthers(s, i, effect, j);
      }
    }
  }

  lemma StepKeeps(s: State, a: Action)
    requires Inv(s)
    ensures Inv(Step(s, a))
  {
    match a
    case Arrive(kind, actor) =>
      var t := Step(s, a);
      forall j | 0 <= j < |t.runs|
        ensures RunOk(t, j, t.runs[j])
      {
        if j < |s.runs| {
          assert RunOk(s, j, s.runs[j]);
        }
      }
    case Advance(i, effect) =>
      if i < |s.runs| {
        var run := s.runs[i];
        match run.pc
        case Start => if run.kind.Direct? || run.kind.Recovery? { ReadTargetKeeps(s, i); } else { BeginKeeps(s, i); }
        case Seen(_, _) => ReadLastKeeps(s, i);
        case Cleared(_, _) => BeginKeeps(s, i);
        case Begun(_, _, _) => TransitionKeeps(s, i);
        case Writing(_) => if run.kind.Quarantine? { PullKeeps(s, i); } else { ConvergeKeeps(s, i, effect); }
        case Done(_) =>
      }
  }

  lemma {:induction false} InvariantHolds(s: State, actions: seq<Action>)
    requires Init(s)
    ensures Inv(After(s, actions)) && After(s, actions).two == s.two
    decreases |actions|
  {
    if actions != [] {
      InvariantHolds(s, actions[..|actions| - 1]);
      StepKeeps(After(s, actions[..|actions| - 1]), actions[|actions| - 1]);
    }
  }

  // ---- over every run ------------------------------------------------------

  /**
   Under the two-approver rule, in every interleaving, whoever makes a direct promotion did not
   make the direct promotion before it, unless somebody else's approval of another kind is at
   least as recent as that one.
   */
  lemma SuccessivePromotersDiffer(s: State, actions: seq<Action>, p: nat, q: nat)
    requires Init(s) && s.two && p < q < |After(s, actions).audits|
    requires var audits := After(s, actions).audits;
      && audits[p].kind.Direct? && audits[q].kind.Direct?
      && (forall r | p < r < q :: !audits[r].kind.Direct?)
      && !OtherApprovalSince(audits[..q], audits[q].actor, audits[p].created)
    ensures After(s, actions).audits[p].actor != After(s, actions).audits[q].actor
  {
    InvariantHolds(s, actions);
    var audits := After(s, actions).audits;
    LastDirectAt(audits[..q], p);
  }

  lemma LastDirectAt(audits: seq<Audit>, p: nat)
    requires p < |audits| && audits[p].kind.Direct? && forall r | p < r < |audits| :: !audits[r].kind.Direct?
    ensures LastDirect(audits) == Some(audits[p])
  {
  }

  /** Direct promotions are stamped in the order they commit, so the query by creation time finds the last of them. */
  lemma PromotionsAreStampedInOrder(s: State, actions: seq<Action>, p: nat, q: nat)
    requires Init(s) && p < q < |After(s, actions).audits|
    requires After(s, actions).audits[p].kind.Direct? && After(s, actions).audits[q].kind.Direct?
    ensures After(s, actions).audits[p].created < After(s, actions).audits[q].created
  {
    InvariantHolds(s, actions);
  }

  /** No direct approval lifts a quarantine, even one that lands while it is under way. */
  lemma DirectNeverLiftsQuarantine(s: State, actions: seq<Action>, a: Audit)
    requires Init(s) && a in After(s, actions).audits && a.approved && a.replaced.Quarantined?
    ensures !a.kind.Direct?
  {
    InvariantHolds(s, actions);
  }

  /** A conditional update succeeds exactly when nobody wrote the row since it was read. */
  lemma TransitionSucceedsExactlyWhenUntouched(s: State, actions: seq<Action>, i: nat)
    requires Init(s) && i < |After(s, actions).runs| && After(s, actions).runs[i].pc.Begun?
    ensures var t := After(s, actions);
      Transition(t, i).runs[i].pc.updated <==> t.version == t.runs[i].pc.version
  {
    InvariantHolds(s, actions);
    var t := After(s, actions);
    assert RunOk(t, i, t.runs[i]);
  }

  // ---- the exception is real -----------------------------------------------

  /** One actor's run from arrival to commit, undisturbed. */
  function Alone(s: State, kind: Kind, actor: string): seq<Action> {
    var go := Advance(|s.runs|, Effect(false, false, false, false));
    [Arrive(kind, actor), go, go] + if kind.Quarantine? then [] else [go, go]
  }

  lemma {:induction false} AfterBoth(s: State, first: seq<Action>, second: seq<Action>)
    ensures After(s, first + second) == After(After(s, first), second)
    decreases |second|
  {
    if second == [] {
      assert first + second == first;
    } else {
      var n := |second| - 1;
      AfterBoth(s, first, second[..n]);
      assert (first + second)[..|first + second| - 1] == first + second[..n];
    }
  }

  lemma AfterTwo(s: State, a: Action, b: Action)
    ensures After(s, [a, b]) == Step(Step(s, a), b)
  {
    assert [a, b][..1] == [a];
    assert [a][..0] == [];
    assert After(s, [a]) == Step(s, a);
  }

  lemma QuarantineAlone(s: State, actor: string)
    ensures var t := After(s, Alone(s, Quarantine, actor));
      && t.row == Row(Quarantined, |s.begun|) && t.two == s.two
      && t.audits == s.audits + [Audit(Quarantine, false, actor, |s.begun|, s.row.status)]
      && |t.begun| == |s.begun| + 1
  {
    var go := Advance(|s.runs|, Effect(false, false, false, false));
    var all := Alone(s, Quarantine, actor);
    assert all[..2] == [Arrive(Quarantine, actor), go] && all[2] == go;
    AfterTwo(s, Arrive(Quarantine, actor), go);
    assert After(s, all) == Step(After(s, all[..2]), go);
  }

  lemma ReadAlone(s: State, kind: Kind, actor: string)
    requires kind.Direct? || kind.Recovery?
    requires kind.Direct? <==> !s.row.status.Quarantined?
    ensures After(s, [Arrive(kind, actor), Advance(|s.runs|, Effect(false, false, false, false))])
         == s.(runs := s.runs + [Run(kind, actor, Seen(s.row, s.version))])
  {
    AfterTwo(s, Arrive(kind, actor), Advance(|s.runs|, Effect(false, false, false, false)));
  }

  lemma ClearAlone(s: State, s2: State, kind: Kind, actor: string)
    requires s2 == s.(runs := s.runs + [Run(kind, actor, Seen(s.row, s.version))])
    requires kind.Direct? && s.two ==> Newest(s.audits).None? || Newest(s.audits).value.actor != actor
    ensures var go := Advance(|s.runs|, Effect(false, false, false, false));
      After(s2, [go, go]) == s.(begun := s.begun + [|s.runs|],
                                runs := s.runs + [Run(kind, actor, Begun(s.row, s.version, |s.begun|))])
  {
    var go := Advance(|s.runs|, Effect(false, false, false, false));
    AfterTwo(s2, go, go);
    assert Step(s2, go) == s.(runs := s.runs + [Run(kind, actor, Cleared(s.row, s.version))]);
  }

  lemma PromoteAlone(s: State, kind: Kind, actor: string)
    requires kind.Direct? || kind.Recovery?
    requires kind.Direct? <==> !s.row.status.Quarantined?
    requires kind.Direct? && s.two ==> Newest(s.audits).None? || Newest(s.audits).value.actor != actor
    ensures var t := After(s, Alone(s, kind, actor));
      && t.row == Row(Live, |s.begun|) && t.two == s.two
      && t.audits == s.audits + [Audit(kind, true, actor, |s.begun|, s.row.status)]
      && |t.begun| == |s.begun| + 1
  {
    var go := Advance(|s.runs|, Effect(false, false, false, false));
    var all := Alone(s, kind, actor);
    ReadAlone(s, kind, actor);
    var s2 := After(s, [Arrive(kind, actor), go]);
    ClearAlone(s, s2, kind, actor);
    AfterBoth(s, [Arrive(kind, actor), go], [go, go]);
    assert all[..4] == [Arrive(kind, actor), go] + [go, go] && all[4] == go;
    assert After(s, all) == Step(After(s, all[..4]), go);
  }

  lemma RuleRefuses(s: State, s2: State, actor: string)
    requires s2 == s.(runs := s.runs + [Run(Direct, actor, Seen(s.row, s.version))]) && s.two
    requires Newest(s.audits).Some? && Newest(s.audits).value.actor == actor
    ensures var go := Advance(|s.runs|, Effect(false, false, false, false));
      After(s2, [go, go]) == s.(runs := s.runs + [Run(Direct, actor, Done(false))])
  {
    var go := Advance(|s.runs|, Effect(false, false, false, false));
    AfterTwo(s2, go, go);
    assert Step(s2, go) == s.(runs := s.runs + [Run(Direct, actor, Done(false))]);
  }

  lemma StaysAway(s: State, a: Action)
    requires a.Advance? && a.run < |s.runs| && s.runs[a.run].pc.Done?
    ensures After(s, [a, a]) == s && Step(s, a) == s
  {
    AfterTwo(s, a, a);
  }

  /** A run that ended within its first four steps stays as it is. */
  lemma EndsAway(s: State, kind: Kind, actor: string, t: State)
    requires !kind.Quarantine? && |s.runs| < |t.runs| && t.runs[|s.runs|].pc.Done?
    requires var go := Advance(|s.runs|, Effect(false, false, false, false));
      After(s, [Arrive(kind, actor), go] + [go, go]) == t
    ensures After(s, Alone(s, kind, actor)) == t
  {
    var go := Advance(|s.runs|, Effect(false, false, false, false));
    StaysAway(t, go);
    AfterBoth(s, [Arrive(kind, actor), go] + [go, go], [go]);
    assert Alone(s, kind, actor) == [Arrive(kind, actor), go] + [go, go] + [go];
    assert [go][..0] == [];
  }

  lemma RefusedAlone(s: State, actor: string)
    requires !s.row.status.Quarantined? && s.two
    requires Newest(s.audits).Some? && Newest(s.audits).value.actor == actor
    ensures var t := After(s, Alone(s, Direct, actor)); t.row == s.row && t.audits == s.audits
  {
    var go := Advance(|s.runs|, Effect(false, false, false, false));
    ReadAlone(s, Direct, actor);
    RuleRefuses(s, After(s, [Arrive(Direct, actor), go]), actor);
    AfterBoth(s, [Arrive(Direct, actor), go], [go, go]);
    EndsAway(s, Direct, actor, s.(runs := s.runs + [Run(Direct, actor, Done(false))]));
  }

  lemma ReadAway(s: State, kind: Kind, actor: string)
    requires kind.Direct? || kind.Recovery?
    requires kind.Direct? <==> s.row.status.Quarantined?
    ensures After(s, [Arrive(kind, actor), Advance(|s.runs|, Effect(false, false, false, false))])
         == s.(runs := s.runs + [Run(kind, actor, Done(false))])
  {
    AfterTwo(s, Arrive(kind, actor), Advance(|s.runs|, Effect(false, false, false, false)));
  }

  lemma TurnedAway(s: State, kind: Kind, actor: string)
    requires kind.Direct? || kind.Recovery?
    requires kind.Direct? <==> s.row.status.Quarantined?
    ensures var t := After(s, Alone(s, kind, actor)); t.row == s.row && t.audits == s.audits
  {
    var go := Advance(|s.runs|, Effect(false, false, false, false));
    var away := s.(runs := s.runs + [Run(kind, actor, Done(false))]);
    ReadAway(s, kind, actor);
    StaysAway(away, go);
    AfterBoth(s, [Arrive(kind, actor), go], [go, go]);
    EndsAway(s, kind, actor, away);
  }

  /**
   Left to itself, `actor` makes a server live by direct approval exactly when the server is not
   quarantined and, under the two-approver rule, `actor` did not give the newest approval, of
   whatever kind. The record names the actor and the status it replaced.
   */
  lemma PromotesAloneExactly(s: State, actions: seq<Action>, actor: string)
    requires Init(s)
    ensures var t := After(s, actions); var u := After(t, Alone(t, Direct, actor));
      if !t.row.status.Quarantined? && (s.two ==> Newest(t.audits).None? || Newest(t.audits).value.actor != actor)
      then u.row == Row(Live, |t.begun|) && u.audits == t.audits + [Audit(Direct, true, actor, |t.begun|, t.row.status)]
      else u.row == t.row && u.audits == t.audits
  {
    InvariantHolds(s, actions);
    var t := After(s, actions);
    if t.row.status.Quarantined? {
      TurnedAway(t, Direct, actor);
    } else if t.two && Newest(t.audits).Some? && Newest(t.audits).value.actor == actor {
      RefusedAlone(t, actor);
    } else {
      PromoteAlone(t, Direct, actor);
    }
  }

  /** Left to itself, anybody recovers a quarantined server, and a server that is not quarantined is left as it is. */
  lemma RecoversAloneExactly(s: State, actor: string)
    ensures var t := After(s, Alone(s, Recovery, actor));
      if s.row.status.Quarantined?
      then t.row == Row(Live, |s.begun|) && t.audits == s.audits + [Audit(Recovery, true, actor, |s.begun|, Quarantined)]
      else t.row == s.row && t.audits == s.audits
  {
    if s.row.status.Quarantined? {
      PromoteAlone(s, Recovery, actor);
    } else {
      TurnedAway(s, Recovery, actor);
    }
  }

  lemma ThreeSteps(s: State, a: Action, b: Action, c: Action)
    ensures After(s, [a, b] + [c]) == Step(Step(Step(s, a), b), c)
  {
    AfterTwo(s, a, b);
    AfterBoth(s, [a, b], [c]);
    assert [c][..0] == [];
  }

  /** An import, undisturbed: what it does to the row, and what it records. */
  lemma ImportsExactly(s: State, actor: string, effect: Effect)
    ensures var go := Advance(|s.runs|, effect); var t := After(s, [Arrive(Import, actor), go] + [go]);
      var writes := effect.makesLive || effect.touches || (effect.quarantinesAbsent && s.row.status == Live);
      && t.row.status == (if effect.makesLive then Live
                          else if !effect.touches && effect.quarantinesAbsent && s.row.status == Live then Quarantined
                          else s.row.status)
      && (if writes then t.version == s.version + 1 && |s.begun| <= t.row.stamp < |t.begun|
          else t.version == s.version && t.row == s.row)
      && t.audits == s.audits
           + (if !effect.makesLive && !effect.touches && effect.quarantinesAbsent && s.row.status == Live
              then [Audit(Import, false, actor, |s.begun|, Live)]
              else if effect.approves then [Audit(Import, true, actor, |s.begun|, s.row.status)] else [])
  {
    var go := Advance(|s.runs|, effect);
    var open := s.(runs := s.runs + [Run(Import, actor, Writing(|s.begun|))], begun := s.begun + [|s.runs|]);
    ThreeSteps(s, Arrive(Import, actor), go, go);
    assert Step(s, Arrive(Import, actor)) == s.(runs := s.runs + [Run(Import, actor, Start)]);
    assert Step(Step(s, Arrive(Import, actor)), go) == open;
    assert Step(open, go) == Converge(open, |s.runs|, effect);
  }

  /** With a recovery between them, two successive direct promotions can have one actor. */
  lemma RecoveryLetsAnActorPromoteTwice(s: State, actor: string, other: string) returns (actions: seq<Action>)
    requires Init(s) && s.two && s.row.status.Proposed? && actor != other
    ensures var audits := After(s, actions).audits;
      && |audits| == 4
      && audits[0].kind.Direct? && audits[3].kind.Direct? && audits[0].actor == actor == audits[3].actor
      && audits[2].kind.Recovery? && audits[2].created > audits[0].created
  {
    actions := Alone(s, Direct, actor);
    PromoteAlone(s, Direct, actor);
    var t := After(s, actions);
    AfterBoth(s, actions, Alone(t, Quarantine, other));
    actions := actions + Alone(t, Quarantine, other);
    QuarantineAlone(t, other);
    t := After(s, actions);
    AfterBoth(s, actions, Alone(t, Recovery, other));
    actions := actions + Alone(t, Recovery, other);
    PromoteAlone(t, Recovery, other);
    t := After(s, actions);
    assert Newest(t.audits) == Some(t.audits[2]);
    AfterBoth(s, actions, Alone(t, Direct, actor));
    actions := actions + Alone(t, Direct, actor);
    PromoteAlone(t, Direct, actor);
  }
}
