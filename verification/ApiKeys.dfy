/**
 API keys under profile ceilings: minting, editing, revoking, and profile deletion interleave.
 Each store statement is one step; the checks before it may be stale by the time it runs.
 */
module ApiKeys {
  import opened Basics

  /** Times are in nanoseconds. */
  const SECOND: nat := 1_000_000_000

  datatype Profile = Profile(allowed: set<string>, maxTtl: nat, requiresOwner: bool, requiresReason: bool)

  /** `bound` is the profile the key was minted under and `minted` when; neither is a column an edit could reach. */
  datatype Key = Key(
    scopes: set<string>, groups: set<string>, expires: Option<nat>, owner: Option<string>, reason: Option<string>, revoked: bool,
    profile: Option<nat>, bound: Option<nat>, minted: nat)

  datatype Pc =
    | Minting(profile: Option<nat>)
    | Cleared(profile: Option<nat>)
    | Loading(key: nat)
    | Loaded(key: nat, profile: Option<nat>, row: Key)
    | Approved(key: nat, profile: Option<nat>)
    | Finished(done: bool)

  /** A request in flight. The grants, scopes and groups, are the normalised ones it asks for. */
  datatype Run = Run(scopes: set<string>, groups: set<string>, expires: Option<nat>, owner: Option<string>, reason: Option<string>, pc: Pc)

  /** `archive` remembers every profile ever created; their identifiers are never used again. */
  datatype State = State(
    clock: nat, profiles: set<nat>, archive: seq<Profile>, keys: map<nat, Key>, nextKey: nat, runs: seq<Run>)

  datatype Action =
    | Tick(elapsed: nat)
    | Create(definition: Profile)
    | Delete(profile: nat, begun: nat)
    | Revoke(key: nat)
    | Sweep(key: nat, due: bool)
    | Mint(request: Run)
    | Edit(key: nat, scopes: set<string>, groups: set<string>)
    | Advance(run: nat, refused: bool)

  predicate Live(k: Key, now: nat) {
    !k.revoked && (k.expires.Some? ==> k.expires.value > now)
  }

  // ---- the ceiling ---------------------------------------------------------

  predicate Missing(text: Option<string>) {
    text.None? || IsBlank(text.value)
  }

  /** Whole seconds left until `expires`. */
  function Left(expires: nat, now: nat): nat {
    if expires > now then (expires - now) / SECOND else 0
  }

  /** What a profile lets a key be: within its scopes, expiring soon enough, and accounted for. */
  predicate Within(p: Profile, scopes: set<string>, expires: Option<nat>, owner: Option<string>, reason: Option<string>, now: nat) {
    && scopes <= p.allowed
    && expires.Some? && Left(expires.value, now) <= p.maxTtl
    && (p.requiresOwner ==> !Missing(owner)) && (p.requiresReason ==> !Missing(reason))
  }

  predicate Fits(s: State, profile: Option<nat>, scopes: set<string>, expires: Option<nat>, owner: Option<string>, reason: Option<string>) {
    profile.Some? ==> profile.value in s.profiles && profile.value < |s.archive|
                      && Within(s.archive[profile.value], scopes, expires, owner, reason, s.clock)
  }

  // ---- steps ---------------------------------------------------------------

  function At(s: State, i: nat, pc: Pc): State
    requires i < |s.runs|
  {
    s.(runs := s.runs[i := s.runs[i].(pc := pc)])
  }

  /** The row goes in only while the profile it names still exists. */
  function Insert(s: State, i: nat): State
    requires i < |s.runs| && s.runs[i].pc.Cleared?
  {
    var run := s.runs[i];
    var p := run.pc.profile;
    if p.Some? && p.value !in s.profiles then At(s, i, Finished(false))
    else
      var key := Key(run.scopes, run.groups, run.expires, run.owner, run.reason, false, p, p, s.clock);
      At(s, i, Finished(true)).(keys := s.keys[s.nextKey := key], nextKey := s.nextKey + 1)
  }

  /** The conditional write: only a row that is not revoked takes new grants. */
  function Update(s: State, i: nat): State
    requires i < |s.runs| && s.runs[i].pc.Approved?
  {
    var run := s.runs[i];
    var k := run.pc.key;
    if k in s.keys && !s.keys[k].revoked
    then At(s, i, Finished(true)).(keys := s.keys[k := s.keys[k].(scopes := run.scopes, groups := run.groups)])
    else At(s, i, Finished(false))
  }

  function AdvanceStep(s: State, i: nat, refused: bool): State
    requires i < |s.runs|
  {
    var run := s.runs[i];
    if run.pc.Finished? then s
    else if refused then At(s, i, Finished(false))
    else match run.pc
      case Minting(p) =>
        At(s, i, if Fits(s, p, run.scopes, run.expires, run.owner, run.reason) then Cleared(p) else Finished(false))
      case Cleared(_) => Insert(s, i)
      case Loading(k) => At(s, i, if k in s.keys then Loaded(k, s.keys[k].profile, s.keys[k]) else Finished(false))
      case Loaded(k, p, row) =>
        At(s, i, if Fits(s, p, run.scopes, row.expires, row.owner, row.reason) then Approved(k, p) else Finished(false))
      case Approved(_, _) => Update(s, i)
      case Finished(_) => s
  }

  predicate References(k: Key, profile: nat) {
    k.profile == Some(profile)
  }

  /** Deletion is blocked by a live reference, judged at the statement's own start, and detaches the rest. */
  function DeleteStep(s: State, p: nat, begun: nat): State {
    if p !in s.profiles || begun > s.clock || exists k :: k in s.keys && References(s.keys[k], p) && Live(s.keys[k], begun)
    then s
    else s.(profiles := s.profiles - {p},
            keys := map k | k in s.keys :: if References(s.keys[k], p) then s.keys[k].(profile := None) else s.keys[k])
  }

  predicate Expired(k: Key, now: nat) {
    k.expires.Some? && k.expires.value <= now
  }

  function Step(s: State, a: Action): State {
    match a
    case Tick(n) => s.(clock := s.clock + n)
    case Create(profile) => s.(profiles := s.profiles + {|s.archive|}, archive := s.archive + [profile])
    case Delete(p, begun) => DeleteStep(s, p, begun)
    case Revoke(k) => if k in s.keys then s.(keys := s.keys[k := s.keys[k].(revoked := true)]) else s
    case Sweep(k, due) => if due && k in s.keys && (s.keys[k].revoked || Expired(s.keys[k], s.clock)) then s.(keys := s.keys - {k}) else s
    case Mint(run) => if run.pc.Minting? && run.scopes != {} then s.(runs := s.runs + [run]) else s
    case Edit(k, scopes, groups) =>
      if scopes != {} then s.(runs := s.runs + [Run(scopes, groups, None, None, None, Loading(k))]) else s
    case Advance(i, refused) => if i < |s.runs| then AdvanceStep(s, i, refused) else s
  }

  function After(s: State, actions: seq<Action>): State
    decreases |actions|
  {
    if actions == [] then s else Step(After(s, actions[..|actions| - 1]), actions[|actions| - 1])
  }

  predicate Init(s: State) {
    s.profiles == {} && s.archive == [] && s.keys == map[] && s.nextKey == 0 && s.runs == []
  }

  // ---- what every step keeps -----------------------------------------------

  predicate BoundOk(archive: seq<Profile>, bound: nat, expires: Option<nat>, owner: Option<string>, reason: Option<string>, minted: nat) {
    && bound < |archive| && expires.Some? && expires.value < minted + (archive[bound].maxTtl + 1) * SECOND
    && (archive[bound].requiresOwner ==> owner.Some? && !IsBlank(owner.value))
    && (archive[bound].requiresReason ==> reason.Some? && !IsBlank(reason.value))
  }

  predicate KeyOk(clock: nat, profiles: set<nat>, archive: seq<Profile>, k: Key) {
    && k.minted <= clock
    && (k.bound.Some? ==> BoundOk(archive, k.bound.value, k.expires, k.owner, k.reason, k.minted))
    && (k.bound.Some? && Live(k, clock) ==> k.profile == k.bound)
    && (k.profile.Some? ==>
          k.profile == k.bound && k.profile.value in profiles && k.profile.value < |archive|
          && k.scopes <= archive[k.profile.value].allowed)
  }

  predicate RunOk(s: State, run: Run) {
    match run.pc
    case Cleared(p) =>
      p.Some? ==> BoundOk(s.archive, p.value, run.expires, run.owner, run.reason, s.clock) && run.scopes <= s.archive[p.value].allowed
    case Loaded(k, p, row) => k < s.nextKey && SameBinding(s, k, p)
    case Approved(k, p) =>
      k < s.nextKey && SameBinding(s, k, p)
      && (p.Some? ==> p.value < |s.archive| && run.scopes <= s.archive[p.value].allowed)
    case _ => true
  }

  /** A row's profile is what was read, or has since been detached. */
  predicate SameBinding(s: State, k: nat, p: Option<nat>) {
    k in s.keys ==> s.keys[k].profile == p || s.keys[k].profile.None?
  }

  ghost predicate Inv(s: State) {
    && (forall p | p in s.profiles :: p < |s.archive|)
    && (forall k | k in s.keys :: k < s.nextKey)
    && (forall k | k in s.keys :: KeyOk(s.clock, s.profiles, s.archive, s.keys[k]))
    && (forall i | 0 <= i < |s.runs| :: RunOk(s, s.runs[i]))
  }

  /** A fitting key expires less than a second past its ceiling. */
  lemma FitsBounds(s: State, p: nat, run: Run)
    requires Fits(s, Some(p), run.scopes, run.expires, run.owner, run.reason)
    ensures BoundOk(s.archive, p, run.expires, run.owner, run.reason, s.clock)
  {
  }

  /** Moving a request touches nothing but its own place. */
  lemma MoveKeeps(s: State, i: nat, pc: Pc)
    requires Inv(s) && i < |s.runs| && RunOk(s, s.runs[i].(pc := pc))
    ensures Inv(At(s, i, pc))
  {
  }

  lemma InsertKeeps(s: State, i: nat)
    requires Inv(s) && i < |s.runs| && s.runs[i].pc.Cleared?
    ensures Inv(Insert(s, i))
  {
  }

  lemma UpdateKeeps(s: State, i: nat)
    requires Inv(s) && i < |s.runs| && s.runs[i].pc.Approved?
    ensures Inv(Update(s, i))
  {
  }

  lemma AdvanceKeeps(s: State, i: nat, refused: bool)
    requires Inv(s) && i < |s.runs|
    ensures Inv(AdvanceStep(s, i, refused))
  {
    var run := s.runs[i];
    assert RunOk(s, run);
    if run.pc.Finished? {
    } else if refused {
      MoveKeeps(s, i, Finished(false));
    } else {
      match run.pc
      case Minting(p) =>
        if Fits(s, p, run.scopes, run.expires, run.owner, run.reason) {
          if p.Some? {
            FitsBounds(s, p.value, run);
          }
          MoveKeeps(s, i, Cleared(p));
        } else {
          MoveKeeps(s, i, Finished(false));
        }
      case Cleared(_) => InsertKeeps(s, i);
      case Loading(k) => MoveKeeps(s, i, AdvanceStep(s, i, refused).runs[i].pc);
      case Loaded(k, p, row) => MoveKeeps(s, i, AdvanceStep(s, i, refused).runs[i].pc);
      case Approved(_, _) => UpdateKeeps(s, i);
      case Finished(_) =>
    }
  }

  lemma DeleteKeeps(s: State, p: nat, begun: nat)
    requires Inv(s)
    ensures Inv(DeleteStep(s, p, begun))
  {
  }

  lemma TickKeeps(s: State, n: nat)
    requires Inv(s)
    ensures Inv(s.(clock := s.clock + n))
  {
  }

  lemma StepKeeps(s: State, a: Action)
    requires Inv(s)
    ensures Inv(Step(s, a))
  {
    match a
    case Tick(n) => TickKeeps(s, n);
    case Delete(p, begun) => DeleteKeeps(s, p, begun);
    case Advance(i, refused) => if i < |s.runs| { AdvanceKeeps(s, i, refused); }
    case Create(profile) =>
      var t := Step(s, a);
      forall k | k in t.keys
        ensures KeyOk(t.clock, t.profiles, t.archive, t.keys[k])
      {
        assert KeyOk(s.clock, s.profiles, s.archive, s.keys[k]);
      }
      forall j | 0 <= j < |t.runs|
        ensures RunOk(t, t.runs[j])
      {
        assert RunOk(s, s.runs[j]);
      }
    case _ =>
      var t := Step(s, a);
      forall j | 0 <= j < |s.runs|
        ensures RunOk(t, s.runs[j])
      {
        assert RunOk(s, s.runs[j]);
      }
  }

  lemma {:induction false} InvariantHolds(s: State, actions: seq<Action>)
    requires Init(s)
    ensures Inv(After(s, actions))
    decreases |actions|
  {
    if actions != [] {
      InvariantHolds(s, actions[..|actions| - 1]);
      StepKeeps(After(s, actions[..|actions| - 1]), actions[|actions| - 1]);
    }
  }

  /**
   In every run, a live key minted under a profile still names it, the profile still exists,
   its scopes are within the profile's, it expires within the profile's time, and it names the
   owner and reason the profile asks for.
   */
  lemma LiveKeysStayUnderTheirCeiling(s: State, actions: seq<Action>, k: nat)
    requires Init(s) && k in After(s, actions).keys
    ensures var t := After(s, actions); var key := t.keys[k];
      key.bound.Some? && Live(key, t.clock) ==>
        && key.profile == key.bound && key.bound.value in t.profiles && key.bound.value < |t.archive|
        && key.scopes <= t.archive[key.bound.value].allowed
        && key.expires.Some? && key.expires.value < key.minted + (t.archive[key.bound.value].maxTtl + 1) * SECOND
        && (t.archive[key.bound.value].requiresOwner ==> key.owner.Some? && !IsBlank(key.owner.value))
        && (t.archive[key.bound.value].requiresReason ==> key.reason.Some? && !IsBlank(key.reason.value))
  {
    InvariantHolds(s, actions);
  }

  // ---- what never changes --------------------------------------------------

  predicate KeyEvolves(a: Key, b: Key) {
    && b.expires == a.expires && b.bound == a.bound && b.minted == a.minted && b.owner == a.owner && b.reason == a.reason
    && (b.profile == a.profile || b.profile.None?)
    && (a.revoked ==> b.revoked && b.scopes == a.scopes && b.groups == a.groups)
  }

  ghost predicate Evolves(s: State, t: State) {
    && s.archive <= t.archive && s.nextKey <= t.nextKey && s.clock <= t.clock
    && (forall k | k in s.keys && k in t.keys :: KeyEvolves(s.keys[k], t.keys[k]))
    && (forall k | k in t.keys :: k in s.keys || k >= s.nextKey)
  }

  lemma AdvanceEvolves(s: State, i: nat, refused: bool)
    requires Inv(s) && i < |s.runs|
    ensures Evolves(s, AdvanceStep(s, i, refused))
  {
  }

  lemma DeleteEvolves(s: State, p: nat, begun: nat)
    requires Inv(s)
    ensures Evolves(s, DeleteStep(s, p, begun))
  {
  }

  lemma StepEvolves(s: State, a: Action)
    requires Inv(s)
    ensures Evolves(s, Step(s, a))
  {
    if a.Advance? {
      if a.run < |s.runs| {
        AdvanceEvolves(s, a.run, a.refused);
      }
    } else if a.Delete? {
      DeleteEvolves(s, a.profile, a.begun);
    }
  }

  lemma EvolvesCompose(s: State, t: State, u: State)
    requires Inv(s) && Evolves(s, t) && Evolves(t, u)
    ensures Evolves(s, u)
  {
  }

  lemma {:induction false} RunsEvolve(s: State, actions: seq<Action>)
    requires Inv(s)
    ensures Inv(After(s, actions)) && Evolves(s, After(s, actions))
    decreases |actions|
  {
    if actions != [] {
      var t := After(s, actions[..|actions| - 1]);
      RunsEvolve(s, actions[..|actions| - 1]);
      StepKeeps(t, actions[|actions| - 1]);
      StepEvolves(t, actions[|actions| - 1]);
      EvolvesCompose(s, t, After(s, actions));
    }
  }

  /**
   From any reachable state on: a revoked key stays revoked with the grants it had, expiry and
   binding never change, and a key that is still live has kept its profile.
   */
  lemma KeysKeepTheirTerms(s: State, actions: seq<Action>, more: seq<Action>, k: nat)
    requires Init(s)
    requires k in After(s, actions).keys && k in After(After(s, actions), more).keys
    ensures var a, t := After(s, actions).keys[k], After(After(s, actions), more); var b := t.keys[k];
      && (a.revoked ==> b.revoked && b.scopes == a.scopes && b.groups == a.groups)
      && b.expires == a.expires && b.bound == a.bound
      && (b.bound.Some? && Live(b, t.clock) ==> b.profile == a.profile)
  {
    InvariantHolds(s, actions);
    RunsEvolve(After(s, actions), more);
    var a, t := After(s, actions).keys[k], After(After(s, actions), more);
    assert KeyEvolves(a, t.keys[k]);
    assert KeyOk(t.clock, t.profiles, t.archive, t.keys[k]);
  }

  // ---- what each operation achieves ----------------------------------------

  lemma {:induction false} AfterBoth(s: State, first: seq<Action>, second: seq<Action>)
    ensures After(s, first + second) == After(After(s, first), second)
    decreases |second|
  {
    if second == [] {
      assert first + second == first;
    } else {
      var n := |second| - 1;
      AfterBoth(s, first, second[..n]);
      assert (first + second)[..|first + second| - 1] == first + second[..n];
    }
  }

  lemma AfterOne(s: State, a: Action)
    ensures After(s, [a]) == Step(s, a)
  {
    assert [a][..0] == [];
  }

  /** Revoking touches one key, and in every continuation that key is gone or dead, with the grants it had. */
  lemma RevocationIsFinal(s: State, actions: seq<Action>, k: nat, more: seq<Action>)
    requires Init(s) && k in After(s, actions).keys
    ensures var t := After(s, actions); var key := t.keys[k];
            && After(t, [Revoke(k)]) == t.(keys := t.keys[k := key.(revoked := true)])
            && var u := After(t, [Revoke(k)] + more);
               k in u.keys ==> !Live(u.keys[k], u.clock) && u.keys[k].scopes == key.scopes && u.keys[k].groups == key.groups
  {
    var t := After(s, actions);
    InvariantHolds(s, actions);
    AfterOne(t, Revoke(k));
    StepKeeps(t, Revoke(k));
    AfterBoth(t, [Revoke(k)], more);
    RunsEvolve(After(t, [Revoke(k)]), more);
    if k in After(t, [Revoke(k)] + more).keys {
      assert KeyEvolves(After(t, [Revoke(k)]).keys[k], After(t, [Revoke(k)] + more).keys[k]);
    }
  }

  /** A request that reports success has made exactly the change it asked for. */
  predicate Lands(s: State, t: State, i: nat)
    requires i < |s.runs|
  {
    var run := s.runs[i];
    match run.pc
    case Cleared(p) =>
      t.keys == s.keys[s.nextKey := Key(run.scopes, run.groups, run.expires, run.owner, run.reason, false, p, p, s.clock)]
    case Approved(k, _) => k in s.keys && t.keys == s.keys[k := s.keys[k].(scopes := run.scopes, groups := run.groups)]
    case _ => false
  }

  /** In any interleaving, the step that ends a mint or an edit with success makes the change. */
  lemma SuccessLandsExactly(s: State, a: Action, i: nat)
    requires i < |s.runs| && s.runs[i].pc != Finished(true)
    ensures var t := Step(s, a);
            && i < |t.runs|
            && (t.runs[i].pc == Finished(true) ==> a.Advance? && a.run == i && Lands(s, t, i))
  {
  }

  /** Only an edit that ends with success changes what a key grants. */
  lemma GrantsChangeOnlyByEdit(s: State, a: Action, k: nat)
    requires Inv(s) && k in s.keys && k in Step(s, a).keys
    requires Step(s, a).keys[k].scopes != s.keys[k].scopes || Step(s, a).keys[k].groups != s.keys[k].groups
    ensures a.Advance? && a.run < |s.runs| && s.runs[a.run].pc.Approved? && s.runs[a.run].pc.key == k
    ensures Step(s, a).runs[a.run].pc == Finished(true)
  {
  }

  /** No step takes away a live key. */
  lemma LiveKeysStay(s: State, a: Action, k: nat)
    requires Inv(s) && k in s.keys && k !in Step(s, a).keys
    ensures a == Sweep(k, true) && (s.keys[k].revoked || (s.keys[k].expires.Some? && s.keys[k].expires.value <= s.clock))
  {
  }

  /** A key is swept exactly when it is revoked or has expired and its retention is over, and no other is touched. */
  lemma SweepsExactly(s: State, k: nat, due: bool)
    ensures Step(s, Sweep(k, due))
         == if due && k in s.keys && !Live(s.keys[k], s.clock) then s.(keys := s.keys - {k}) else s
  {
  }

  /** What a profile allows, with the time left given as an instant. */
  predicate Allows(p: Profile, scopes: set<string>, expires: Option<nat>, owner: Option<string>, reason: Option<string>, now: nat) {
    && (forall x | x in scopes :: x in p.allowed)
    && expires.Some? && expires.value < now + (p.maxTtl + 1) * SECOND
    && (p.requiresOwner ==> owner.Some? && !IsBlank(owner.value))
    && (p.requiresReason ==> reason.Some? && !IsBlank(reason.value))
  }

  lemma WithinExactly(p: Profile, scopes: set<string>, expires: Option<nat>, owner: Option<string>, reason: Option<string>, now: nat)
    ensures Within(p, scopes, expires, owner, reason, now) <==> Allows(p, scopes, expires, owner, reason, now)
  {
  }

  predicate Mintable(s: State, run: Run)
    requires run.pc.Minting?
  {
    var p := run.pc.profile;
    run.scopes != {} && (p.Some? ==> p.value in s.profiles && p.value < |s.archive|
                                     && Allows(s.archive[p.value], run.scopes, run.expires, run.owner, run.reason, s.clock))
  }

  lemma AfterThree(s: State, a: Action, b: Action, c: Action)
    ensures After(s, [a, b, c]) == Step(Step(Step(s, a), b), c)
  {
    AfterOne(s, a);
    assert [a, b] == [a] + [b] && [a, b, c] == [a, b] + [c];
    AfterBoth(s, [a], [b]);
    AfterOne(Step(s, a), b);
    AfterBoth(s, [a, b], [c]);
    AfterOne(Step(Step(s, a), b), c);
  }

  /** Undisturbed, a mint makes its key exactly when it asks for something and the profile it names exists and allows it. */
  lemma MintSucceedsExactly(s: State, run: Run)
    requires run.pc.Minting?
    ensures var go := Advance(|s.runs|, false); var t := After(s, [Mint(run), go, go]);
            t.keys == if Mintable(s, run)
                      then s.keys[s.nextKey := Key(run.scopes, run.groups, run.expires, run.owner, run.reason, false,
                                                   run.pc.profile, run.pc.profile, s.clock)]
                      else s.keys
  {
    var n, p := |s.runs|, run.pc.profile;
    AfterThree(s, Mint(run), Advance(n, false), Advance(n, false));
    if p.Some? && p.value < |s.archive| {
      WithinExactly(s.archive[p.value], run.scopes, run.expires, run.owner, run.reason, s.clock);
    }
    if run.scopes != {} {
      var begun := Step(s, Mint(run));
      assert begun.runs[n] == run;
      var checked := Step(begun, Advance(n, false));
      assert checked == begun.(runs := begun.runs[n := run.(pc := checked.runs[n].pc)]);
      assert checked.runs[n].pc == if Mintable(s, run) then Cleared(p) else Finished(false);
    }
  }

  predicate Editable(s: State, k: nat, scopes: set<string>) {
    && scopes != {} && k in s.keys && !s.keys[k].revoked
    && var key := s.keys[k];
       key.profile.Some? ==> key.profile.value in s.profiles && key.profile.value < |s.archive|
                             && Allows(s.archive[key.profile.value], scopes, key.expires, key.owner, key.reason, s.clock)
  }

  /** The state once an edit of `k` has come to `pc`. */
  function Editing(s: State, scopes: set<string>, groups: set<string>, pc: Pc): State {
    s.(runs := s.runs + [Run(scopes, groups, None, None, None, pc)])
  }

  lemma EditReads(s: State, k: nat, scopes: set<string>, groups: set<string>)
    ensures Step(Editing(s, scopes, groups, Loading(k)), Advance(|s.runs|, false))
         == Editing(s, scopes, groups, if k in s.keys then Loaded(k, s.keys[k].profile, s.keys[k]) else Finished(false))
  {
  }

  lemma EditChecks(s: State, k: nat, p: Option<nat>, row: Key, scopes: set<string>, groups: set<string>)
    ensures Step(Editing(s, scopes, groups, Loaded(k, p, row)), Advance(|s.runs|, false))
         == Editing(s, scopes, groups, if Fits(s, p, scopes, row.expires, row.owner, row.reason) then Approved(k, p) else Finished(false))
  {
  }

  lemma EditStops(s: State, scopes: set<string>, groups: set<string>)
    ensures Step(Editing(s, scopes, groups, Finished(false)), Advance(|s.runs|, false)) == Editing(s, scopes, groups, Finished(false))
  {
  }

  lemma EditLoads(s: State, k: nat, scopes: set<string>, groups: set<string>)
    requires scopes != {}
    ensures var go := Advance(|s.runs|, false);
            After(s, [Edit(k, scopes, groups), go, go])
            == Editing(s, scopes, groups,
                       if k in s.keys && Fits(s, s.keys[k].profile, scopes, s.keys[k].expires, s.keys[k].owner, s.keys[k].reason)
                       then Approved(k, s.keys[k].profile) else Finished(false))
  {
    var go := Advance(|s.runs|, false);
    AfterThree(s, Edit(k, scopes, groups), go, go);
    assert Step(s, Edit(k, scopes, groups)) == Editing(s, scopes, groups, Loading(k));
    EditReads(s, k, scopes, groups);
    if k in s.keys {
      EditChecks(s, k, s.keys[k].profile, s.keys[k], scopes, groups);
    } else {
      EditStops(s, scopes, groups);
    }
  }

  lemma EditWrites(s: State, k: nat, scopes: set<string>, groups: set<string>)
    ensures Step(Editing(s, scopes, groups, Approved(k, if k in s.keys then s.keys[k].profile else None)), Advance(|s.runs|, false)).keys
         == if k in s.keys && !s.keys[k].revoked then s.keys[k := s.keys[k].(scopes := scopes, groups := groups)] else s.keys
  {
  }

  /** Undisturbed, an edit replaces the grants exactly when it asks for something the key's profile still allows, and the key is not revoked. */
  lemma EditSucceedsExactly(s: State, k: nat, scopes: set<string>, groups: set<string>)
    ensures var go := Advance(|s.runs|, false); var t := After(s, [Edit(k, scopes, groups), go, go] + [go]);
            t.keys == if Editable(s, k, scopes) then s.keys[k := s.keys[k].(scopes := scopes, groups := groups)] else s.keys
  {
    var go := Advance(|s.runs|, false);
    AfterBoth(s, [Edit(k, scopes, groups), go, go], [go]);
    AfterOne(After(s, [Edit(k, scopes, groups), go, go]), go);
    if scopes == {} {
      AfterThree(s, Edit(k, scopes, groups), go, go);
    } else {
      EditLoads(s, k, scopes, groups);
      EditWrites(s, k, scopes, groups);
      EditStops(s, scopes, groups);
      if k in s.keys && s.keys[k].profile.Some? && s.keys[k].profile.value < |s.archive| {
        var key := s.keys[k];
        WithinExactly(s.archive[key.profile.value], scopes, key.expires, key.owner, key.reason, s.clock);
      }
    }
  }

  /** A profile is deleted exactly when no live key names it, and then every key that named it is detached and otherwise as it was. */
  lemma DeletionSucceedsExactly(s: State, p: nat)
    requires Inv(s) && p in s.profiles
    ensures var t := Step(s, Delete(p, s.clock));
            && (p !in t.profiles <==>
                  forall k | k in s.keys && s.keys[k].profile == Some(p) :: s.keys[k].revoked || Expired(s.keys[k], s.clock))
            && t.profiles == (if p in t.profiles then s.profiles else s.profiles - {p}) && t.keys.Keys == s.keys.Keys
            && (forall k | k in s.keys ::
                  t.keys[k] == if p !in t.profiles && s.keys[k].profile == Some(p) then s.keys[k].(profile := None) else s.keys[k])
  {
    if forall k | k in s.keys && s.keys[k].profile == Some(p) :: s.keys[k].revoked || Expired(s.keys[k], s.clock) {
      assert forall k | k in s.keys && References(s.keys[k], p) :: !Live(s.keys[k], s.clock);
    }
  }

  /** A new profile gets an identifier of its own and is kept as it was defined. */
  lemma CreationIsKept(s: State, actions: seq<Action>, definition: Profile, more: seq<Action>)
    requires Init(s)
    ensures var t := After(s, actions); var id, u := |t.archive|, After(t, [Create(definition)] + more);
            && id !in t.profiles && id in After(t, [Create(definition)]).profiles
            && id < |u.archive| && u.archive[id] == definition
  {
    var t := After(s, actions);
    InvariantHolds(s, actions);
    AfterOne(t, Create(definition));
    StepKeeps(t, Create(definition));
    AfterBoth(t, [Create(definition)], more);
    RunsEvolve(After(t, [Create(definition)]), more);
  }
}
