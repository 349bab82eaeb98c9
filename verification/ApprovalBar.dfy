/**
 The frozen approval bar of a change request: which bars a proposal may carry and
 which approvals satisfy a carried bar. Instants are nanoseconds since the Unix epoch.
 */
module ApprovalBar {
  import opened Basics

  const NANOS := 1_000_000_000
  /** The representable date range, the years -9999 to 9999. */
  const MIN_INSTANT := -377_705_116_800 * NANOS
  const MAX_INSTANT := 253_402_300_800 * NANOS - 1
  const I64_MIN := -0x8000_0000_0000_0000
  const I64_MAX := 0x7FFF_FFFF_FFFF_FFFF

  const FACTOR_MAX_AGE_SECONDS := 300
  const FUTURE_SKEW_SECONDS := 60

  type Instant = t: int | MIN_INSTANT <= t <= MAX_INSTANT witness 0
  type I64 = n: int | I64_MIN <= n <= I64_MAX

  /** A stored factor text: `mfa`, `passkey`, `break_glass`, or any text outside the vocabulary. */
  datatype Factor = Mfa | Passkey | BreakGlass | Unknown(text: string)

  /** An eligible role: the default `dashboard-admins`, which every admin holds, or a named RBAC role. */
  datatype Role = DefaultRole | Named(name: string)

  datatype Bar = Bar(required: int, eligibleRole: Role, factors: seq<Factor>, cooldown: Option<int>)

  datatype Principal = Principal(sub: string, tenant: string, roles: seq<string>)
  datatype Session = Session(sub: string, tenant: string, authenticatedAt: Option<I64>, factors: seq<Factor>)

  datatype BarError =
    | MissingRole
    | NoSession
    | ForeignSession
    | NoAuthTime
    | AuthTimeOutOfRange
    | Stale
    | UnknownFactor
    | BreakGlassUnclaimable
    | MissingFactor(factor: Factor)
    | NegativeCooldown
    | CooldownOutOfRange
    | CooldownActive

  /** Errors that blame the stored row rather than the approver. */
  predicate BlamesRow(e: BarError) {
    e.UnknownFactor? || e.BreakGlassUnclaimable? || e.NegativeCooldown? || e.CooldownOutOfRange?
  }

  // ---- propose time --------------------------------------------------------

  predicate Enforceable(bar: Bar) {
    && bar.required >= 1
    && (bar.eligibleRole.Named? ==> bar.eligibleRole.name != "" && IsTrimmed(bar.eligibleRole.name))
    && (bar.cooldown.Some? ==> bar.cooldown.value >= 0)
    && forall f | f in bar.factors :: f == Mfa || f == Passkey
  }

  predicate FitsTtl(bar: Bar, ttlSeconds: int) {
    bar.cooldown.Some? ==> bar.cooldown.value < ttlSeconds
  }

  // ---- approve time --------------------------------------------------------

  function UnixSeconds(t: Instant): int {
    t / NANOS
  }

  function CheckRole(bar: Bar, approver: Principal): Result<(), BarError> {
    if bar.eligibleRole.Named? && bar.eligibleRole.name !in approver.roles
    then Err(MissingRole) else Ok(())
  }

  function CheckHeld(required: seq<Factor>, held: seq<Factor>): Result<(), BarError> {
    if required == [] then Ok(())
    else if required[0].Unknown? then Err(UnknownFactor)
    else if required[0].BreakGlass? then Err(BreakGlassUnclaimable)
    else if required[0] !in held then Err(MissingFactor(required[0]))
    else CheckHeld(required[1..], held)
  }

  function CheckFactors(bar: Bar, approver: Principal, session: Option<Session>, now: Instant)
    : Result<(), BarError>
  {
    if bar.factors == [] then Ok(())
    else if session.None? then Err(NoSession)
    else
      var held := session.value;
      if held.sub != approver.sub || held.tenant != approver.tenant then Err(ForeignSession)
      else if held.authenticatedAt.None? then Err(NoAuthTime)
      else
        var age := UnixSeconds(now) - held.authenticatedAt.value;
        if !(I64_MIN <= age <= I64_MAX) then Err(AuthTimeOutOfRange)
        else if !(-FUTURE_SKEW_SECONDS <= age <= FACTOR_MAX_AGE_SECONDS) then Err(Stale)
        else CheckHeld(bar.factors, held.factors)
  }

  function CheckCooldown(bar: Bar, createdAt: Instant, now: Instant): Result<(), BarError> {
    if bar.cooldown.None? then Ok(())
    else if bar.cooldown.value < 0 then Err(NegativeCooldown)
    else
      var notBefore := createdAt + bar.cooldown.value * NANOS;
      if notBefore > MAX_INSTANT then Err(CooldownOutOfRange)
      else if now < notBefore then Err(CooldownActive)
      else Ok(())
  }

  /** The approve-time check, in this order: role, then session factors, then cooldown. */
  function Enforce(bar: Bar, createdAt: Instant, approver: Principal, session: Option<Session>, now: Instant)
    : Result<(), BarError>
  {
    var role := CheckRole(bar, approver);
    if role.Err? then role
    else
      var factors := CheckFactors(bar, approver, session, now);
      if factors.Err? then factors else CheckCooldown(bar, createdAt, now)
  }

  // ---- what the check means ------------------------------------------------

  /** A session of the approver's own, signed in at most five minutes ago, or a minute ahead, that presents every required factor. */
  ghost predicate FreshEvidence(bar: Bar, approver: Principal, session: Session, now: Instant) {
    && session.sub == approver.sub && session.tenant == approver.tenant
    && session.authenticatedAt.Some?
    && session.authenticatedAt.value - 60 <= UnixSeconds(now) <= session.authenticatedAt.value + 300
    && forall f | f in bar.factors :: f in session.factors && (f == Mfa || f == Passkey)
  }

  ghost predicate MeetsBar(bar: Bar, createdAt: Instant, approver: Principal, session: Option<Session>, now: Instant) {
    && (bar.eligibleRole.Named? ==> bar.eligibleRole.name in approver.roles)
    && (bar.factors == [] || (session.Some? && FreshEvidence(bar, approver, session.value, now)))
    && (bar.cooldown.Some? ==> bar.cooldown.value >= 0 && createdAt + bar.cooldown.value * NANOS <= now)
  }

  lemma {:induction false} CheckHeldOk(required: seq<Factor>, held: seq<Factor>)
    ensures CheckHeld(required, held).Ok? <==>
            forall f | f in required :: f in held && (f == Mfa || f == Passkey)
  {
    if required != [] {
      assert required == [required[0]] + required[1..];
      assert required[0] in required;
      CheckHeldOk(required[1..], held);
    }
  }

  /** The check accepts exactly the approvals that meet the bar. */
  lemma EnforceOkExactly(bar: Bar, createdAt: Instant, approver: Principal, session: Option<Session>, now: Instant)
    ensures Enforce(bar, createdAt, approver, session, now).Ok? <==>
            MeetsBar(bar, createdAt, approver, session, now)
  {
    if session.Some? {
      CheckHeldOk(bar.factors, session.value.factors);
    }
  }

  predicate HasRole(bar: Bar, approver: Principal) {
    bar.eligibleRole.Named? ==> bar.eligibleRole.name in approver.roles
  }

  ghost predicate HasEvidence(bar: Bar, approver: Principal, session: Option<Session>, now: Instant) {
    bar.factors == [] || (session.Some? && FreshEvidence(bar, approver, session.value, now))
  }

  /** What an error about the session says of it. */
  ghost predicate EvidenceLacks(bar: Bar, approver: Principal, session: Option<Session>, now: Instant, e: BarError) {
    match e
    case NoSession => session.None?
    case ForeignSession => session.Some? && (session.value.sub != approver.sub || session.value.tenant != approver.tenant)
    case NoAuthTime => session.Some? && session.value.authenticatedAt.None?
    case AuthTimeOutOfRange => session.Some? && session.value.authenticatedAt.Some?
    case Stale =>
      && session.Some? && session.value.authenticatedAt.Some?
      && var at := session.value.authenticatedAt.value; !(at - 60 <= UnixSeconds(now) <= at + 300)
    case MissingFactor(f) => f in bar.factors && session.Some? && f !in session.value.factors
    case UnknownFactor => exists f :: f in bar.factors && f.Unknown?
    case BreakGlassUnclaimable => BreakGlass in bar.factors
    case _ => false
  }

  lemma {:induction false} HeldError(required: seq<Factor>, held: seq<Factor>)
    ensures var r := CheckHeld(required, held);
            r.Err? ==>
              || (r.error.MissingFactor? && r.error.factor in required && r.error.factor !in held)
              || (r.error == UnknownFactor && exists f :: f in required && f.Unknown?)
              || (r.error == BreakGlassUnclaimable && BreakGlass in required)
  {
    if required != [] {
      assert required[0] in required && forall f | f in required[1..] :: f in required;
      HeldError(required[1..], held);
    }
  }

  /** A refusal names the first requirement that is not met, in the order role, session, cooldown, and says what is wrong. */
  lemma RefusalExactly(bar: Bar, createdAt: Instant, approver: Principal, session: Option<Session>, now: Instant)
    ensures var r := Enforce(bar, createdAt, approver, session, now);
            && (r == Err(MissingRole) <==> !HasRole(bar, approver))
            && (HasRole(bar, approver) && !HasEvidence(bar, approver, session, now) ==>
                  r.Err? && EvidenceLacks(bar, approver, session, now, r.error))
            && (HasRole(bar, approver) && HasEvidence(bar, approver, session, now) && bar.cooldown.Some? ==>
                  var wait := bar.cooldown.value;
                  && (r == Err(NegativeCooldown) <==> wait < 0)
                  && (r == Err(CooldownOutOfRange) <==> wait >= 0 && createdAt + wait * NANOS > MAX_INSTANT)
                  && (r == Err(CooldownActive) <==> wait >= 0 && now < createdAt + wait * NANOS <= MAX_INSTANT))
  {
    if session.Some? {
      CheckHeldOk(bar.factors, session.value.factors);
      HeldError(bar.factors, session.value.factors);
    }
  }

  // ---- admitted bars -------------------------------------------------------

  /** The request stays approvable strictly longer than its cooldown runs. */
  predicate CooldownEndsBeforeExpiry(bar: Bar, createdAt: Instant, expiresAt: Instant) {
    createdAt + (if bar.cooldown.Some? then bar.cooldown.value else 0) * NANOS < expiresAt
  }

  ghost predicate Approvable(bar: Bar, createdAt: Instant, expiresAt: Instant) {
    exists approver, session, now: Instant ::
      createdAt <= now < expiresAt && Enforce(bar, createdAt, approver, session, now).Ok?
  }

  /**
   An enforceable bar can be met before expiry exactly when its cooldown ends before
   expiry, counted from the creation stamp of the stored row.
   */
  lemma AdmittedBarApprovableExactly(bar: Bar, createdAt: Instant, expiresAt: Instant)
    requires Enforceable(bar)
    ensures Approvable(bar, createdAt, expiresAt) <==> CooldownEndsBeforeExpiry(bar, createdAt, expiresAt)
  {
    var wait := if bar.cooldown.Some? then bar.cooldown.value else 0;
    if CooldownEndsBeforeExpiry(bar, createdAt, expiresAt) {
      var now: Instant := createdAt + wait * NANOS;
      var approver := Principal("a", "t", if bar.eligibleRole.Named? then [bar.eligibleRole.name] else []);
      var session := Some(Session("a", "t", Some(UnixSeconds(now)), bar.factors));
      EnforceOkExactly(bar, createdAt, approver, session, now);
    }
    if Approvable(bar, createdAt, expiresAt) {
      var approver, session, now: Instant :|
        createdAt <= now < expiresAt && Enforce(bar, createdAt, approver, session, now).Ok?;
      EnforceOkExactly(bar, createdAt, approver, session, now);
    }
  }

  /** A bar admitted for `ttl` is approvable when the row is stamped at the propose instant itself. */
  lemma PromptlyStoredBarIsApprovable(bar: Bar, ttlSeconds: nat, proposedAt: Instant, expiresAt: Instant)
    requires Enforceable(bar) && FitsTtl(bar, ttlSeconds) && ttlSeconds > 0
    requires expiresAt == proposedAt + ttlSeconds * NANOS
    ensures Approvable(bar, proposedAt, expiresAt)
  {
    AdmittedBarApprovableExactly(bar, proposedAt, expiresAt);
  }

  /**
   The admission check alone is not enough: expiry is computed before the row is stored and
   the creation stamp is taken when it is, so a slow insert can leave a bar nobody can meet.
   */
  lemma SlowInsertCanLeaveUnapprovableBar(bar: Bar, ttlSeconds: nat)
    requires bar == Bar(1, DefaultRole, [], Some(300)) && ttlSeconds == 301
    ensures Enforceable(bar) && FitsTtl(bar, ttlSeconds)
    ensures !Approvable(bar, 1 * NANOS, 0 + ttlSeconds * NANOS)
  {
  }

  /** The cooldown would end past the last representable instant. */
  predicate CooldownOverflows(bar: Bar, createdAt: Instant) {
    bar.cooldown.Some? && createdAt + bar.cooldown.value * NANOS > MAX_INSTANT
  }

  predicate Blamed(bar: Bar, createdAt: Instant, approver: Principal, session: Option<Session>, now: Instant) {
    var r := Enforce(bar, createdAt, approver, session, now);
    r.Err? && BlamesRow(r.error)
  }

  /** An admitted bar never produces an error that blames the stored row, late as it may have been stamped. */
  lemma AdmittedBarNeverBlamesRow(bar: Bar, createdAt: Instant, approver: Principal, session: Option<Session>, now: Instant)
    requires Enforceable(bar) && !CooldownOverflows(bar, createdAt)
    ensures !Blamed(bar, createdAt, approver, session, now)
  {
    if session.Some? {
      AdmittedFactorsNeverBlameRow(bar.factors, session.value.factors);
    }
  }

  /** Some approval blames an admitted row exactly when its cooldown overflows the date range. */
  lemma AdmittedRowBlamedExactly(bar: Bar, createdAt: Instant)
    requires Enforceable(bar)
    ensures (exists approver, session, now: Instant :: Blamed(bar, createdAt, approver, session, now))
       <==> CooldownOverflows(bar, createdAt)
  {
    if CooldownOverflows(bar, createdAt) {
      var approver := Principal("a", "t", if bar.eligibleRole.Named? then [bar.eligibleRole.name] else []);
      var session := Some(Session("a", "t", Some(UnixSeconds(createdAt)), bar.factors));
      CheckHeldOk(bar.factors, bar.factors);
      assert Blamed(bar, createdAt, approver, session, createdAt);
    } else {
      forall approver, session, now: Instant ensures !Blamed(bar, createdAt, approver, session, now) {
        AdmittedBarNeverBlamesRow(bar, createdAt, approver, session, now);
      }
    }
  }

  lemma {:induction false} AdmittedFactorsNeverBlameRow(required: seq<Factor>, held: seq<Factor>)
    requires forall f | f in required :: f == Mfa || f == Passkey
    ensures var r := CheckHeld(required, held); r.Err? ==> r.error.MissingFactor?
  {
    if required != [] {
      assert required[0] in required && forall f | f in required[1..] :: f in required;
      AdmittedFactorsNeverBlameRow(required[1..], held);
    }
  }
}
