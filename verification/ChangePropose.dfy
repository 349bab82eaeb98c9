/**
 Admission of a change request: the checks a proposal passes before its intent is stored,
 and the freshness witness captured with it.
 */
module ChangePropose {
  import opened Basics
  import opened ApprovalBar
  import opened ChangeStore

  const DEFAULT_TTL_SECONDS := 900
  const MAX_TTL_SECONDS := 86_400
  const MAX_JUSTIFICATION_CHARS := 500
  const DEFAULT_MAX_PARAMS_BYTES := 16 * 1024
  const DOCUMENT_MAX_PARAMS_BYTES := 384 * 1024

  /** The mutable object a change acts on. Every write gives it a version no earlier write had. */
  datatype Target = Target(version: nat, content: string)

  /**
   One registered action. `versioned` executors witness the row version, the others the
   content; `binds` executors put the witness into the predicate of their write. Approval of a
   `governed` action (policy and manifest changes) consumes an acknowledged effect preview.
   */
  datatype Executor = Executor(bar: Bar, requiresToken: bool, versioned: bool, binds: bool, governed: bool)

  type Registry = map<string, Executor>

  function Capture(e: Executor, target: Option<Target>): Option<Witness> {
    match target
    case None => None
    case Some(t) => Some(if e.versioned then VersionToken(t.version) else ContentHash(t.content))
  }

  datatype Request = Request(
    action: string, justification: string, paramsBytes: nat, paramsFit: bool, ttl: Option<nat>)

  datatype ProposeError =
    | BlankAction | UnknownAction | BlankJustification | LongJustification | ParamsTooLarge
    | ParamsMalformed | ZeroTtl | TtlTooLong | Unenforceable | CooldownOutlivesTtl
    | TargetMissing | TargetUnreadable | ClockRange

  function MaxParamsBytes(action: string): nat {
    if action in {"agent_config.create", "agent_config.update", "manifest.stage_and_publish",
                  "manifest.upsert_servers", "policy.upsert_fragment"}
    then DOCUMENT_MAX_PARAMS_BYTES else DEFAULT_MAX_PARAMS_BYTES
  }

  function ValidatePropose(registry: Registry, req: Request): Option<ProposeError> {
    if IsBlank(req.action) then Some(BlankAction)
    else if req.action !in registry then Some(UnknownAction)
    else if IsBlank(req.justification) then Some(BlankJustification)
    else if |req.justification| > MAX_JUSTIFICATION_CHARS then Some(LongJustification)
    else if req.paramsBytes > MaxParamsBytes(req.action) then Some(ParamsTooLarge)
    else if !req.paramsFit then Some(ParamsMalformed)
    else if req.ttl == Some(0) then Some(ZeroTtl)
    else if req.ttl.Some? && req.ttl.value > MAX_TTL_SECONDS then Some(TtlTooLong)
    else None
  }

  /** The witness stored with a proposal: best effort, unless the action requires one. */
  function CaptureAtPropose(registry: Registry, action: string, target: Option<Target>, readable: bool)
    : Result<Option<Witness>, ProposeError>
  {
    if action !in registry then Ok(None)
    else
      var e := registry[action];
      if !readable then (if e.requiresToken then Err(TargetUnreadable) else Ok(None))
      else if target.None? && e.requiresToken then Err(TargetMissing)
      else Ok(Capture(e, target))
  }

  /** The bar comes from the registered executor, never from the request. */
  function Propose(registry: Registry, id: nat, actor: Principal, req: Request,
                   target: Option<Target>, readable: bool, now: Instant, createdAt: Instant)
    : Result<Row, ProposeError>
  {
    var token := CaptureAtPropose(registry, req.action, target, readable);
    if token.Err? then Err(token.error)
    else
      var invalid := ValidatePropose(registry, req);
      if invalid.Some? then Err(invalid.value)
      else
        var bar := registry[req.action].bar;
        var ttl := if req.ttl.Some? then req.ttl.value else DEFAULT_TTL_SECONDS;
        var expiresAt := now + ttl * NANOS;
        if expiresAt > MAX_INSTANT then Err(ClockRange)
        else if !Enforceable(bar) then Err(Unenforceable)
        else if !FitsTtl(bar, ttl) then Err(CooldownOutlivesTtl)
        else Ok(NewRow(Intent(id, actor.tenant, actor.sub, req.action, bar, token.value, createdAt, expiresAt)))
  }

  /** A bar the approve path can enforce, and whose cooldown ends before a request lapses. */
  predicate BarFits(bar: Bar, ttl: nat) {
    && bar.required >= 1
    && (bar.eligibleRole.Named? ==>
          bar.eligibleRole.name != "" && !IsSpace(bar.eligibleRole.name[0])
          && !IsSpace(bar.eligibleRole.name[|bar.eligibleRole.name| - 1]))
    && (bar.cooldown.Some? ==> 0 <= bar.cooldown.value < ttl)
    && (forall f | f in bar.factors :: f in {Mfa, Passkey})
  }

  predicate RequestFits(req: Request) {
    && !IsBlank(req.action) && !IsBlank(req.justification) && |req.justification| <= 500
    && req.paramsFit
    && req.paramsBytes <= (if req.action in {"agent_config.create", "agent_config.update", "manifest.stage_and_publish",
                                             "manifest.upsert_servers", "policy.upsert_fragment"} then 393_216 else 16_384)
    && (req.ttl.Some? ==> 1 <= req.ttl.value <= 86_400)
  }

  function Ttl(req: Request): nat {
    if req.ttl.Some? then req.ttl.value else 900
  }

  /** What a refusal says is so. */
  predicate Explains(registry: Registry, req: Request, target: Option<Target>, readable: bool, now: Instant, e: ProposeError) {
    match e
    case BlankAction => IsBlank(req.action)
    case UnknownAction => req.action !in registry
    case BlankJustification => IsBlank(req.justification)
    case LongJustification => |req.justification| > 500
    case ParamsTooLarge => req.paramsBytes > 16_384
    case ParamsMalformed => !req.paramsFit
    case ZeroTtl => req.ttl == Some(0)
    case TtlTooLong => req.ttl.Some? && req.ttl.value > 86_400
    case Unenforceable => req.action in registry && !BarFits(registry[req.action].bar, MAX_INSTANT)
    case CooldownOutlivesTtl =>
      req.action in registry && registry[req.action].bar.cooldown.Some? && registry[req.action].bar.cooldown.value >= Ttl(req)
    case TargetMissing => req.action in registry && registry[req.action].requiresToken && target.None?
    case TargetUnreadable => req.action in registry && registry[req.action].requiresToken && !readable
    case ClockRange => now + Ttl(req) * NANOS > MAX_INSTANT
  }

  lemma ValidatedExactly(registry: Registry, req: Request)
    ensures ValidatePropose(registry, req).None? <==> RequestFits(req) && req.action in registry
  {
  }

  /**
   A proposal is stored exactly when request, bar and target fit. What is stored is pending, in
   the proposer's tenant and name, with the executor's own bar, the witness of the target as it
   was read, and an expiry its time-to-live after the propose instant. A refusal tells the truth.
   */
  lemma ProposedExactly(registry: Registry, id: nat, actor: Principal, req: Request,
                        target: Option<Target>, readable: bool, now: Instant, createdAt: Instant)
    ensures var r := Propose(registry, id, actor, req, target, readable, now, createdAt);
            && (r.Ok? <==>
                  && RequestFits(req) && req.action in registry && BarFits(registry[req.action].bar, Ttl(req))
                  && (registry[req.action].requiresToken ==> readable && target.Some?)
                  && now + Ttl(req) * NANOS <= MAX_INSTANT)
            && (r.Ok? ==>
                  var e := registry[req.action];
                  r.value == Row(Intent(id, actor.tenant, actor.sub, req.action, e.bar,
                                        if readable then Capture(e, target) else None, createdAt, now + Ttl(req) * NANOS),
                                 Pending, None, None, None, None))
            && (r.Err? ==> Explains(registry, req, target, readable, now, r.error))
  {
    ValidatedExactly(registry, req);
  }

  /**
   What storing a proposal guarantees: the executor's own enforceable bar is frozen, the
   witness is that of the target as it was read, and an action that needs a witness has one.
   */
  lemma ProposedRowIsSound(registry: Registry, id: nat, actor: Principal, req: Request,
                           target: Option<Target>, readable: bool, now: Instant, createdAt: Instant)
    ensures var r := Propose(registry, id, actor, req, target, readable, now, createdAt);
            r.Ok? ==>
              var intent := r.value.intent;
              && intent.action in registry && intent.bar == registry[intent.action].bar
              && Enforceable(intent.bar)
              && (intent.token.Some? ==> intent.token == Capture(registry[intent.action], target))
              && (registry[intent.action].requiresToken ==> intent.token.Some?)
              && (createdAt == now ==> Approvable(intent.bar, intent.createdAt, intent.expiresAt))
  {
    var r := Propose(registry, id, actor, req, target, readable, now, createdAt);
    if r.Ok? && createdAt == now {
      var ttl := if req.ttl.Some? then req.ttl.value else DEFAULT_TTL_SECONDS;
      PromptlyStoredBarIsApprovable(r.value.intent.bar, ttl, now, r.value.intent.expiresAt);
    }
  }
}
