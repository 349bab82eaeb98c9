/**
 The durable change-request row, its approval ledger and its one-time secret, with the
 conditional updates that move them. Every update is one atomic statement or transaction
 of the store; `now` is the instant that statement compares with the expiry.
 */
module ChangeStore {
  import opened Basics
  import opened ApprovalBar

  datatype Status = Pending | Approved | Executing | Executed | Failed | Denied | Expired

  /** A freshness witness: a row version for race-safe executors, a content hash for the others. */
  datatype Witness = VersionToken(version: nat) | ContentHash(content: string)

  /** What a proposal captures; nothing below ever changes it. */
  datatype Intent = Intent(
    id: nat, tenant: string, requestedBy: string, action: string,
    bar: Bar, token: Option<Witness>, createdAt: Instant, expiresAt: Instant)

  datatype Row = Row(
    intent: Intent, status: Status, approver: Option<string>, decidedAt: Option<int>,
    deniedReason: Option<string>, outcome: Option<string>)

  function NewRow(intent: Intent): Row {
    Row(intent, Pending, None, None, None, None)
  }

  /** A pending row past its expiry reads as expired although no sweep has flipped it. */
  function EffectiveStatus(row: Row, now: int): Status {
    if row.status == Pending && now >= row.intent.expiresAt then Expired else row.status
  }

  predicate Open(row: Row, now: int) {
    row.status == Pending && row.intent.expiresAt > now
  }

  // ---- conditional updates; `None` when the predicate of the update matched no row -----

  function TryApprove(row: Row, sub: string, now: int): Option<Row> {
    if Open(row, now) && row.intent.bar.required == 1
    then Some(row.(status := Approved, approver := Some(sub), decidedAt := Some(now)))
    else None
  }

  function TryDeny(row: Row, sub: string, reason: string, now: int): Option<Row> {
    if Open(row, now)
    then Some(row.(status := Denied, approver := Some(sub), decidedAt := Some(now), deniedReason := Some(reason)))
    else None
  }

  function TryBegin(row: Row): Option<Row> {
    if row.status == Approved then Some(row.(status := Executing)) else None
  }

  function MarkExecuted(row: Row, result: string): Option<Row> {
    if row.status == Executing then Some(row.(status := Executed, outcome := Some(result))) else None
  }

  function MarkFailed(row: Row, message: string): Option<Row> {
    if row.status == Executing then Some(row.(status := Failed, outcome := Some(message))) else None
  }

  datatype Progress = Progress(row: Row, ledger: seq<string>, recorded: bool, counted: bool, flipped: bool)

  /**
   One distinct approval toward an M-of-N bar, in one transaction that holds the row lock.
   The transaction began at `begun`; the openness of the row is judged again at the later
   instant `now`, and the flip compares the expiry with `begun`.
   */
  function RecordApproval(row: Row, ledger: seq<string>, sub: string, begun: int, now: int): Progress {
    var counted := Open(row, now);
    var recorded := counted && sub !in ledger;
    var ledger' := if recorded then ledger + [sub] else ledger;
    if Open(row, begun) && row.intent.bar.required <= |ledger'| then
      Progress(row.(status := Approved, approver := Some(sub), decidedAt := Some(begun)),
               ledger', recorded, counted, true)
    else
      Progress(row, ledger', recorded, counted, false)
  }

  // ---- reaching a quorum ---------------------------------------------------

  function Who(subs: seq<string>): set<string> {
    set i | 0 <= i < |subs| :: subs[i]
  }

  /** The row and ledger once each of `subs` has approved, in order. */
  function RecordEach(row: Row, subs: seq<string>, now: int): (Row, seq<string>) {
    if subs == [] then (row, [])
    else
      var n := |subs| - 1;
      var (r, ledger) := RecordEach(row, subs[..n], now);
      var p := RecordApproval(r, ledger, subs[n], now, now);
      (p.row, p.ledger)
  }

  lemma {:induction false} DistinctCount(s: seq<string>)
    requires Distinct(s)
    ensures |Who(s)| == |s|
  {
    if s != [] {
      DistinctCount(s[..|s| - 1]);
      WhoMore(s);
    }
  }

  lemma WhoMore(s: seq<string>)
    requires s != []
    ensures Who(s) == Who(s[..|s| - 1]) + {s[|s| - 1]}
  {
  }

  /** Where an open `row` stands once `subs` have approved at `now`. */
  predicate Stands(row: Row, subs: seq<string>, now: int, r: Row, ledger: seq<string>) {
    && Distinct(ledger) && Who(ledger) <= Who(subs)
    && (r.status == Approved <==> |Who(subs)| >= row.intent.bar.required)
    && (if r.status == Approved
        then 1 <= |ledger| == row.intent.bar.required
             && r == row.(status := Approved, approver := Some(ledger[|ledger| - 1]), decidedAt := Some(now))
        else r == row && Who(ledger) == Who(subs))
  }

  lemma WhoGrows(subs: seq<string>)
    requires subs != []
    ensures var before, x := Who(subs[..|subs| - 1]), subs[|subs| - 1];
            Who(subs) == before + {x} && |Who(subs)| == |before| + (if x in before then 0 else 1)
  {
    WhoMore(subs);
  }

  lemma {:induction false} StandsMore(row: Row, subs: seq<string>, now: int, r: Row, ledger: seq<string>)
    requires Open(row, now) && row.intent.bar.required >= 1 && subs != []
    requires Stands(row, subs[..|subs| - 1], now, r, ledger)
    ensures var p := RecordApproval(r, ledger, subs[|subs| - 1], now, now); Stands(row, subs, now, p.row, p.ledger)
  {
    WhoGrows(subs);
    if r.status != Approved {
      CountsMore(row, subs, now, ledger);
    }
  }

  lemma {:induction false} CountsMore(row: Row, subs: seq<string>, now: int, ledger: seq<string>)
    requires Open(row, now) && row.intent.bar.required >= 1 && subs != []
    requires Stands(row, subs[..|subs| - 1], now, row, ledger)
    ensures var p := RecordApproval(row, ledger, subs[|subs| - 1], now, now); Stands(row, subs, now, p.row, p.ledger)
  {
    var x := subs[|subs| - 1];
    WhoGrows(subs);
    DistinctCount(ledger);
    assert x in ledger <==> x in Who(ledger);
    if x !in ledger {
      var more := ledger + [x];
      assert more[..|more| - 1] == ledger;
      WhoGrows(more);
    }
  }

  /**
   However often the same operators approve an open request, it is approved exactly when as many
   distinct ones have as its bar requires. The ledger then holds just that many, each once, and
   the row names the one who made the number.
   */
  lemma {:induction false} QuorumReachedExactly(row: Row, subs: seq<string>, now: int)
    requires Open(row, now) && row.intent.bar.required >= 1
    ensures var (r, ledger) := RecordEach(row, subs, now); Stands(row, subs, now, r, ledger)
  {
    if subs != [] {
      var n := |subs| - 1;
      var (r, ledger) := RecordEach(row, subs[..n], now);
      QuorumReachedExactly(row, subs[..n], now);
      StandsMore(row, subs, now, r, ledger);
    }
  }

  // ---- the in-memory store -------------------------------------------------

  datatype Approval = Approval(change: nat, tenant: string, sub: string)

  predicate Names(row: Row, tenant: string, id: nat) {
    row.intent.tenant == tenant && row.intent.id == id
  }

  /** The approvers recorded against one change, oldest first. */
  function LedgerOf(approvals: seq<Approval>, tenant: string, id: nat): seq<string> {
    if approvals == [] then []
    else
      var last := approvals[|approvals| - 1];
      var earlier := LedgerOf(approvals[..|approvals| - 1], tenant, id);
      if last.change == id && last.tenant == tenant then earlier + [last.sub] else earlier
  }

  lemma LedgerGrows(approvals: seq<Approval>, a: Approval)
    ensures LedgerOf(approvals + [a], a.tenant, a.change) == LedgerOf(approvals, a.tenant, a.change) + [a.sub]
  {
    assert (approvals + [a])[..|approvals|] == approvals;
  }

  /** A ledger lists exactly who approved that change of that tenant ... */
  lemma {:induction false} LedgerIsExact(approvals: seq<Approval>, tenant: string, id: nat, sub: string)
    ensures sub in LedgerOf(approvals, tenant, id) <==> Approval(id, tenant, sub) in approvals
  {
    if approvals != [] {
      var n := |approvals| - 1;
      LedgerIsExact(approvals[..n], tenant, id, sub);
      assert approvals == approvals[..n] + [approvals[n]];
    }
  }

  /** ... and in the order they did. */
  lemma {:induction false} LedgerKeepsOrder(a: seq<Approval>, b: seq<Approval>, tenant: string, id: nat)
    ensures LedgerOf(a + b, tenant, id) == LedgerOf(a, tenant, id) + LedgerOf(b, tenant, id)
    decreases |b|
  {
    if b == [] {
      assert a + b == a;
    } else {
      var n := |b| - 1;
      LedgerKeepsOrder(a, b[..n], tenant, id);
      assert (a + b)[..|a + b| - 1] == a + b[..n];
    }
  }

  /** The flip to approved once enough have been collected. */
  function Flip(row: Row, collected: nat, sub: string, now: int): Option<Row> {
    if Open(row, now) && row.intent.bar.required <= collected
    then Some(row.(status := Approved, approver := Some(sub), decidedAt := Some(now)))
    else None
  }

  /** Insert, count and flip at one instant is one application of `RecordApproval`. */
  lemma RecordsAndFlips(row: Row, ledger: seq<string>, sub: string, now: int)
    ensures var p := RecordApproval(row, ledger, sub, now, now);
            && p.counted == Open(row, now) && p.recorded == (Open(row, now) && sub !in ledger)
            && p.ledger == (if p.recorded then ledger + [sub] else ledger)
            && Flip(row, |p.ledger|, sub, now) == (if p.flipped then Some(p.row) else None)
  {
  }

  predicate At(rows: seq<Row>, k: int, tenant: string, id: nat) {
    0 <= k < |rows| && Names(rows[k], tenant, id)
  }

  /** `rows` after an update that won, or lost, at position `k`. */
  function Put(rows: seq<Row>, k: nat, won: Option<Row>): seq<Row>
    requires k < |rows|
  {
    if won.Some? then rows[k := won.value] else rows
  }

  /**
   The in-memory store keeps rows in insertion order and finds them by a linear search.
   Every operation changes at most the row and the ledger of the change it names, and
   changes those as the conditional update of the same name prescribes.
   */
  class MemoryStore {
    var rows: seq<Row>
    var approvals: seq<Approval>

    ghost predicate Valid()
      reads this
    {
      forall i, j | 0 <= i < j < |rows| :: rows[i].intent.id != rows[j].intent.id
    }

    constructor ()
      ensures Valid() && rows == [] && approvals == []
    {
      rows, approvals := [], [];
    }

    /** The position of the named change, or `None` when this tenant has no such change. */
    method Find(tenant: string, id: nat) returns (at: Option<nat>)
      requires Valid()
      ensures at.Some? ==> At(rows, at.value, tenant, id)
      ensures forall k | At(rows, k, tenant, id) :: at == Some(k)
    {
      for k := 0 to |rows|
        invariant forall m | 0 <= m < k :: !At(rows, m, tenant, id)
      {
        if Names(rows[k], tenant, id) {
          return Some(k);
        }
      }
      return None;
    }

    method Propose(intent: Intent)
      requires Valid() && forall k | 0 <= k < |rows| :: rows[k].intent.id != intent.id
      modifies this`rows
      ensures Valid() && rows == old(rows) + [NewRow(intent)]
    {
      rows := rows + [NewRow(intent)];
    }

    method Approve(tenant: string, id: nat, sub: string, now: int) returns (won: Option<Row>)
      requires Valid()
      modifies this`rows
      ensures Valid()
      ensures forall k | At(old(rows), k, tenant, id) ::
                won == TryApprove(old(rows)[k], sub, now) && rows == Put(old(rows), k, won)
      ensures (forall k :: !At(old(rows), k, tenant, id)) ==> won.None? && rows == old(rows)
    {
      var at := Find(tenant, id);
      won := if at.Some? then TryApprove(rows[at.value], sub, now) else None;
      if won.Some? {
        rows := rows[at.value := won.value];
      }
    }

    method Deny(tenant: string, id: nat, sub: string, reason: string, now: int) returns (won: Option<Row>)
      requires Valid()
      modifies this`rows
      ensures Valid()
      ensures forall k | At(old(rows), k, tenant, id) ::
                won == TryDeny(old(rows)[k], sub, reason, now) && rows == Put(old(rows), k, won)
      ensures (forall k :: !At(old(rows), k, tenant, id)) ==> won.None? && rows == old(rows)
    {
      var at := Find(tenant, id);
      won := if at.Some? then TryDeny(rows[at.value], sub, reason, now) else None;
      if won.Some? {
        rows := rows[at.value := won.value];
      }
    }

    method Begin(tenant: string, id: nat) returns (won: Option<Row>)
      requires Valid()
      modifies this`rows
      ensures Valid()
      ensures forall k | At(old(rows), k, tenant, id) ::
                won == TryBegin(old(rows)[k]) && rows == Put(old(rows), k, won)
      ensures (forall k :: !At(old(rows), k, tenant, id)) ==> won.None? && rows == old(rows)
    {
      var at := Find(tenant, id);
      won := if at.Some? then TryBegin(rows[at.value]) else None;
      if won.Some? {
        rows := rows[at.value := won.value];
      }
    }

    /** Insert, count and flip under both locks: one application of `RecordApproval`. */
    method Record(tenant: string, id: nat, sub: string, now: int)
      returns (collected: nat, recorded: bool, counted: bool, flipped: Option<Row>)
      requires Valid()
      modifies this`rows, this`approvals
      ensures Valid()
      ensures (forall k :: !At(old(rows), k, tenant, id)) ==>
                rows == old(rows) && approvals == old(approvals) &&
                collected == 0 && !recorded && !counted && flipped.None?
      ensures forall k | At(old(rows), k, tenant, id) ::
                var p := RecordApproval(old(rows)[k], LedgerOf(old(approvals), tenant, id), sub, now, now);
                && rows == Put(old(rows), k, flipped)
                && flipped == (if p.flipped then Some(p.row) else None)
                && LedgerOf(approvals, tenant, id) == p.ledger && collected == |p.ledger|
                && recorded == p.recorded && counted == p.counted
      ensures approvals == old(approvals) || approvals == old(approvals) + [Approval(id, tenant, sub)]
    {
      var at := Find(tenant, id);
      if at.None? {
        return 0, false, false, None;
      }
      var row := rows[at.value];
      var ledger := List(tenant, id);
      counted := Open(row, now);
      recorded := counted && sub !in ledger;
      if recorded {
        LedgerGrows(approvals, Approval(id, tenant, sub));
        approvals := approvals + [Approval(id, tenant, sub)];
        ledger := List(tenant, id);
      }
      collected := |ledger|;
      flipped := Flip(row, collected, sub, now);
      if flipped.Some? {
        rows := rows[at.value := flipped.value];
      }
      RecordsAndFlips(row, old(LedgerOf(approvals, tenant, id)), sub, now);
    }

    method List(tenant: string, id: nat) returns (subs: seq<string>)
      ensures subs == LedgerOf(approvals, tenant, id)
    {
      subs := [];
      for k := 0 to |approvals|
        invariant subs == LedgerOf(approvals[..k], tenant, id)
      {
        assert approvals[..k + 1][..k] == approvals[..k];
        if approvals[k].change == id && approvals[k].tenant == tenant {
          subs := subs + [approvals[k].sub];
        }
      }
      assert approvals[..|approvals|] == approvals;
    }
  }
}
