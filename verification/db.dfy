/**
 The relational store shared by the services, as plain values: client,
 freelancer and task tables keyed by id, and the billing (escrow) table in
 insertion order. Statement outcomes that depend on the database driver
 rather than on the rows are supplied as `Fault` values.
 */
module Db {
  import opened Wrappers
  import opened Model

  datatype Store = Store(
    clients: map<string, Client>,
    freelancers: map<string, Freelancer>,
    billing: seq<Payment>,
    tasks: map<string, Task>)

  /**
   How the database answers one statement: as the rows dictate (`Healthy`),
   with a driver error, or with zero rows changed although the rows were there
   (another session removed them in between).
   */
  datatype Fault = Healthy | ExecFails(err: string) | NoRowsAffected

  /** The result of `Exec` followed by `RowsAffected`. */
  datatype ExecResult = ExecError(err: string) | Affected(rows: nat)

  /** Runs a statement that would change `rows` rows under fault `f`. */
  function Run(f: Fault, rows: nat): ExecResult {
    match f
    case Healthy => Affected(rows)
    case ExecFails(e) => ExecError(e)
    case NoRowsAffected => Affected(0)
  }

  /** Text of `sql.ErrNoRows`. */
  const ErrNoRows := "sql: no rows in result set"

  /** Text of a primary-key violation. */
  const ErrDuplicateKey := "pq: duplicate key value violates unique constraint"

  /**
   What a handler did with its request: published one reply, returned an
   error without replying, or panicked (calling `Error()` on a nil error).
   */
  datatype Outcome = Replied(reply: Reply) | Returned(err: string) | Panicked

  /** Every row is stored under its own id, and billing ids are a primary key. */
  predicate WellKeyed(s: Store) {
    && (forall id :: id in s.clients ==> s.clients[id].id == id)
    && (forall id :: id in s.freelancers ==> s.freelancers[id].id == id)
    && (forall id :: id in s.tasks ==> s.tasks[id].id == id)
    && (forall i, j :: 0 <= i < j < |s.billing| ==> s.billing[i].id != s.billing[j].id)
  }

  predicate BillingIdTaken(b: seq<Payment>, id: string) {
    exists k :: 0 <= k < |b| && b[k].id == id
  }

  /** `SELECT id FROM billing WHERE task_id=$1`: the first matching row, by position. */
  function FirstBillingFor(b: seq<Payment>, taskId: string): (r: Option<nat>)
    ensures r.Some? ==> r.value < |b| && b[r.value].taskId == taskId
    ensures r.Some? ==> forall k :: 0 <= k < r.value ==> b[k].taskId != taskId
    ensures r.None? <==> forall k :: 0 <= k < |b| ==> b[k].taskId != taskId
  {
    if |b| == 0 then None
    else if b[0].taskId == taskId then Some(0)
    else match FirstBillingFor(b[1..], taskId)
      case None => None
      case Some(i) => Some(i + 1)
  }

  /** One billing row after `status=paid, paid_date=now, freelancer_id=...`. */
  function PaidRow(p: Payment, freelancerId: string, now: Time): Payment {
    p.(status := Paid, paidDate := Some(now), freelancerId := Some(freelancerId))
  }

  /** `UPDATE billing SET status=..., paid_date=..., freelancer_id=... WHERE id=txId`. */
  function MarkPaid(b: seq<Payment>, txId: string, freelancerId: string, now: Time): seq<Payment> {
    seq(|b|, k requires 0 <= k < |b| => if b[k].id == txId then PaidRow(b[k], freelancerId, now) else b[k])
  }

  /** Money held in escrow for a client: the amounts of its `locked` billing rows. */
  function LockedFor(b: seq<Payment>, clientId: string): int
    decreases |b|
  {
    if |b| == 0 then 0
    else
      var p := b[|b| - 1];
      LockedFor(b[..|b| - 1], clientId) + (if p.clientId == clientId && p.status == Locked then p.amount else 0)
  }

  /** A client's balance (0 when there is no row). */
  function ClientBalance(s: Store, id: string): int {
    if id in s.clients then s.clients[id].balance else 0
  }

  /** A freelancer's balance as settlement reads it: NULL, or no row, counts as 0. */
  function FreelancerBalance(s: Store, id: string): int {
    if id in s.freelancers then s.freelancers[id].balance.GetOr(0) else 0
  }

  /** A client's money: spendable balance plus what is locked in escrow for it. */
  function Funds(s: Store, clientId: string): int {
    ClientBalance(s, clientId) + LockedFor(s.billing, clientId)
  }

  lemma {:induction false} LockedForAppend(b: seq<Payment>, p: Payment, clientId: string)
    ensures LockedFor(b + [p], clientId)
         == LockedFor(b, clientId) + (if p.clientId == clientId && p.status == Locked then p.amount else 0)
  {
    assert (b + [p])[..|b + [p]| - 1] == b;
  }

  lemma {:induction false} MarkPaidAbsent(b: seq<Payment>, txId: string, freelancerId: string, now: Time)
    requires forall k :: 0 <= k < |b| ==> b[k].id != txId
    ensures MarkPaid(b, txId, freelancerId, now) == b
  {
  }

  /**
   Paying the one billing row with id `txId` takes its amount out of its
   client's escrow if it was locked, and leaves every other client's escrow
   as it was.
   */
  lemma {:induction false} LockedAfterMarkPaid(b: seq<Payment>, txId: string, freelancerId: string, now: Time, i: nat, clientId: string)
    requires i < |b| && b[i].id == txId
    requires forall k :: 0 <= k < |b| && k != i ==> b[k].id != txId
    ensures LockedFor(MarkPaid(b, txId, freelancerId, now), clientId)
         == LockedFor(b, clientId) - (if b[i].clientId == clientId && b[i].status == Locked then b[i].amount else 0)
    decreases |b|
  {
    var n := |b|;
    var m := MarkPaid(b, txId, freelancerId, now);
    var init := b[..n - 1];
    assert m[..n - 1] == MarkPaid(init, txId, freelancerId, now);
    if i == n - 1 {
      MarkPaidAbsent(init, txId, freelancerId, now);
    } else {
      LockedAfterMarkPaid(init, txId, freelancerId, now, i, clientId);
    }
  }
}
