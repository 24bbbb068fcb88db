/**
 The task service: the create transaction that locks a client's money in
 escrow, the settlement transaction that pays it to the freelancer, the
 partial-update handler whose status switch triggers settlement, and the
 Get/Delete/List handlers.
 */
module TaskService {
  import opened Wrappers
  import opened Decimal
  import opened Model
  import opened QueryBuilder
  import opened Db
  import Listing

  // ===========================================================================
  // Create

  /** What the `client.get` request made while creating a task produced. */
  datatype ClientLookup =
    | RequestFailed(err: string)  // transport error or timeout
    | Refused(message: string)    // a reply with success=false
    | Undecodable(err: string)    // the reply's data did not unmarshal
    | Found(client: Client)

  /** Driver errors of the create transaction: BEGIN, the balance write, the lock insert, the task insert. */
  datatype CreateFaults = CreateFaults(begin: Option<string>, withdraw: Fault, lock: Option<string>, insert: Fault)

  const InsufficientFunds := "Insufficient funds"
  const NoRowsEffected := "no rows effected"

  /** The billing row that locks the fee: `locked`, no freelancer, no paid date. */
  function LockRow(t: Task, txId: string): Payment {
    Payment(txId, t.clientId, None, t.id, t.fee, None, Locked)
  }

  /** The row the task INSERT writes: the eight listed columns, the other timestamps NULL. */
  function InsertedRow(t: Task): Task {
    t.(startedAt := None, deletedAt := None, updatedAt := None)
  }

  /** Every step of the create transaction goes through. */
  predicate CreateCommits(s: Store, t: Task, lookup: ClientLookup, txId: string, f: CreateFaults) {
    && lookup.Found?
    && lookup.client.balance - t.fee >= 0
    && f.begin.None?
    && f.withdraw.Healthy? && lookup.client.id in s.clients
    && f.lock.None? && !BillingIdTaken(s.billing, txId)
    && f.insert.Healthy? && t.id !in s.tasks
  }

  /**
   `New`: ask the client service for the client, refuse when its balance
   minus the fee is negative, then in one transaction write the client's new
   balance (the replied balance minus the fee), insert a locked billing row
   for the fee, and insert the task row. `txId` is the billing row's
   generated id.
   */
  function Create(s: Store, t: Task, lookup: ClientLookup, txId: string, f: CreateFaults): (r: (Store, Outcome))
    ensures r.1 == Replied(Ok) <==> CreateCommits(s, t, lookup, txId, f)
    ensures CreateCommits(s, t, lookup, txId, f) ==>
      var c := lookup.client;
      r.0 == Store(s.clients[c.id := s.clients[c.id].(balance := c.balance - t.fee)],
                   s.freelancers, s.billing + [LockRow(t, txId)], s.tasks[t.id := InsertedRow(t)])
    ensures !CreateCommits(s, t, lookup, txId, f) ==> r.0 == s
    ensures lookup.RequestFailed? ==> r.1 == Returned(lookup.err)
    ensures lookup.Refused? ==> r.1 == Replied(Fail(lookup.message))
    ensures lookup.Found? && lookup.client.balance - t.fee < 0 ==> r.1 == Returned(InsufficientFunds)
  {
    match lookup
    case RequestFailed(e) => (s, Returned(e))
    case Refused(m) => (s, Replied(Fail(m)))
    case Undecodable(e) => (s, Replied(Fail(e)))
    case Found(c) =>
      if c.balance - t.fee < 0 then (s, Returned(InsufficientFunds))
      else if f.begin.Some? then (s, Replied(Fail(f.begin.value)))
      else
        match Run(f.withdraw, if c.id in s.clients then 1 else 0)
        case ExecError(e) => (s, Replied(Fail(e)))
        case Affected(n) =>
          if n == 0 then (s, Replied(Fail(NoRowsEffected)))
          else
            var s1 := s.(clients := s.clients[c.id := s.clients[c.id].(balance := c.balance - t.fee)]);
            if f.lock.Some? then (s, Replied(Fail(f.lock.value)))
            else if BillingIdTaken(s1.billing, txId) then (s, Replied(Fail(ErrDuplicateKey)))
            else
              var s2 := s1.(billing := s1.billing + [LockRow(t, txId)]);
              match (if t.id in s2.tasks then ExecError(ErrDuplicateKey) else Run(f.insert, 1))
              case ExecError(e) => (s, Replied(Fail(e)))
              case Affected(m) =>
                if m == 0 then (s, Panicked)
                else (s2.(tasks := s2.tasks[t.id := InsertedRow(t)]), Replied(Ok))
  }

  // ===========================================================================
  // Settlement

  /** Driver errors of the settlement transaction: BEGIN, the billing update, the freelancer update. */
  datatype SettleFaults = SettleFaults(begin: Option<string>, markPaid: Fault, credit: Fault)

  /** Every step of the settlement transaction goes through. */
  predicate SettleCommits(s: Store, task: Task, f: SettleFaults) {
    && f.begin.None?
    && FirstBillingFor(s.billing, task.id).Some?
    && f.markPaid.Healthy?
    && task.freelancerId in s.freelancers
    && f.credit.Healthy?
  }

  /** The transaction rolls back on a zero-row update, and the code then returns a nil error. */
  predicate SettleZeroRows(s: Store, task: Task, f: SettleFaults) {
    && f.begin.None?
    && FirstBillingFor(s.billing, task.id).Some?
    && (f.markPaid.NoRowsAffected? || (f.markPaid.Healthy? && task.freelancerId in s.freelancers && f.credit.NoRowsAffected?))
  }

  /**
   `transferFunds`: for the stored task row `task`, mark the first billing
   row of the task paid (whatever its status), then set the task's
   freelancer's balance to its stored balance (NULL read as 0) plus the
   task's fee. Returns the store and the Go error (`None` for nil).
   */
  function TransferFunds(s: Store, task: Task, now: Time, f: SettleFaults): (r: (Store, Option<string>))
    ensures SettleCommits(s, task, f) ==>
      var i := FirstBillingFor(s.billing, task.id).value;
      var fid := task.freelancerId;
      && r.1.None?
      && r.0.billing == MarkPaid(s.billing, s.billing[i].id, fid, now)
      && r.0.billing[i] == PaidRow(s.billing[i], fid, now)
      && FreelancerBalance(r.0, fid) == FreelancerBalance(s, fid) + task.fee
      && r.0.freelancers.Keys == s.freelancers.Keys
      && (forall id :: id in s.freelancers && id != fid ==> r.0.freelancers[id] == s.freelancers[id])
      && r.0.freelancers[fid] == s.freelancers[fid].(balance := Some(FreelancerBalance(s, fid) + task.fee))
      && r.0.clients == s.clients && r.0.tasks == s.tasks
    ensures !SettleCommits(s, task, f) ==> r.0 == s
    ensures r.1.None? <==> SettleCommits(s, task, f) || SettleZeroRows(s, task, f)
    ensures f.begin.None? && FirstBillingFor(s.billing, task.id).None? ==> r.1 == Some(ErrNoRows)
  {
    if f.begin.Some? then (s, f.begin)
    else match FirstBillingFor(s.billing, task.id)
      case None => (s, Some(ErrNoRows))
      case Some(i) =>
        var txId := s.billing[i].id;
        // the row just selected is there to be changed
        match Run(f.markPaid, 1)
        case ExecError(e) => (s, Some(e))
        case Affected(n) =>
          if n == 0 then (s, None)
          else
            var s1 := s.(billing := MarkPaid(s.billing, txId, task.freelancerId, now));
            var fid := task.freelancerId;
            if fid !in s1.freelancers then (s, Some(ErrNoRows))
            else
              var total := s1.freelancers[fid].balance.GetOr(0) + task.fee;
              match Run(f.credit, 1)
              case ExecError(e) => (s, Some(e))
              case Affected(m) =>
                if m == 0 then (s, None)
                else (s1.(freelancers := s1.freelancers[fid := s1.freelancers[fid].(balance := Some(total))]), None)
  }

  // ===========================================================================
  // Partial update

  const TaskPrefix := "UPDATE task SET "

  /** The updatable fields, in the handler's order, each set when non-empty or positive. */
  function TaskFields(t: Task): seq<Field> {
    [ Field(t.fee > 0, "fee", IntArg(t.fee)),
      Field(|t.status| > 0, "status", StrArg(t.status)),
      Field(|t.description| > 0, "description", StrArg(t.description)),
      Field(|t.freelancerId| > 0, "freelancer_id", StrArg(t.freelancerId)),
      Field(t.deadline > 0, "deadline", IntArg(t.deadline)) ]
  }

  /** The request carries no updatable field. */
  predicate NothingSet(t: Task) {
    t.fee <= 0 && t.status == "" && t.description == "" && t.freelancerId == "" && t.deadline <= 0
  }

  lemma TaskFieldsUnset(t: Task)
    ensures (forall i :: 0 <= i < |TaskFields(t)| ==> !TaskFields(t)[i].isSet) <==> NothingSet(t)
  {
    var fs := TaskFields(t);
    assert !fs[0].isSet <==> t.fee <= 0;
    assert !fs[1].isSet <==> t.status == "";
    assert !fs[2].isSet <==> t.description == "";
    assert !fs[3].isSet <==> t.freelancerId == "";
    assert !fs[4].isSet <==> t.deadline <= 0;
  }

  /** The five candidate fields after the writer has run over them. */
  lemma TaskFieldsWritten(t: Task)
    ensures var b := WriteAll(Start(TaskPrefix), TaskFields(t), ", ", "");
      && b == Rendered(TaskPrefix, Selected(TaskFields(t)), ", ", "")
      && (b.text == TaskPrefix <==> NothingSet(t))
      && (!NothingSet(t) ==> 1 <= |Selected(TaskFields(t))| <= 5)
  {
    NothingWrittenIffNoneSet(TaskPrefix, TaskFields(t), ", ", "");
    TaskFieldsUnset(t);
    WriteAllRenders(TaskPrefix, TaskFields(t), ", ", "");
    SelectedEmpty(TaskFields(t));
  }

  /**
   The task handler's statement: the set fields joined by ", " (no trailing
   space), then `, updated_at=$k `, then `WHERE ID=$k+1`; `None` when nothing
   is set and no statement is run.
   */
  function BuildUpdate(t: Task, now: Time): (q: Option<Query>)
    ensures q.None? <==> NothingSet(t)
    ensures q.Some? ==>
      var sel := Selected(TaskFields(t));
      var k := |sel|;
      && 1 <= k <= 5
      && q.value.sql == TaskPrefix + Join(Clauses(sel, ""), ", ") + ", " + Clause("updated_at", k + 1, " ")
                        + "WHERE ID=" + Placeholder(k + 2)
      && q.value.args == Values(sel) + [TimeArg(now), StrArg(t.id)]
      && q.value.columns == Columns(sel) + ["updated_at"]
  {
    var b := WriteAll(Start(TaskPrefix), TaskFields(t), ", ", "");
    TaskFieldsWritten(t);
    if b.text == TaskPrefix then None
    else
      StampedStatement(t, now);
      Some(Finish(Write(b, Field(true, "updated_at", TimeArg(now)), ", ", " "), t.id))
  }

  /** With some field set, the statement after `updated_at` and the WHERE clause are appended. */
  lemma StampedStatement(t: Task, now: Time)
    requires !NothingSet(t)
    ensures var sel := Selected(TaskFields(t));
      var k := |sel|;
      var b := WriteAll(Start(TaskPrefix), TaskFields(t), ", ", "");
      var q := Finish(Write(b, Field(true, "updated_at", TimeArg(now)), ", ", " "), t.id);
      && q.sql == TaskPrefix + Join(Clauses(sel, ""), ", ") + ", " + Clause("updated_at", k + 1, " ")
                  + "WHERE ID=" + Placeholder(k + 2)
      && q.args == Values(sel) + [TimeArg(now), StrArg(t.id)]
      && q.columns == Columns(sel) + ["updated_at"]
  {
    var sel := Selected(TaskFields(t));
    var k := |sel|;
    var b := WriteAll(Start(TaskPrefix), TaskFields(t), ", ", "");
    TaskFieldsWritten(t);
    var b2 := Write(b, Field(true, "updated_at", TimeArg(now)), ", ", " ");
    assert b2.text == TaskPrefix + Join(Clauses(sel, ""), ", ") + ", " + Clause("updated_at", k + 1, " ");
    assert b2.position == k + 2;
    assert b2.args == Values(sel) + [TimeArg(now)];
  }

  /** With all five fields set the statement reads exactly so. */
  lemma AllFieldsQuery(t: Task, now: Time)
    requires t.fee > 0 && t.status != "" && t.description != "" && t.freelancerId != "" && t.deadline > 0
    ensures BuildUpdate(t, now).Some?
    ensures BuildUpdate(t, now).value.sql
         == "UPDATE task SET "
            + ("fee=$1" + ", " + "status=$2" + ", " + "description=$3" + ", " + "freelancer_id=$4" + ", " + "deadline=$5")
            + ", " + "updated_at=$6 " + "WHERE ID=$7"
    ensures BuildUpdate(t, now).value.args
         == [IntArg(t.fee), StrArg(t.status), StrArg(t.description), StrArg(t.freelancerId), IntArg(t.deadline),
             TimeArg(now), StrArg(t.id)]
  {
    AllTaskShape(t, now);
    AllTaskJoined(t);
  }

  /** All five fields are selected, so the trailer carries `$6` and `$7`. */
  lemma AllTaskShape(t: Task, now: Time)
    requires t.fee > 0 && t.status != "" && t.description != "" && t.freelancerId != "" && t.deadline > 0
    ensures BuildUpdate(t, now).Some?
    ensures BuildUpdate(t, now).value.sql
         == TaskPrefix + Join(Clauses(TaskFields(t), ""), ", ") + ", " + "updated_at=$6 " + "WHERE ID=$7"
    ensures BuildUpdate(t, now).value.args
         == [IntArg(t.fee), StrArg(t.status), StrArg(t.description), StrArg(t.freelancerId), IntArg(t.deadline),
             TimeArg(now), StrArg(t.id)]
  {
    var fs := TaskFields(t);
    AllTaskSelected(t);
    assert |Selected(fs)| == 5;
    TrailerText();
    AllTaskValues(t);
  }

  lemma AllTaskValues(t: Task)
    ensures Values(TaskFields(t))
         == [IntArg(t.fee), StrArg(t.status), StrArg(t.description), StrArg(t.freelancerId), IntArg(t.deadline)]
  {
    assert Values(TaskFields(t))[0] == IntArg(t.fee);
  }

  lemma TrailerText()
    ensures Clause("updated_at", 6, " ") == "updated_at=$6 "
    ensures Placeholder(7) == "$7"
  {
    assert NatToString(6) == "6" && NatToString(7) == "7";
  }

  lemma AllTaskSelected(t: Task)
    requires t.fee > 0 && t.status != "" && t.description != "" && t.freelancerId != "" && t.deadline > 0
    ensures Selected(TaskFields(t)) == TaskFields(t)
  {
    var fs := TaskFields(t);
    assert forall i :: 0 <= i < |fs| ==> fs[i].isSet;
    AllSetSelected(fs);
  }

  lemma AllTaskJoined(t: Task)
    ensures Join(Clauses(TaskFields(t), ""), ", ")
         == "fee=$1" + ", " + "status=$2" + ", " + "description=$3" + ", " + "freelancer_id=$4" + ", " + "deadline=$5"
  {
    var cs := Clauses(TaskFields(t), "");
    assert cs == ["fee=$1", "status=$2", "description=$3", "freelancer_id=$4", "deadline=$5"] by {
      assert NatToString(1) == "1" && NatToString(2) == "2" && NatToString(3) == "3";
      assert NatToString(4) == "4" && NatToString(5) == "5";
      assert cs[0] == Clause("fee", 1, "") == "fee=$1";
      assert cs[1] == Clause("status", 2, "") == "status=$2";
      assert cs[2] == Clause("description", 3, "") == "description=$3";
      assert cs[3] == Clause("freelancer_id", 4, "") == "freelancer_id=$4";
      assert cs[4] == Clause("deadline", 5, "") == "deadline=$5";
    }
    assert cs[..2][..1] == ["fee=$1"];
    assert Join(cs[..2], ", ") == "fee=$1" + ", " + "status=$2";
    assert cs[..3][..2] == cs[..2];
    assert Join(cs[..3], ", ") == "fee=$1" + ", " + "status=$2" + ", " + "description=$3";
    assert cs[..4][..3] == cs[..3];
    assert Join(cs[..4], ", ") == "fee=$1" + ", " + "status=$2" + ", " + "description=$3" + ", " + "freelancer_id=$4";
  }

  /** One `column=value` of a task UPDATE. */
  function SetTaskColumn(row: Task, column: string, a: Arg): Task {
    match a
    case IntArg(v) =>
      if column == "fee" then row.(fee := v) else if column == "deadline" then row.(deadline := v) else row
    case StrArg(v) =>
      if column == "status" then row.(status := v)
      else if column == "description" then row.(description := v)
      else if column == "freelancer_id" then row.(freelancerId := v)
      else row
    case TimeArg(v) => if column == "updated_at" then row.(updatedAt := Some(v)) else row
    case NullStrArg(_) => row
  }

  /** The partial-update contract: each set field replaced, the others kept. */
  function AssignedFields(row: Task, t: Task): Task {
    row.(fee := if t.fee > 0 then t.fee else row.fee,
         status := if |t.status| > 0 then t.status else row.status,
         description := if |t.description| > 0 then t.description else row.description,
         freelancerId := if |t.freelancerId| > 0 then t.freelancerId else row.freelancerId,
         deadline := if t.deadline > 0 then t.deadline else row.deadline)
  }

  /** ... and `updated_at` stamped. */
  function Assigned(row: Task, t: Task, now: Time): Task {
    AssignedFields(row, t).(updatedAt := Some(now))
  }

  lemma TaskFieldsApply(row: Task, t: Task)
    ensures ApplyFields(row, TaskFields(t), SetTaskColumn) == AssignedFields(row, t)
  {
    var fs := TaskFields(t);
    var r1 := if t.fee > 0 then row.(fee := t.fee) else row;
    var r2 := if |t.status| > 0 then r1.(status := t.status) else r1;
    var r3 := if |t.description| > 0 then r2.(description := t.description) else r2;
    var r4 := if |t.freelancerId| > 0 then r3.(freelancerId := t.freelancerId) else r3;
    assert fs[..1][..0] == [];
    assert ApplyFields(row, fs[..1], SetTaskColumn) == r1;
    assert fs[..2][..1] == fs[..1];
    assert ApplyFields(row, fs[..2], SetTaskColumn) == r2;
    assert fs[..3][..2] == fs[..2];
    assert ApplyFields(row, fs[..3], SetTaskColumn) == r3;
    assert fs[..4][..3] == fs[..3];
    assert ApplyFields(row, fs[..4], SetTaskColumn) == r4;
    assert fs[..4] == fs[..|fs| - 1];
  }

  /** The built statement's SET list, run against a row, performs exactly the partial update. */
  lemma UpdateStatementAssigns(row: Task, t: Task, now: Time)
    requires !NothingSet(t)
    ensures BuildUpdate(t, now).Some?
    ensures var q := BuildUpdate(t, now).value;
      ApplyAssignments(row, q.columns, q.args, SetTaskColumn) == Assigned(row, t, now)
  {
    var q := BuildUpdate(t, now).value;
    var sel := Selected(TaskFields(t));
    assert q.columns == Columns(sel) + ["updated_at"];
    assert q.args == Values(sel) + [TimeArg(now), StrArg(t.id)];
    SetListAssigns(row, t, now);
  }

  /** The SET list of the selected fields followed by `updated_at`, with its arguments in order. */
  lemma SetListAssigns(row: Task, t: Task, now: Time)
    ensures var sel := Selected(TaskFields(t));
      ApplyAssignments(row, Columns(sel) + ["updated_at"], Values(sel) + [TimeArg(now), StrArg(t.id)], SetTaskColumn)
        == Assigned(row, t, now)
  {
    var fs := TaskFields(t);
    var sel := Selected(fs);
    var n := |sel|;
    var columns := Columns(sel) + ["updated_at"];
    var args := Values(sel) + [TimeArg(now), StrArg(t.id)];
    var mid := ApplyAssignments(row, Columns(sel), args, SetTaskColumn);
    assert mid == AssignedFields(row, t) by {
      AssignmentsMatchFields(row, fs, [TimeArg(now), StrArg(t.id)], SetTaskColumn);
      TaskFieldsApply(row, t);
    }
    assert columns[..n] == Columns(sel);
    assert args[n] == TimeArg(now);
    assert ApplyAssignments(row, columns, args, SetTaskColumn) == SetTaskColumn(mid, "updated_at", TimeArg(now));
  }

  /** The row after the built statement runs against it. */
  function UpdatedRow(row: Task, t: Task, now: Time): (r: Task)
    requires !NothingSet(t)
    ensures r == Assigned(row, t, now)
  {
    UpdateStatementAssigns(row, t, now);
    var q := BuildUpdate(t, now).value;
    ApplyAssignments(row, q.columns, q.args, SetTaskColumn)
  }

  /**
   Runs the built statement, if any (there is none exactly when nothing is
   set); a driver error is swallowed.
   */
  function ExecUpdate(s: Store, t: Task, now: Time, execErr: Option<string>): (r: Store)
    ensures r.clients == s.clients && r.freelancers == s.freelancers && r.billing == s.billing
    ensures r.tasks.Keys == s.tasks.Keys
    ensures forall id :: id in s.tasks && id != t.id ==> r.tasks[id] == s.tasks[id]
    ensures NothingSet(t) || execErr.Some? || t.id !in s.tasks ==> r == s
    ensures !NothingSet(t) && execErr.None? && t.id in s.tasks ==> r.tasks[t.id] == Assigned(s.tasks[t.id], t, now)
  {
    if NothingSet(t) || execErr.Some? || t.id !in s.tasks then s
    else s.(tasks := s.tasks[t.id := UpdatedRow(s.tasks[t.id], t, now)])
  }

  /** Settlement's error and the UPDATE's driver error. */
  datatype UpdateFaults = UpdateFaults(settle: SettleFaults, exec: Option<string>)

  /** Status `closed` with a stored row settles; settlement's answer, when it is attempted. */
  function SettlementOf(s: Store, t: Task, now: Time, f: UpdateFaults): Option<(Store, Option<string>)> {
    if t.status == Closed && t.id in s.tasks then Some(TransferFunds(s, s.tasks[t.id], now, f.settle)) else None
  }

  /**
   `Update`: build the statement; on status `closed` settle first (a failed
   lookup of the stored task ends the handler quietly, a settlement error is
   published and ends it); then run the statement. Every path ends with the
   deferred success reply, since the errors it could report are shadowed.
   Returns the store and the replies, in publication order.
   */
  function Update(s: Store, t: Task, now: Time, f: UpdateFaults): (r: (Store, seq<Reply>))
    ensures 1 <= |r.1| <= 2 && r.1[|r.1| - 1] == Ok
    ensures |r.1| == 2 <==> SettlementOf(s, t, now, f).Some? && SettlementOf(s, t, now, f).value.1.Some?
    ensures |r.1| == 2 ==> r.1[0] == Fail(SettlementOf(s, t, now, f).value.1.value) && r.0 == s
    ensures NothingSet(t) ==> r == (s, [Ok])
    ensures r.0.clients == s.clients
    ensures t.status != Closed ==> r.0.billing == s.billing && r.0.freelancers == s.freelancers
    ensures t.status == Closed && t.id !in s.tasks ==> r == (s, [Ok])
    ensures r.0.tasks.Keys == s.tasks.Keys
    ensures forall id :: id in s.tasks && id != t.id ==> r.0.tasks[id] == s.tasks[id]
    ensures t.id in s.tasks && f.exec.None? && !NothingSet(t) && |r.1| == 1 ==>
      r.0.tasks[t.id] == Assigned(s.tasks[t.id], t, now)
    ensures t.id in s.tasks && f.exec.Some? ==> r.0.tasks == s.tasks
  {
    if |t.status| > 0 && t.status == Closed then
      if t.id !in s.tasks then (s, [Ok])
      else
        var (s1, err) := TransferFunds(s, s.tasks[t.id], now, f.settle);
        if err.Some? then (s, [Fail(err.value), Ok])
        else (ExecUpdate(s1, t, now, f.exec), [Ok])
    else (ExecUpdate(s, t, now, f.exec), [Ok])
  }

  // ===========================================================================
  // Get, Delete, List

  /** `Get`: the id check first, then the stored row (deleted or not). */
  function Get(s: Store, id: string): (r: Result<Task>)
    ensures !ValidId(id) ==> r == Failure(InvalidIdMessage)
    ensures ValidId(id) ==> (r.Success? <==> id in s.tasks)
    ensures ValidId(id) && id in s.tasks ==> r.value == s.tasks[id]
    ensures ValidId(id) && id !in s.tasks ==> r == Failure(ErrNoRows)
  {
    if !ValidId(id) then Failure(InvalidIdMessage)
    else if id !in s.tasks then Failure(ErrNoRows)
    else Success(s.tasks[id])
  }

  /** `Delete`: the id check first, then stamp `deleted_at` on the row if there is one. */
  function Delete(s: Store, id: string, now: Time, execErr: Option<string>): (r: (Store, Reply))
    ensures !ValidId(id) ==> r == (s, Fail(InvalidIdMessage))
    ensures ValidId(id) && execErr.Some? ==> r == (s, Fail(execErr.value))
    ensures ValidId(id) && execErr.None? ==> r.1 == Ok
    ensures ValidId(id) && execErr.None? && id in s.tasks ==>
      r.0 == s.(tasks := s.tasks[id := s.tasks[id].(deletedAt := Some(now))])
    ensures id !in s.tasks ==> r.0 == s
  {
    if !ValidId(id) then (s, Fail(InvalidIdMessage))
    else if execErr.Some? then (s, Fail(execErr.value))
    else if id !in s.tasks then (s, Ok)
    else (s.(tasks := s.tasks[id := s.tasks[id].(deletedAt := Some(now))]), Ok)
  }

  function CreatedAt(t: Task): int {
    t.createdAt
  }

  /** The client's tasks that are not soft-deleted. */
  function ListedTasks(s: Store, clientId: string): set<Task> {
    set t | t in s.tasks.Values && t.clientId == clientId && t.deletedAt.None?
  }

  /** `List`: the client's live tasks, each once, oldest first. */
  method List(s: Store, clientId: string) returns (r: seq<Task>)
    ensures forall t :: t in r <==> t in s.tasks.Values && t.clientId == clientId && t.deletedAt.None?
    ensures multiset(r) == multiset(ListedTasks(s, clientId))
    ensures Listing.SortedBy(r, CreatedAt)
  {
    r := Listing.SortedRows(ListedTasks(s, clientId), CreatedAt);
    forall t ensures t in r <==> t in ListedTasks(s, clientId) {
      assert t in r <==> t in multiset(r);
    }
  }
}
