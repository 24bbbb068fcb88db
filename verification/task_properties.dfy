/**
 Properties that relate several task-service operations: where the money
 goes on create and on settlement, what repeated or stale operations do, and
 the create / assign / close scenario end to end.
 */
module TaskProperties {
  import opened Wrappers
  import opened Model
  import opened Db
  import opened TaskService

  /**
   With a reply that matches the stored client row, creating a task moves
   exactly the fee from the client's balance into its escrow: the debit equals
   the locked amount, and the client's funds are conserved.
   */
  lemma CreateConservesFunds(s: Store, t: Task, c: Client, txId: string, f: CreateFaults)
    requires CreateCommits(s, t, Found(c), txId, f)
    requires c.id == t.clientId && s.clients[c.id].balance == c.balance
    ensures var s' := Create(s, t, Found(c), txId, f).0;
      && ClientBalance(s, c.id) - ClientBalance(s', c.id) == t.fee
      && LockedFor(s'.billing, c.id) - LockedFor(s.billing, c.id) == t.fee
      && Funds(s', c.id) == Funds(s, c.id)
  {
    LockedForAppend(s.billing, LockRow(t, txId), c.id);
  }

  /**
   The balance write is absolute, computed from the replied balance: two
   creates answered with the same reply both lock their fee, but the client is
   debited only the second fee, so its funds grow by the first.
   */
  lemma StaleReplyLosesDebit(s: Store, t1: Task, t2: Task, c: Client, tx1: string, tx2: string, f: CreateFaults)
    requires CreateCommits(s, t1, Found(c), tx1, f)
    requires CreateCommits(Create(s, t1, Found(c), tx1, f).0, t2, Found(c), tx2, f)
    requires c.id == t1.clientId == t2.clientId && s.clients[c.id].balance == c.balance
    ensures var s2 := Create(Create(s, t1, Found(c), tx1, f).0, t2, Found(c), tx2, f).0;
      && ClientBalance(s2, c.id) == c.balance - t2.fee
      && LockedFor(s2.billing, c.id) == LockedFor(s.billing, c.id) + t1.fee + t2.fee
      && Funds(s2, c.id) == Funds(s, c.id) + t1.fee
  {
    var s1 := Create(s, t1, Found(c), tx1, f).0;
    LockedForAppend(s.billing, LockRow(t1, tx1), c.id);
    LockedForAppend(s1.billing, LockRow(t2, tx2), c.id);
  }

  /**
   A committed create leaves exactly one billing row for the task (when it had
   none), and it is the locked row that settlement will select.
   */
  lemma CreateLocksOneRow(s: Store, t: Task, lookup: ClientLookup, txId: string, f: CreateFaults)
    requires CreateCommits(s, t, lookup, txId, f)
    requires FirstBillingFor(s.billing, t.id).None?
    ensures var b := Create(s, t, lookup, txId, f).0.billing;
      && FirstBillingFor(b, t.id) == Some(|s.billing|)
      && b[|s.billing|] == LockRow(t, txId)
      && forall k :: 0 <= k < |b| && b[k].taskId == t.id ==> k == |s.billing|
  {
    var b := Create(s, t, lookup, txId, f).0.billing;
    assert b == s.billing + [LockRow(t, txId)];
    assert forall k :: 0 <= k < |s.billing| ==> b[k] == s.billing[k];
    assert b[|s.billing|].taskId == t.id;
  }

  /** Selecting by task id sees only task ids. */
  lemma {:induction false} FirstBillingForSameTasks(b1: seq<Payment>, b2: seq<Payment>, taskId: string)
    requires |b1| == |b2|
    requires forall k :: 0 <= k < |b1| ==> b1[k].taskId == b2[k].taskId
    ensures FirstBillingFor(b1, taskId) == FirstBillingFor(b2, taskId)
    decreases |b1|
  {
    if |b1| > 0 && b1[0].taskId != taskId {
      FirstBillingForSameTasks(b1[1..], b2[1..], taskId);
    }
  }

  /**
   Settlement releases the selected locked row's amount from its client's
   escrow and credits the freelancer with the stored task's fee; the two agree
   exactly when the fee has not changed since the row was locked.
   */
  lemma SettlementReleasesEscrow(s: Store, task: Task, now: Time, f: SettleFaults)
    requires WellKeyed(s)
    requires SettleCommits(s, task, f)
    requires s.billing[FirstBillingFor(s.billing, task.id).value].status == Locked
    ensures var p := s.billing[FirstBillingFor(s.billing, task.id).value];
      var s' := TransferFunds(s, task, now, f).0;
      && LockedFor(s.billing, p.clientId) - LockedFor(s'.billing, p.clientId) == p.amount
      && FreelancerBalance(s', task.freelancerId) - FreelancerBalance(s, task.freelancerId) == task.fee
      && (p.amount == task.fee <==>
          LockedFor(s.billing, p.clientId) - LockedFor(s'.billing, p.clientId)
          == FreelancerBalance(s', task.freelancerId) - FreelancerBalance(s, task.freelancerId))
  {
    var i := FirstBillingFor(s.billing, task.id).value;
    var p := s.billing[i];
    LockedAfterMarkPaid(s.billing, p.id, task.freelancerId, now, i, p.clientId);
  }

  /**
   The billing row is chosen by task id alone, so settling a task a second
   time finds the already-paid row again and credits the freelancer again.
   */
  lemma SettlingTwiceCreditsTwice(s: Store, task: Task, now: Time, later: Time)
    requires SettleCommits(s, task, SettleFaults(None, Healthy, Healthy))
    ensures var f := SettleFaults(None, Healthy, Healthy);
      var s1 := TransferFunds(s, task, now, f).0;
      var s2 := TransferFunds(s1, task, later, f);
      && s2.1.None?
      && FreelancerBalance(s2.0, task.freelancerId) == FreelancerBalance(s, task.freelancerId) + 2 * task.fee
  {
    var f := SettleFaults(None, Healthy, Healthy);
    var i := FirstBillingFor(s.billing, task.id).value;
    var s1 := TransferFunds(s, task, now, f).0;
    FirstBillingForSameTasks(s.billing, s1.billing, task.id);
    assert SettleCommits(s1, task, f);
  }

  /**
   Closing settles against the stored task row: a request that assigns a
   freelancer and closes at once, on a task stored without one, fails
   settlement (no such freelancer), publishes that failure and then success,
   and changes nothing.
   */
  lemma CloseUsesStoredFreelancer(s: Store, t: Task, now: Time, f: UpdateFaults)
    requires t.status == Closed && t.id in s.tasks
    requires s.tasks[t.id].freelancerId == "" && "" !in s.freelancers
    requires f.settle.begin.None? && f.settle.markPaid.Healthy?
    requires FirstBillingFor(s.billing, t.id).Some?
    ensures Update(s, t, now, f) == (s, [Fail(ErrNoRows), Ok])
  {
  }

  /**
   A close whose settlement commits credits the stored fee, marks the billing
   row paid and then writes the request's fields, with status `closed`.
   */
  lemma CloseSettlesThenWrites(s: Store, t: Task, now: Time, f: UpdateFaults)
    requires t.status == Closed && t.id in s.tasks && f.exec.None?
    requires SettleCommits(s, s.tasks[t.id], f.settle)
    ensures var task := s.tasks[t.id];
      var i := FirstBillingFor(s.billing, task.id).value;
      var r := Update(s, t, now, f);
      && r.1 == [Ok]
      && FreelancerBalance(r.0, task.freelancerId) == FreelancerBalance(s, task.freelancerId) + task.fee
      && r.0.billing[i].status == Paid
      && r.0.tasks[t.id] == Assigned(task, t, now)
      && r.0.tasks[t.id].status == Closed
  {
    var task := s.tasks[t.id];
    var (s1, err) := TransferFunds(s, task, now, f.settle);
    assert err.None?;
    assert Update(s, t, now, f) == (ExecUpdate(s1, t, now, f.exec), [Ok]);
    assert s1.tasks == s.tasks;
  }

  /** A request that sets only the fee changes only the fee and `updated_at`. */
  lemma FeeOnlyUpdate(s: Store, t: Task, now: Time, f: UpdateFaults)
    requires t.fee > 0 && t.status == "" && t.description == "" && t.freelancerId == "" && t.deadline <= 0
    requires t.id in s.tasks && f.exec.None?
    ensures var r := Update(s, t, now, f);
      && r.1 == [Ok]
      && r.0 == s.(tasks := s.tasks[t.id := s.tasks[t.id].(fee := t.fee, updatedAt := Some(now))])
  {
    var r := Update(s, t, now, f);
    assert r.0.tasks == s.tasks[t.id := s.tasks[t.id].(fee := t.fee, updatedAt := Some(now))];
  }

  /** An update request as a caller builds it: only the id and the fields it means to change. */
  function Request(id: string): Task {
    Task(id, "", "", "", 0, 0, "", None, None, None, 0)
  }

  /**
   The scenario end to end: a client with enough money creates a task, a
   freelancer is assigned, the task is closed. The client ends with its
   balance minus the fee, the freelancer gains the fee, the escrow row is
   paid, and every reply is a success.
   */
  lemma CreateAssignClose(s: Store, c: Client, t: Task, fl: string, txId: string, now: Time, later: Time)
    requires c.id in s.clients && s.clients[c.id] == c && t.clientId == c.id
    requires c.balance >= t.fee
    requires t.id !in s.tasks && !BillingIdTaken(s.billing, txId) && FirstBillingFor(s.billing, t.id).None?
    requires fl != "" && fl in s.freelancers
    ensures var healthy := UpdateFaults(SettleFaults(None, Healthy, Healthy), None);
      var (s1, o1) := Create(s, t, Found(c), txId, CreateFaults(None, Healthy, None, Healthy));
      var (s2, o2) := Update(s1, Request(t.id).(freelancerId := fl), now, healthy);
      var (s3, o3) := Update(s2, Request(t.id).(status := Closed), later, healthy);
      && o1 == Replied(Ok) && o2 == [Ok] && o3 == [Ok]
      && ClientBalance(s3, c.id) == c.balance - t.fee
      && FreelancerBalance(s3, fl) == FreelancerBalance(s, fl) + t.fee
      && s3.billing[|s.billing|].status == Paid
      && s3.billing[|s.billing|].freelancerId == Some(fl)
      && s3.tasks[t.id].status == Closed && s3.tasks[t.id].freelancerId == fl
  {
    var healthy := UpdateFaults(SettleFaults(None, Healthy, Healthy), None);
    var cf := CreateFaults(None, Healthy, None, Healthy);
    assert CreateCommits(s, t, Found(c), txId, cf);
    var s1 := Create(s, t, Found(c), txId, cf).0;
    CreateLocksOneRow(s, t, Found(c), txId, cf);
    var assign := Request(t.id).(freelancerId := fl);
    var s2 := Update(s1, assign, now, healthy).0;
    assert s2.tasks[t.id] == Assigned(s1.tasks[t.id], assign, now);
    assert s2.billing == s1.billing && s2.freelancers == s1.freelancers;
    var close := Request(t.id).(status := Closed);
    assert SettleCommits(s2, s2.tasks[t.id], healthy.settle);
    CloseSettlesThenWrites(s2, close, later, healthy);
  }
}
