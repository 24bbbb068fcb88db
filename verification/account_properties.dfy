/**
 Properties that cross the three services: identifiers made by `NewId`
 against the handlers' id checks, rows written by `New` read back by `Get`,
 and a freelancer inserted without a balance receiving its first fee.
 */
module AccountProperties {
  import opened Wrappers
  import opened Model
  import opened Db
  import TaskService
  import ClientService
  import FreelancerService

  /**
   An identifier whose generation failed is the empty string, and every Get
   and Delete handler rejects it before touching the store.
   */
  lemma FailedIdIsRejected(s: Store, now: Time, execErr: Option<string>)
    ensures TaskService.Get(s, NewId(None)) == Failure(InvalidIdMessage)
    ensures ClientService.Get(s, NewId(None)) == Failure(InvalidIdMessage)
    ensures FreelancerService.Get(s, NewId(None)) == Failure(InvalidIdMessage)
    ensures TaskService.Delete(s, NewId(None), now, execErr) == (s, Fail(InvalidIdMessage))
    ensures ClientService.Delete(s, NewId(None), now, execErr) == (s, Fail(InvalidIdMessage))
    ensures FreelancerService.Delete(s, NewId(None), now, execErr) == (s, Fail(InvalidIdMessage))
  {
  }

  /**
   A task submitted with a generated id and created in full is read back by
   `Get` exactly as submitted: a fresh task has no timestamps for the INSERT
   to drop.
   */
  lemma CreatedTaskIsRetrievable(s: Store, u: Uuid, deadline: Duration, fee: int, clientId: string,
                                 description: string, now: Time, lookup: TaskService.ClientLookup,
                                 txId: string, f: TaskService.CreateFaults)
    requires var t := NewTask(deadline, fee, clientId, description, NewId(Some(u)), now);
      TaskService.CreateCommits(s, t, lookup, txId, f)
    ensures var t := NewTask(deadline, fee, clientId, description, NewId(Some(u)), now);
      TaskService.Get(TaskService.Create(s, t, lookup, txId, f).0, t.id) == Success(t)
  {
    var t := NewTask(deadline, fee, clientId, description, NewId(Some(u)), now);
    assert TaskService.InsertedRow(t) == t;
  }

  /** A client inserted under a generated id is read back with its email and balance. */
  lemma AddedClientIsRetrievable(s: Store, u: Uuid, email: string, balance: int)
    requires NewId(Some(u)) !in s.clients
    ensures var c := NewClient(email, balance, NewId(Some(u)));
      var r := ClientService.Add(s, c, Healthy);
      && r.1 == Replied(Ok)
      && ClientService.Get(r.0, c.id) == Success(c)
  {
  }

  /**
   A freelancer inserted under a generated id is read back with its
   description, details and email, and with no balance.
   */
  lemma AddedFreelancerIsRetrievable(s: Store, u: Uuid, email: string, description: string, details: string)
    requires NewId(Some(u)) !in s.freelancers
    ensures var fl := NewFreelancer(email, description, details, NewId(Some(u)));
      var r := FreelancerService.Add(s, fl, Healthy);
      && r.1 == Replied(Ok)
      && FreelancerService.Get(r.0, fl.id) == Success(fl)
      && FreelancerBalance(r.0, fl.id) == 0
  {
  }

  /**
   The balance column starts NULL, and settlement reads NULL as zero: the
   first fee a new freelancer is paid becomes its whole balance.
   */
  lemma FirstFeeBecomesBalance(s: Store, fl: Freelancer, task: Task, now: Time, f: TaskService.SettleFaults)
    requires fl.id !in s.freelancers && task.freelancerId == fl.id
    requires TaskService.SettleCommits(FreelancerService.Add(s, fl, Healthy).0, task, f)
    ensures var s1 := FreelancerService.Add(s, fl, Healthy).0;
      TaskService.TransferFunds(s1, task, now, f).0.freelancers[fl.id].balance == Some(task.fee)
  {
    var s1 := FreelancerService.Add(s, fl, Healthy).0;
    assert s1.freelancers[fl.id].balance.None?;
    assert FreelancerBalance(s1, fl.id) == 0;
  }

  /**
   A soft-deleted task is still read back by `Get`, now with `deleted_at`
   set, but it drops out of its client's list and every other listed task
   stays.
   */
  lemma DeletedTaskLeavesList(s: Store, id: string, now: Time, clientId: string)
    requires WellKeyed(s) && ValidId(id) && id in s.tasks
    ensures var s' := TaskService.Delete(s, id, now, None).0;
      && TaskService.Get(s', id) == Success(s.tasks[id].(deletedAt := Some(now)))
      && TaskService.ListedTasks(s', clientId) == (set t | t in TaskService.ListedTasks(s, clientId) && t.id != id)
  {
    var s' := TaskService.Delete(s, id, now, None).0;
    var before := TaskService.ListedTasks(s, clientId);
    var after := TaskService.ListedTasks(s', clientId);
    forall t | t in after ensures t in before && t.id != id {
      var k :| k in s'.tasks && s'.tasks[k] == t;
      assert k != id;
      assert s.tasks[k] == t;
    }
    forall t | t in before && t.id != id ensures t in after {
      var k :| k in s.tasks && s.tasks[k] == t;
      assert s'.tasks[k] == t;
    }
  }

  /** A soft-deleted client is still read back by `Get`, but no longer listed; every other live client is. */
  lemma DeletedClientLeavesList(s: Store, id: string, now: Time)
    requires WellKeyed(s) && ValidId(id) && id in s.clients
    ensures var s' := ClientService.Delete(s, id, now, None).0;
      && ClientService.Get(s', id) == Success(s.clients[id].(deletedAt := Some(now)))
      && ClientService.LiveClients(s') == (set c | c in ClientService.LiveClients(s) && c.id != id)
  {
    var s' := ClientService.Delete(s, id, now, None).0;
    var before := ClientService.LiveClients(s);
    var after := ClientService.LiveClients(s');
    forall c | c in after ensures c in before && c.id != id {
      var k :| k in s'.clients && s'.clients[k] == c;
      assert k != id;
      assert s.clients[k] == c;
    }
    forall c | c in before && c.id != id ensures c in after {
      var k :| k in s.clients && s.clients[k] == c;
      assert s'.clients[k] == c;
    }
  }

  /** A soft-deleted freelancer is still read back by `Get`, but no longer listed; every other live freelancer is. */
  lemma DeletedFreelancerLeavesList(s: Store, id: string, now: Time)
    requires WellKeyed(s) && ValidId(id) && id in s.freelancers
    ensures var s' := FreelancerService.Delete(s, id, now, None).0;
      && FreelancerService.Get(s', id) == Success(s.freelancers[id].(deletedAt := Some(now)))
      && FreelancerService.LiveFreelancers(s') == (set fl | fl in FreelancerService.LiveFreelancers(s) && fl.id != id)
  {
    var s' := FreelancerService.Delete(s, id, now, None).0;
    var before := FreelancerService.LiveFreelancers(s);
    var after := FreelancerService.LiveFreelancers(s');
    forall fl | fl in after ensures fl in before && fl.id != id {
      var k :| k in s'.freelancers && s'.freelancers[k] == fl;
      assert k != id;
      assert s.freelancers[k] == fl;
    }
    forall fl | fl in before && fl.id != id ensures fl in after {
      var k :| k in s.freelancers && s.freelancers[k] == fl;
      assert s'.freelancers[k] == fl;
    }
  }
}
