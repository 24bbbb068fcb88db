/**
 The client service: insert, the partial-update handler and its query
 builder, and the Get/Delete/List handlers.
 */
module ClientService {
  import opened Wrappers
  import opened Decimal
  import opened Model
  import opened QueryBuilder
  import opened Db
  import Listing

  /** `New`: insert id, email and balance; a duplicate id is a driver error. */
  function Add(s: Store, c: Client, f: Fault): (r: (Store, Outcome))
    ensures r.1 == Replied(Ok) <==> c.id !in s.clients && f.Healthy?
    ensures r.1 == Replied(Ok) ==> r.0 == s.(clients := s.clients[c.id := c.(deletedAt := None)])
    ensures r.1 != Replied(Ok) ==> r.0 == s
    ensures c.id in s.clients ==> r.1 == Replied(Fail(ErrDuplicateKey))
  {
    if c.id in s.clients then (s, Replied(Fail(ErrDuplicateKey)))
    else match Run(f, 1)
      case ExecError(e) => (s, Replied(Fail(e)))
      case Affected(n) =>
        if n == 0 then (s, Panicked)
        else (s.(clients := s.clients[c.id := Client(c.id, c.email, c.balance, None)]), Replied(Ok))
  }

  const ClientPrefix := "UPDATE client SET "

  /** Email when non-empty, then balance when positive. */
  function ClientFields(c: Client): seq<Field> {
    [Field(|c.email| > 0, "email", StrArg(c.email)), Field(c.balance > 0, "balance", IntArg(c.balance))]
  }

  predicate NothingSet(c: Client) {
    c.email == "" && c.balance <= 0
  }

  /**
   The client handler's statement: each clause ends in a space, clauses are
   joined by a bare ",", then `WHERE ID=$k+1`; no `updated_at`. `None` when
   nothing is set.
   */
  function BuildUpdate(c: Client): (q: Option<Query>)
    ensures q.None? <==> NothingSet(c)
    ensures q.Some? ==>
      var sel := Selected(ClientFields(c));
      && 1 <= |sel| <= 2
      && q.value.sql == ClientPrefix + Join(Clauses(sel, " "), ",") + "WHERE ID=" + Placeholder(|sel| + 1)
      && q.value.args == Values(sel) + [StrArg(c.id)]
      && q.value.columns == Columns(sel)
  {
    var fs := ClientFields(c);
    var b := WriteAll(Start(ClientPrefix), fs, ",", " ");
    NothingWrittenIffNoneSet(ClientPrefix, fs, ",", " ");
    assert (forall i :: 0 <= i < |fs| ==> !fs[i].isSet) <==> !fs[0].isSet && !fs[1].isSet;
    WriteAllRenders(ClientPrefix, fs, ",", " ");
    if b.text == ClientPrefix then None
    else Some(Finish(b, c.id))
  }

  /** With both fields set the statement reads exactly so. */
  lemma BothFieldsQuery(c: Client)
    requires c.email != "" && c.balance > 0
    ensures BuildUpdate(c).Some?
    ensures BuildUpdate(c).value.sql == "UPDATE client SET email=$1 ,balance=$2 WHERE ID=$3"
    ensures BuildUpdate(c).value.args == [StrArg(c.email), IntArg(c.balance), StrArg(c.id)]
  {
    var fs := ClientFields(c);
    BothSelected(c);
    BothJoined(c);
    BothFieldsText();
    assert Placeholder(3) == "$3";
    assert Values(fs) == [StrArg(c.email), IntArg(c.balance)] by {
      assert Values(fs)[0] == StrArg(c.email);
    }
  }

  lemma BothSelected(c: Client)
    requires c.email != "" && c.balance > 0
    ensures Selected(ClientFields(c)) == ClientFields(c)
  {
    var fs := ClientFields(c);
    assert fs[..1][..0] == [];
    assert Selected(fs[..1]) == [fs[0]];
  }

  lemma BothJoined(c: Client)
    ensures Join(Clauses(ClientFields(c), " "), ",") == "email=$1 ,balance=$2 "
  {
    var cs := Clauses(ClientFields(c), " ");
    assert cs == ["email=$1 ", "balance=$2 "] by {
      assert NatToString(1) == "1" && NatToString(2) == "2";
      assert cs[0] == Clause("email", 1, " ") == "email=$1 ";
      assert cs[1] == Clause("balance", 2, " ") == "balance=$2 ";
    }
    assert cs[..1] == ["email=$1 "];
  }

  lemma BothFieldsText()
    ensures ClientPrefix + "email=$1 ,balance=$2 " + "WHERE ID=" + "$3" == "UPDATE client SET email=$1 ,balance=$2 WHERE ID=$3"
  {
  }

  /** One `column=value` of a client UPDATE. */
  function SetClientColumn(row: Client, column: string, a: Arg): Client {
    match a
    case StrArg(v) => if column == "email" then row.(email := v) else row
    case IntArg(v) => if column == "balance" then row.(balance := v) else row
    case _ => row
  }

  /** The partial-update contract for clients: each set field replaced, the other kept. */
  function Assigned(row: Client, c: Client): Client {
    row.(email := if |c.email| > 0 then c.email else row.email,
         balance := if c.balance > 0 then c.balance else row.balance)
  }

  lemma UpdateStatementAssigns(row: Client, c: Client)
    requires !NothingSet(c)
    ensures BuildUpdate(c).Some?
    ensures var q := BuildUpdate(c).value;
      ApplyAssignments(row, q.columns, q.args, SetClientColumn) == Assigned(row, c)
  {
    var fs := ClientFields(c);
    AssignmentsMatchFields(row, fs, [StrArg(c.id)], SetClientColumn);
    var r1 := if |c.email| > 0 then row.(email := c.email) else row;
    assert fs[..1][..0] == [];
    assert ApplyFields(row, fs[..1], SetClientColumn) == r1;
    assert fs[..1] == fs[..|fs| - 1];
  }

  /** The row after the built statement runs against it (a statement exists exactly when something is set). */
  function UpdatedRow(row: Client, c: Client): (r: Client)
    requires !NothingSet(c)
    ensures r == Assigned(row, c)
  {
    UpdateStatementAssigns(row, c);
    var q := BuildUpdate(c).value;
    ApplyAssignments(row, q.columns, q.args, SetClientColumn)
  }

  /**
   `Update`: nothing set replies success without a statement; a driver error
   is reported (this handler assigns the outer `err`); otherwise the row, if
   there is one, gets the set fields. Returns the store and the reply.
   */
  function Update(s: Store, c: Client, execErr: Option<string>): (r: (Store, Reply))
    ensures NothingSet(c) ==> r == (s, Ok)
    ensures !NothingSet(c) && execErr.Some? ==> r == (s, Fail(execErr.value))
    ensures !NothingSet(c) && execErr.None? ==> r.1 == Ok
    ensures r.0.freelancers == s.freelancers && r.0.billing == s.billing && r.0.tasks == s.tasks
    ensures r.0.clients.Keys == s.clients.Keys
    ensures forall id :: id in s.clients && id != c.id ==> r.0.clients[id] == s.clients[id]
    ensures !NothingSet(c) && execErr.None? && c.id in s.clients ==> r.0.clients[c.id] == Assigned(s.clients[c.id], c)
  {
    if NothingSet(c) then (s, Ok)
    else if execErr.Some? then (s, Fail(execErr.value))
    else if c.id !in s.clients then (s, Ok)
    else (s.(clients := s.clients[c.id := UpdatedRow(s.clients[c.id], c)]), Ok)
  }

  /**
   A balance update writes the absolute value and can never store zero or a
   negative balance: a non-positive balance in the request leaves the stored
   one as it was.
   */
  lemma BalanceUpdateIsAbsoluteAndPositive(s: Store, c: Client, execErr: Option<string>)
    requires c.id in s.clients
    ensures var s' := Update(s, c, execErr).0;
      && (c.balance <= 0 ==> s'.clients[c.id].balance == s.clients[c.id].balance)
      && (c.balance > 0 && execErr.None? ==> s'.clients[c.id].balance == c.balance)
      && (s'.clients[c.id].balance != s.clients[c.id].balance ==> s'.clients[c.id].balance > 0)
  {
  }

  /** `Get`: the id check first, then the stored row. */
  function Get(s: Store, id: string): (r: Result<Client>)
    ensures !ValidId(id) ==> r == Failure(InvalidIdMessage)
    ensures ValidId(id) ==> (r.Success? <==> id in s.clients)
    ensures ValidId(id) && id in s.clients ==> r.value == s.clients[id]
    ensures ValidId(id) && id !in s.clients ==> r == Failure(ErrNoRows)
  {
    if !ValidId(id) then Failure(InvalidIdMessage)
    else if id !in s.clients then Failure(ErrNoRows)
    else Success(s.clients[id])
  }

  /** `Delete`: the id check first, then stamp `deleted_at` on the row if there is one. */
  function Delete(s: Store, id: string, now: Time, execErr: Option<string>): (r: (Store, Reply))
    ensures !ValidId(id) ==> r == (s, Fail(InvalidIdMessage))
    ensures ValidId(id) && execErr.Some? ==> r == (s, Fail(execErr.value))
    ensures ValidId(id) && execErr.None? ==> r.1 == Ok
    ensures ValidId(id) && execErr.None? && id in s.clients ==>
      r.0 == s.(clients := s.clients[id := s.clients[id].(deletedAt := Some(now))])
    ensures id !in s.clients ==> r.0 == s
  {
    if !ValidId(id) then (s, Fail(InvalidIdMessage))
    else if execErr.Some? then (s, Fail(execErr.value))
    else if id !in s.clients then (s, Ok)
    else (s.(clients := s.clients[id := s.clients[id].(deletedAt := Some(now))]), Ok)
  }

  /** The client rows that are not soft-deleted. */
  function LiveClients(s: Store): set<Client> {
    set c | c in s.clients.Values && c.deletedAt.None?
  }

  /** `List`: every client row that is not soft-deleted, each once. */
  method List(s: Store) returns (r: seq<Client>)
    ensures forall c :: c in r <==> c in s.clients.Values && c.deletedAt.None?
    ensures multiset(r) == multiset(LiveClients(s))
  {
    r := Listing.Rows(LiveClients(s));
    forall c ensures c in r <==> c in LiveClients(s) {
      assert c in r <==> c in multiset(r);
    }
  }
}
