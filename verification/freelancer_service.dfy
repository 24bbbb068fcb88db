/**
 The freelancer service: insert (without a balance), the partial-update
 handler and its query builder, and the Get/Delete/List handlers.
 */
module FreelancerService {
  import opened Wrappers
  import opened Decimal
  import opened Model
  import opened QueryBuilder
  import opened Db
  import Listing

  /** The row `New` inserts: id, description, details and email; balance and deleted_at stay NULL. */
  function InsertedRow(fl: Freelancer): Freelancer {
    Freelancer(fl.id, fl.description, fl.details, fl.email, None, None)
  }

  /** `New`: insert the row; a duplicate id is a driver error. */
  function Add(s: Store, fl: Freelancer, f: Fault): (r: (Store, Outcome))
    ensures r.1 == Replied(Ok) <==> fl.id !in s.freelancers && f.Healthy?
    ensures r.1 == Replied(Ok) ==>
      r.0 == s.(freelancers := s.freelancers[fl.id := fl.(balance := None, deletedAt := None)])
    ensures r.1 != Replied(Ok) ==> r.0 == s
    ensures fl.id in s.freelancers ==> r.1 == Replied(Fail(ErrDuplicateKey))
  {
    if fl.id in s.freelancers then (s, Replied(Fail(ErrDuplicateKey)))
    else match Run(f, 1)
      case ExecError(e) => (s, Replied(Fail(e)))
      case Affected(n) =>
        if n == 0 then (s, Panicked)
        else (s.(freelancers := s.freelancers[fl.id := InsertedRow(fl)]), Replied(Ok))
  }

  const FreelancerPrefix := "UPDATE freelancer SET "

  /**
   Description, email, details, in that order. Both the description and the
   details clause are gated on `Details.Valid`; the description clause binds
   the request's Description, NULL or not.
   */
  function FreelancerFields(fl: Freelancer): seq<Field> {
    [ Field(fl.details.Some?, "description", NullStrArg(fl.description)),
      Field(|fl.email| > 0, "email", StrArg(fl.email)),
      Field(fl.details.Some?, "details", NullStrArg(fl.details)) ]
  }

  /** The request changes nothing: no details and no email, whatever its description. */
  predicate NothingSet(fl: Freelancer) {
    fl.details.None? && fl.email == ""
  }

  /**
   The freelancer handler's statement: each clause ends in a space, clauses are
   joined by ", ", then `WHERE ID=$k+1`; no balance and no `updated_at`.
   `None` when nothing is set.
   */
  function BuildUpdate(fl: Freelancer): (q: Option<Query>)
    ensures q.None? <==> NothingSet(fl)
    ensures q.Some? ==>
      var sel := Selected(FreelancerFields(fl));
      && 1 <= |sel| <= 3
      && q.value.sql == FreelancerPrefix + Join(Clauses(sel, " "), ", ") + "WHERE ID=" + Placeholder(|sel| + 1)
      && q.value.args == Values(sel) + [StrArg(fl.id)]
      && q.value.columns == Columns(sel)
  {
    var fs := FreelancerFields(fl);
    var b := WriteAll(Start(FreelancerPrefix), fs, ", ", " ");
    NothingWrittenIffNoneSet(FreelancerPrefix, fs, ", ", " ");
    assert (forall i :: 0 <= i < |fs| ==> !fs[i].isSet) <==> !fs[0].isSet && !fs[1].isSet && !fs[2].isSet;
    WriteAllRenders(FreelancerPrefix, fs, ", ", " ");
    if b.text == FreelancerPrefix then None
    else Some(Finish(b, fl.id))
  }

  /** With details and email present, the statement reads exactly so. */
  lemma AllFieldsQuery(fl: Freelancer)
    requires fl.details.Some? && fl.email != ""
    ensures BuildUpdate(fl).Some?
    ensures BuildUpdate(fl).value.sql
         == "UPDATE freelancer SET " + ("description=$1 " + ", " + "email=$2 " + ", " + "details=$3 ") + "WHERE ID=$4"
    ensures BuildUpdate(fl).value.args
         == [NullStrArg(fl.description), StrArg(fl.email), NullStrArg(fl.details), StrArg(fl.id)]
  {
    AllShape(fl);
    AllJoined(fl);
  }

  /** All three fields are selected, so the WHERE clause binds `$4`. */
  lemma AllShape(fl: Freelancer)
    requires fl.details.Some? && fl.email != ""
    ensures BuildUpdate(fl).Some?
    ensures BuildUpdate(fl).value.sql
         == FreelancerPrefix + Join(Clauses(FreelancerFields(fl), " "), ", ") + "WHERE ID=$4"
    ensures BuildUpdate(fl).value.args
         == [NullStrArg(fl.description), StrArg(fl.email), NullStrArg(fl.details), StrArg(fl.id)]
  {
    var fs := FreelancerFields(fl);
    AllSelected(fl);
    assert |Selected(fs)| == 3;
    assert Placeholder(4) == "$4" by {
      assert NatToString(4) == "4";
    }
    assert Values(fs) == [NullStrArg(fl.description), StrArg(fl.email), NullStrArg(fl.details)] by {
      assert Values(fs)[0] == NullStrArg(fl.description);
    }
  }

  lemma AllSelected(fl: Freelancer)
    requires fl.details.Some? && fl.email != ""
    ensures Selected(FreelancerFields(fl)) == FreelancerFields(fl)
  {
    var fs := FreelancerFields(fl);
    assert forall i :: 0 <= i < |fs| ==> fs[i].isSet;
    AllSetSelected(fs);
  }

  lemma AllJoined(fl: Freelancer)
    ensures Join(Clauses(FreelancerFields(fl), " "), ", ") == "description=$1 " + ", " + "email=$2 " + ", " + "details=$3 "
  {
    var cs := Clauses(FreelancerFields(fl), " ");
    assert cs == ["description=$1 ", "email=$2 ", "details=$3 "] by {
      assert NatToString(1) == "1" && NatToString(2) == "2" && NatToString(3) == "3";
      assert cs[0] == Clause("description", 1, " ") == "description=$1 ";
      assert cs[1] == Clause("email", 2, " ") == "email=$2 ";
      assert cs[2] == Clause("details", 3, " ") == "details=$3 ";
    }
    assert cs[..2][..1] == ["description=$1 "];
    assert Join(cs[..2], ", ") == "description=$1 " + ", " + "email=$2 ";
  }

  /** One `column=value` of a freelancer UPDATE. */
  function SetFreelancerColumn(row: Freelancer, column: string, a: Arg): Freelancer {
    match a
    case StrArg(v) => if column == "email" then row.(email := v) else row
    case NullStrArg(v) =>
      if column == "description" then row.(description := v)
      else if column == "details" then row.(details := v)
      else row
    case _ => row
  }

  /**
   What the freelancer update does to a row: with details present, both
   description and details are overwritten (a NULL description clears it);
   a non-empty email is overwritten; nothing else changes.
   */
  function Assigned(row: Freelancer, fl: Freelancer): Freelancer {
    row.(description := if fl.details.Some? then fl.description else row.description,
         email := if |fl.email| > 0 then fl.email else row.email,
         details := if fl.details.Some? then fl.details else row.details)
  }

  lemma UpdateStatementAssigns(row: Freelancer, fl: Freelancer)
    requires !NothingSet(fl)
    ensures BuildUpdate(fl).Some?
    ensures var q := BuildUpdate(fl).value;
      ApplyAssignments(row, q.columns, q.args, SetFreelancerColumn) == Assigned(row, fl)
  {
    var fs := FreelancerFields(fl);
    AssignmentsMatchFields(row, fs, [StrArg(fl.id)], SetFreelancerColumn);
    var r1 := if fl.details.Some? then row.(description := fl.description) else row;
    var r2 := if |fl.email| > 0 then r1.(email := fl.email) else r1;
    assert fs[..1][..0] == [];
    assert ApplyFields(row, fs[..1], SetFreelancerColumn) == r1;
    assert fs[..2][..1] == fs[..1];
    assert ApplyFields(row, fs[..2], SetFreelancerColumn) == r2;
    assert fs[..2] == fs[..|fs| - 1];
  }

  /** The row after the built statement runs against it (a statement exists exactly when something is set). */
  function UpdatedRow(row: Freelancer, fl: Freelancer): (r: Freelancer)
    requires !NothingSet(fl)
    ensures r == Assigned(row, fl)
  {
    UpdateStatementAssigns(row, fl);
    var q := BuildUpdate(fl).value;
    ApplyAssignments(row, q.columns, q.args, SetFreelancerColumn)
  }

  /**
   `Update`: nothing set replies success without a statement; a driver error
   is reported; otherwise the row, if there is one, is assigned.
   */
  function Update(s: Store, fl: Freelancer, execErr: Option<string>): (r: (Store, Reply))
    ensures NothingSet(fl) ==> r == (s, Ok)
    ensures !NothingSet(fl) && execErr.Some? ==> r == (s, Fail(execErr.value))
    ensures !NothingSet(fl) && execErr.None? ==> r.1 == Ok
    ensures r.0.clients == s.clients && r.0.billing == s.billing && r.0.tasks == s.tasks
    ensures r.0.freelancers.Keys == s.freelancers.Keys
    ensures forall id :: id in s.freelancers && id != fl.id ==> r.0.freelancers[id] == s.freelancers[id]
    ensures !NothingSet(fl) && execErr.None? && fl.id in s.freelancers ==>
      r.0.freelancers[fl.id] == Assigned(s.freelancers[fl.id], fl)
    ensures fl.id in s.freelancers ==> r.0.freelancers[fl.id].balance == s.freelancers[fl.id].balance
  {
    if NothingSet(fl) then (s, Ok)
    else if execErr.Some? then (s, Fail(execErr.value))
    else if fl.id !in s.freelancers then (s, Ok)
    else (s.(freelancers := s.freelancers[fl.id := UpdatedRow(s.freelancers[fl.id], fl)]), Ok)
  }

  /**
   A request that carries only a description (no details, no email) is
   answered with success and changes nothing.
   */
  lemma DescriptionOnlyIsNoOp(s: Store, fl: Freelancer, execErr: Option<string>)
    requires fl.description.Some? && fl.details.None? && fl.email == ""
    ensures Update(s, fl, execErr) == (s, Ok)
  {
  }

  /** A request with details but a NULL description erases the stored description. */
  lemma DetailsWithoutDescriptionClears(s: Store, fl: Freelancer)
    requires fl.details.Some? && fl.description.None? && fl.id in s.freelancers
    ensures var r := Update(s, fl, None);
      r.1 == Ok && r.0.freelancers[fl.id].description.None? && r.0.freelancers[fl.id].details == fl.details
  {
  }

  /** `Get`: the id check first, then the stored row. */
  function Get(s: Store, id: string): (r: Result<Freelancer>)
    ensures !ValidId(id) ==> r == Failure(InvalidIdMessage)
    ensures ValidId(id) ==> (r.Success? <==> id in s.freelancers)
    ensures ValidId(id) && id in s.freelancers ==> r.value == s.freelancers[id]
    ensures ValidId(id) && id !in s.freelancers ==> r == Failure(ErrNoRows)
  {
    if !ValidId(id) then Failure(InvalidIdMessage)
    else if id !in s.freelancers then Failure(ErrNoRows)
    else Success(s.freelancers[id])
  }

  /** `Delete`: the id check first, then stamp `deleted_at` on the row if there is one. */
  function Delete(s: Store, id: string, now: Time, execErr: Option<string>): (r: (Store, Reply))
    ensures !ValidId(id) ==> r == (s, Fail(InvalidIdMessage))
    ensures ValidId(id) && execErr.Some? ==> r == (s, Fail(execErr.value))
    ensures ValidId(id) && execErr.None? ==> r.1 == Ok
    ensures ValidId(id) && execErr.None? && id in s.freelancers ==>
      r.0 == s.(freelancers := s.freelancers[id := s.freelancers[id].(deletedAt := Some(now))])
    ensures id !in s.freelancers ==> r.0 == s
  {
    if !ValidId(id) then (s, Fail(InvalidIdMessage))
    else if execErr.Some? then (s, Fail(execErr.value))
    else if id !in s.freelancers then (s, Ok)
    else (s.(freelancers := s.freelancers[id := s.freelancers[id].(deletedAt := Some(now))]), Ok)
  }

  /** The freelancer rows that are not soft-deleted. */
  function LiveFreelancers(s: Store): set<Freelancer> {
    set fl | fl in s.freelancers.Values && fl.deletedAt.None?
  }

  /** `List`: every freelancer row that is not soft-deleted, each once. */
  method List(s: Store) returns (r: seq<Freelancer>)
    ensures forall fl :: fl in r <==> fl in s.freelancers.Values && fl.deletedAt.None?
    ensures multiset(r) == multiset(LiveFreelancers(s))
  {
    r := Listing.Rows(LiveFreelancers(s));
    forall fl ensures fl in r <==> fl in LiveFreelancers(s) {
      assert fl in r <==> fl in multiset(r);
    }
  }
}
