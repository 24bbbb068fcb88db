/**
 The shared records of the job exchange: tasks, clients, freelancers and
 billing (escrow) rows, their status vocabularies, and the helper
 constructors that build fresh records.
 */
module Model {
  import opened Wrappers

  /** A clock reading, as returned by `time.Now`; opaque to the model. */
  type Time = int

  /** A `time.Duration` (nanoseconds). */
  type Duration = int

  newtype byte = x: int | 0 <= x < 256

  /** The 16 bytes of a version-4 UUID. */
  type Uuid = u: seq<byte> | |u| == 16 witness [0, 0, 0, 0, 0, 0, 0, 0, 0, 0, 0, 0, 0, 0, 0, 0]

  /** Task statuses are free strings; these are the named ones. */
  type TaskStatus = string

  const Open: TaskStatus := "open"
  const Started: TaskStatus := "started"
  const Completed: TaskStatus := "completed"
  const Closed: TaskStatus := "closed"
  /** Spelled as the code spells it. */
  const Abandoned: TaskStatus := "abondoned"

  type PaymentStatus = string

  const Locked: PaymentStatus := "locked"
  const Pending: PaymentStatus := "pending"
  const Canceled: PaymentStatus := "canceled"
  const Loaded: PaymentStatus := "loaded"
  const Paid: PaymentStatus := "paid"

  /** The text of `ErrInvalidID`. */
  const InvalidIdMessage := "invalid ID"

  /** Identifiers are canonical UUID texts. */
  const IdLength := 36

  /**
   A task row. `freelancerId` is the empty string until a freelancer is
   assigned; the three nullable timestamps are `None` for NULL.
   */
  datatype Task = Task(
    id: string,
    clientId: string,
    freelancerId: string,
    description: string,
    fee: int,
    deadline: Duration,
    status: TaskStatus,
    startedAt: Option<Time>,
    deletedAt: Option<Time>,
    updatedAt: Option<Time>,
    createdAt: Time)

  /** A freelancer row; description, details and balance are nullable columns. */
  datatype Freelancer = Freelancer(
    id: string,
    description: Option<string>,
    details: Option<string>,
    email: string,
    balance: Option<int>,
    deletedAt: Option<Time>)

  /** A billing (escrow) row; freelancer and paid date stay NULL until settlement. */
  datatype Payment = Payment(
    id: string,
    clientId: string,
    freelancerId: Option<string>,
    taskId: string,
    amount: int,
    paidDate: Option<Time>,
    status: PaymentStatus)

  /** A client row. */
  datatype Client = Client(id: string, email: string, balance: int, deletedAt: Option<Time>)

  /** A bus reply envelope, without its serialized payload. */
  datatype Reply = Reply(success: bool, message: string)

  const Ok := Reply(true, "")

  function Fail(message: string): (r: Reply)
    ensures !r.success && r.message == message
  {
    Reply(false, message)
  }

  /** The five named task statuses, in declaration order; no two are equal. */
  function TaskStatuses(): (r: seq<TaskStatus>)
    ensures |r| == 5 && r[0] == Open && r[3] == Closed && r[4] == Abandoned
    ensures forall i, j :: 0 <= i < j < |r| ==> r[i] != r[j]
  {
    [Open, Started, Completed, Closed, Abandoned]
  }

  /** The five payment statuses, in declaration order; no two are equal. */
  function PaymentStatuses(): (r: seq<PaymentStatus>)
    ensures |r| == 5 && r[0] == Locked && r[4] == Paid
    ensures forall i, j :: 0 <= i < j < |r| ==> r[i] != r[j]
  {
    [Locked, Pending, Canceled, Loaded, Paid]
  }

  /** Bytes of one character in UTF-8. */
  function CharBytes(c: char): (n: nat)
    ensures 1 <= n <= 4
    ensures n == 1 <==> (c as int) < 0x80
  {
    if (c as int) < 0x80 then 1
    else if (c as int) < 0x800 then 2
    else if (c as int) < 0x1_0000 then 3
    else 4
  }

  /** The length of a string as Go's `len` measures it: its UTF-8 bytes. */
  function Utf8Len(s: string): nat
    decreases |s|
  {
    if |s| == 0 then 0 else Utf8Len(s[..|s| - 1]) + CharBytes(s[|s| - 1])
  }

  /** Byte length adds up over concatenation. */
  lemma {:induction false} Utf8LenAppend(s: string, t: string)
    ensures Utf8Len(s + t) == Utf8Len(s) + Utf8Len(t)
    decreases |t|
  {
    if |t| == 0 {
      assert s + t == s;
    } else {
      var u := s + t;
      assert u[..|u| - 1] == s + t[..|t| - 1];
      assert u[|u| - 1] == t[|t| - 1];
      Utf8LenAppend(s, t[..|t| - 1]);
    }
  }

  /** Byte length is at least the character count, and equal to it exactly for ASCII text. */
  lemma {:induction false} Utf8LenAscii(s: string)
    ensures Utf8Len(s) >= |s|
    ensures Utf8Len(s) == |s| <==> forall i :: 0 <= i < |s| ==> (s[i] as int) < 0x80
    decreases |s|
  {
    if |s| > 0 {
      var init := s[..|s| - 1];
      Utf8LenAscii(init);
      assert forall i :: 0 <= i < |init| ==> init[i] == s[i];
    }
  }

  /** `n` copies of one character take `n` times its bytes. */
  lemma {:induction false} Utf8LenRepeat(c: char, n: nat)
    ensures Utf8Len(seq(n, _ => c)) == n * CharBytes(c)
  {
    if n > 0 {
      var s := seq(n, _ => c);
      assert s[..n - 1] == seq(n - 1, _ => c);
      Utf8LenRepeat(c, n - 1);
    }
  }

  /** The identifier check every Get and Delete performs first: 36 bytes, as `len` counts them. */
  predicate ValidId(id: string) {
    Utf8Len(id) == IdLength
  }

  /**
   The check counts bytes, not characters: 35 ASCII letters and one `é` are
   36 characters but 37 bytes and are rejected; 18 copies of `é` are 18
   characters but 36 bytes and pass.
   */
  lemma IdCheckCountsBytes()
    ensures var id := seq(35, _ => 'a') + "é"; |id| == IdLength && !ValidId(id)
    ensures var id := seq(18, _ => 'é'); |id| == 18 && ValidId(id)
  {
    Utf8LenRepeat('a', 35);
    Utf8LenRepeat('é', 18);
    Utf8LenAppend(seq(35, _ => 'a'), "é");
    assert Utf8Len("é") == 2 by {
      assert "é"[..0] == "";
    }
  }

  const HexDigits := "0123456789abcdef"

  /** Lower-case hexadecimal text of some bytes, two characters per byte. */
  function Hex(bs: seq<byte>): (s: string)
    ensures |s| == 2 * |bs|
    ensures forall i :: 0 <= i < |s| ==> s[i] in HexDigits
  {
    if |bs| == 0 then ""
    else [HexDigits[bs[0] as int / 16], HexDigits[bs[0] as int % 16]] + Hex(bs[1..])
  }

  /** The canonical 8-4-4-4-12 text of a UUID. */
  function UuidString(u: Uuid): (s: string)
    ensures |s| == IdLength
    ensures s[8] == '-' && s[13] == '-' && s[18] == '-' && s[23] == '-'
    ensures forall i :: 0 <= i < |s| && i !in {8, 13, 18, 23} ==> s[i] in HexDigits
  {
    Hex(u[..4]) + "-" + Hex(u[4..6]) + "-" + Hex(u[6..8]) + "-" + Hex(u[8..10]) + "-" + Hex(u[10..])
  }

  /**
   A fresh identifier: the generator's UUID as text, or the empty string
   when the generator fails. `generated` is the generator's result.
   */
  function NewId(generated: Option<Uuid>): (id: string)
    ensures generated.Some? <==> ValidId(id)
    ensures generated.None? ==> id == ""
  {
    match generated
    case Some(u) =>
      var text := UuidString(u);
      assert forall i :: 0 <= i < |text| ==> (text[i] as int) < 0x80 by {
        assert forall c :: c in HexDigits ==> (c as int) < 0x80;
      }
      Utf8LenAscii(text);
      text
    case None => ""
  }

  /** A task as a client first submits it: open, unassigned, never started, updated or deleted. */
  predicate IsFreshTask(t: Task) {
    && t.status == Open
    && t.freelancerId == ""
    && t.startedAt.None? && t.deletedAt.None? && t.updatedAt.None?
  }

  function NewTask(deadline: Duration, fee: int, clientId: string, description: string, id: string, now: Time): (t: Task)
    ensures IsFreshTask(t)
    ensures t.fee == fee && t.clientId == clientId && t.description == description && t.deadline == deadline
    ensures t.id == id && t.createdAt == now
  {
    Task(id, clientId, "", description, fee, deadline, Open, None, None, None, now)
  }

  function NewClient(email: string, balance: int, id: string): (c: Client)
    ensures c.email == email && c.balance == balance && c.id == id
    ensures c.deletedAt.None?
  {
    Client(id, email, balance, None)
  }

  function NewFreelancer(email: string, description: string, details: string, id: string): (f: Freelancer)
    ensures f.description == Some(description) && f.details == Some(details)
    ensures f.balance.None? && f.deletedAt.None?
    ensures f.email == email && f.id == id
  {
    Freelancer(id, Some(description), Some(details), email, None, None)
  }
}
