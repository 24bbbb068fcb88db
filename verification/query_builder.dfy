/**
 The partial-update convention shared by the three Update handlers: walk the
 candidate fields in a fixed order, write `column=$n` for each field that is
 set, number the placeholders consecutively from 1, and collect the bound
 arguments in the same order.
 */
module QueryBuilder {
  import opened Wrappers
  import opened Decimal
  import opened Model

  /** A value bound to a placeholder. */
  datatype Arg = IntArg(i: int) | StrArg(s: string) | NullStrArg(ns: Option<string>) | TimeArg(t: Time)

  /** One candidate SET clause: whether the caller set it, its column and its value. */
  datatype Field = Field(isSet: bool, column: string, value: Arg)

  /**
   The state of a query under construction: the text written so far, the next
   placeholder number (`position`), and the arguments and columns bound so far.
   */
  datatype Builder = Builder(text: string, position: nat, args: seq<Arg>, columns: seq<string>)

  /** A finished statement: its text, its arguments, and the columns of its SET list. */
  datatype Query = Query(sql: string, args: seq<Arg>, columns: seq<string>)

  function Start(prefix: string): Builder {
    Builder(prefix, 1, [], [])
  }

  function Placeholder(n: nat): string {
    "$" + NatToString(n)
  }

  /** The text `column=$n` followed by the handler's trailer. */
  function Clause(column: string, n: nat, trailer: string): string {
    column + "=" + Placeholder(n) + trailer
  }

  /**
   One `if set { if position > 1 { sep }; "col=$position" + trailer; position++;
   append(args, value) }` step of a handler.
   */
  function Write(b: Builder, f: Field, sep: string, trailer: string): Builder {
    if !f.isSet then b
    else Builder(
      b.text + (if b.position > 1 then sep else "") + Clause(f.column, b.position, trailer),
      b.position + 1, b.args + [f.value], b.columns + [f.column])
  }

  /** The steps for `fs`, taken in order. */
  function WriteAll(b: Builder, fs: seq<Field>, sep: string, trailer: string): Builder
    decreases |fs|
  {
    if |fs| == 0 then b
    else Write(WriteAll(b, fs[..|fs| - 1], sep, trailer), fs[|fs| - 1], sep, trailer)
  }

  /** Appends `WHERE ID=$position` and binds the record's identifier last. */
  function Finish(b: Builder, id: string): Query {
    Query(b.text + "WHERE ID=" + Placeholder(b.position), b.args + [StrArg(id)], b.columns)
  }

  // ---------------------------------------------------------------------------
  // Reference rendering, stated independently of the step-by-step writer.

  /** The fields that are set, in their original order. */
  function Selected(fs: seq<Field>): (r: seq<Field>)
    ensures |r| <= |fs|
    ensures forall f :: f in r ==> f in fs && f.isSet
  {
    if |fs| == 0 then []
    else Selected(fs[..|fs| - 1]) + (if fs[|fs| - 1].isSet then [fs[|fs| - 1]] else [])
  }

  function Columns(fs: seq<Field>): seq<string> {
    seq(|fs|, i requires 0 <= i < |fs| => fs[i].column)
  }

  function Values(fs: seq<Field>): seq<Arg> {
    seq(|fs|, i requires 0 <= i < |fs| => fs[i].value)
  }

  /** The i-th selected field (0-based) is bound to placeholder `$i+1`. */
  function Clauses(fs: seq<Field>, trailer: string): seq<string> {
    seq(|fs|, i requires 0 <= i < |fs| => Clause(fs[i].column, i + 1, trailer))
  }

  /** `strings.Join`. */
  function Join(parts: seq<string>, sep: string): string
    decreases |parts|
  {
    if |parts| == 0 then ""
    else if |parts| == 1 then parts[0]
    else Join(parts[..|parts| - 1], sep) + sep + parts[|parts| - 1]
  }

  /** No field set, or at least one. */
  lemma {:induction false} SelectedEmpty(fs: seq<Field>)
    ensures |Selected(fs)| == 0 <==> forall i :: 0 <= i < |fs| ==> !fs[i].isSet
    decreases |fs|
  {
    if |fs| > 0 {
      SelectedEmpty(fs[..|fs| - 1]);
      assert forall i :: 0 <= i < |fs| - 1 ==> fs[..|fs| - 1][i] == fs[i];
    }
  }

  /** When every field is set, all of them are selected. */
  lemma {:induction false} AllSetSelected(fs: seq<Field>)
    requires forall i :: 0 <= i < |fs| ==> fs[i].isSet
    ensures Selected(fs) == fs
    decreases |fs|
  {
    if |fs| > 0 {
      var init := fs[..|fs| - 1];
      var last := fs[|fs| - 1];
      assert forall i :: 0 <= i < |init| ==> init[i].isSet by {
        forall i | 0 <= i < |init| ensures init[i].isSet {
          assert init[i] == fs[i];
        }
      }
      AllSetSelected(init);
      assert last.isSet;
      assert Selected(fs) == Selected(init) + [last];
      assert init + [last] == fs;
    }
  }

  /** The writer state after the set fields `sel` have been written. */
  function Rendered(prefix: string, sel: seq<Field>, sep: string, trailer: string): Builder {
    Builder(prefix + Join(Clauses(sel, trailer), sep), |sel| + 1, Values(sel), Columns(sel))
  }

  /** Writing one more set field extends the rendering by that field. */
  lemma WriteStep(prefix: string, sel: seq<Field>, f: Field, sep: string, trailer: string)
    requires f.isSet
    ensures Write(Rendered(prefix, sel, sep, trailer), f, sep, trailer) == Rendered(prefix, sel + [f], sep, trailer)
  {
    var sel' := sel + [f];
    var cs := Clauses(sel, trailer);
    var cs' := Clauses(sel', trailer);
    assert cs'[..|cs'| - 1] == cs;
    assert cs'[|cs'| - 1] == Clause(f.column, |sel| + 1, trailer);
    assert Values(sel') == Values(sel) + [f.value];
    assert Columns(sel') == Columns(sel) + [f.column];
    if |sel| == 0 {
      assert Join(cs', sep) == cs'[0];
    } else {
      assert Join(cs', sep) == Join(cs, sep) + sep + cs'[|cs'| - 1];
    }
  }

  /**
   The writer numbers placeholders `$1..$k` for the k set fields, joins their
   clauses with `sep`, and binds exactly their values, in field order.
   */
  lemma {:induction false} WriteAllRenders(prefix: string, fs: seq<Field>, sep: string, trailer: string)
    ensures WriteAll(Start(prefix), fs, sep, trailer) == Rendered(prefix, Selected(fs), sep, trailer)
    decreases |fs|
  {
    if |fs| == 0 {
      assert Rendered(prefix, [], sep, trailer).text == prefix;
    } else {
      var init := fs[..|fs| - 1];
      var f := fs[|fs| - 1];
      WriteAllRenders(prefix, init, sep, trailer);
      if f.isSet {
        assert Selected(fs) == Selected(init) + [f];
        WriteStep(prefix, Selected(init), f, sep, trailer);
      } else {
        assert Selected(fs) == Selected(init);
      }
    }
  }

  /** Joining at least one non-empty clause gives non-empty text. */
  lemma {:induction false} JoinNonEmpty(parts: seq<string>, sep: string)
    requires |parts| > 0 && |parts[|parts| - 1]| > 0
    ensures |Join(parts, sep)| > 0
  {
  }

  /**
   The handlers' "nothing to update" test (`update == updateS.String()`)
   holds exactly when no field is set.
   */
  lemma NothingWrittenIffNoneSet(prefix: string, fs: seq<Field>, sep: string, trailer: string)
    ensures WriteAll(Start(prefix), fs, sep, trailer).text == prefix <==> forall i :: 0 <= i < |fs| ==> !fs[i].isSet
  {
    WriteAllRenders(prefix, fs, sep, trailer);
    SelectedEmpty(fs);
    var cs := Clauses(Selected(fs), trailer);
    if |cs| > 0 {
      JoinNonEmpty(cs, sep);
    }
  }

  // ---------------------------------------------------------------------------
  // What an UPDATE's SET list does to a row.

  /**
   The row after the SET list: `assign` applied for each column, left to right,
   with the argument bound to its placeholder. Arguments past the columns (the
   WHERE id) are not used.
   */
  function ApplyAssignments<R>(row: R, columns: seq<string>, args: seq<Arg>, assign: (R, string, Arg) -> R): R
    requires |columns| <= |args|
    decreases |columns|
  {
    if |columns| == 0 then row
    else assign(ApplyAssignments(row, columns[..|columns| - 1], args, assign), columns[|columns| - 1], args[|columns| - 1])
  }

  /** The row after assigning each set field of `fs`, in order; unset fields are kept. */
  function ApplyFields<R>(row: R, fs: seq<Field>, assign: (R, string, Arg) -> R): R
    decreases |fs|
  {
    if |fs| == 0 then row
    else
      var r := ApplyFields(row, fs[..|fs| - 1], assign);
      var f := fs[|fs| - 1];
      if f.isSet then assign(r, f.column, f.value) else r
  }

  lemma {:induction false} ApplyAssignmentsPrefix<R>(row: R, columns: seq<string>, args: seq<Arg>, args': seq<Arg>, assign: (R, string, Arg) -> R)
    requires |columns| <= |args| && |columns| <= |args'|
    requires args[..|columns|] == args'[..|columns|]
    ensures ApplyAssignments(row, columns, args, assign) == ApplyAssignments(row, columns, args', assign)
    decreases |columns|
  {
    if |columns| > 0 {
      var n := |columns|;
      assert args[..n - 1] == args'[..n - 1] by {
        assert args[..n - 1] == args[..n][..n - 1];
        assert args'[..n - 1] == args'[..n][..n - 1];
      }
      assert args[n - 1] == args[..n][n - 1];
      assert args'[n - 1] == args'[..n][n - 1];
      ApplyAssignmentsPrefix(row, columns[..n - 1], args, args', assign);
    }
  }

  /**
   Running the SET list of the set fields, with their values bound in order,
   assigns exactly the set fields: the placeholders line up with the columns.
   */
  lemma {:induction false} AssignmentsMatchFields<R>(row: R, fs: seq<Field>, extra: seq<Arg>, assign: (R, string, Arg) -> R)
    ensures ApplyAssignments(row, Columns(Selected(fs)), Values(Selected(fs)) + extra, assign) == ApplyFields(row, fs, assign)
    decreases |fs|
  {
    if |fs| > 0 {
      var init := fs[..|fs| - 1];
      var f := fs[|fs| - 1];
      var sel := Selected(init);
      AssignmentsMatchFields(row, init, [], assign);
      ApplyAssignmentsPrefix(row, Columns(sel), Values(sel) + [], Values(sel) + extra, assign);
      if f.isSet {
        var sel' := sel + [f];
        assert Selected(fs) == sel';
        assert Columns(sel')[..|sel|] == Columns(sel);
        ApplyAssignmentsPrefix(row, Columns(sel), Values(sel') + extra, Values(sel) + extra, assign);
        assert (Values(sel') + extra)[|sel|] == f.value;
      } else {
        assert Selected(fs) == sel;
      }
    }
  }
}
