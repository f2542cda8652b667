/** The field-array adapter (`DatagridField`): it shows a form's list field in
    the grid and runs the add/edit session over it, guaranteeing that a
    session never ends with a single blank record left in the list. */
module DatagridField {
  import opened Js
  import opened ColumnModel

  /** One entry of the list field: normally a record, but the form library
      lets the field hold any value. */
  datatype Entry = Record(fields: map<string, Value>) | Scalar(v: Value)

  // ---------------------------------------------------------------------------
  // The blank record

  /** The `reduce` that builds the blank record: each key in turn set to
      `undefined` in the accumulator. */
  function SetUndefined(keys: seq<string>, acc: map<string, Value>): (r: map<string, Value>)
    ensures r.Keys == acc.Keys + (set i | 0 <= i < |keys| :: keys[i])
    ensures forall k :: k in r ==> r[k] == if k in keys then Undefined else acc[k]
  {
    if keys == [] then acc
    else
      var r := SetUndefined(keys[1..], acc[keys[0] := Undefined]);
      assert forall i :: 0 < i < |keys| ==> keys[i] == keys[1..][i - 1];
      r
  }

  /** `addContent`'s new item: a record whose keys are exactly the columns'
      `dataIndex` values, each mapped to `undefined`. */
  function BlankRecord(columns: seq<Column>): (e: Entry)
    ensures e.Record?
    ensures forall k :: k in e.fields <==> k in DataIndexes(columns)
    ensures forall k :: k in e.fields ==> e.fields[k] == Undefined
  {
    var keys := DataIndexes(columns);
    Record(SetUndefined(keys, map[]))
  }

  // ---------------------------------------------------------------------------
  // The list and the edit session as values

  /** `fields.getAll() || []`: the list, with an unset field read as empty. */
  function BuildDataFromFields(value: Option<seq<Entry>>): seq<Entry>
  {
    if value.Some? then value.value else []
  }

  /** The `fields` prop: what `getAll()` returns, and whether it has `push`. */
  datatype Binding = Binding(value: Option<seq<Entry>>, canPush: bool)

  /** The adapter's state: its `fields` prop (`None` when absent) and its
      `addingContent` flag. */
  datatype Editor = Editor(fields: Option<Binding>, addingContent: bool)

  /** A handler's outcome and the state it leaves. */
  datatype Step = Step(outcome: Outcome, after: Editor)

  function Items(s: Editor): seq<Entry>
  {
    if s.fields.Some? then BuildDataFromFields(s.fields.value.value) else []
  }

  /** `fields.remove(index)`: the entry at `index` leaves the list; an index
      past the end changes nothing. */
  function RemoveAt(list: seq<Entry>, index: nat): (r: seq<Entry>)
    ensures index < |list| ==> |r| == |list| - 1
    ensures index < |list| ==> forall k :: 0 <= k < index ==> r[k] == list[k]
    ensures index < |list| ==> forall k :: index <= k < |r| ==> r[k] == list[k + 1]
    ensures index < |list| ==> multiset(r) + multiset{list[index]} == multiset(list)
    ensures index >= |list| ==> r == list
  {
    if index < |list| then
      assert list == list[..index] + [list[index]] + list[index + 1..];
      list[..index] + list[index + 1..]
    else list
  }

  /** `addContent()` */
  function Add(s: Editor, columns: seq<Column>): (r: Step)
    ensures r.outcome.Fail? <==> s.fields.None? || !s.fields.value.canPush
    ensures r.outcome.Fail? ==> r.outcome.error == IncorrectFieldsProp && r.after == s
    ensures r.outcome.Pass? ==> Items(r.after) == Items(s) + [BlankRecord(columns)]
    ensures r.after.addingContent == s.addingContent
  {
    match s.fields
    case None => Step(Fail(IncorrectFieldsProp), s)
    case Some(b) =>
      if !b.canPush then Step(Fail(IncorrectFieldsProp), s)
      else Step(Pass, s.(fields := Some(b.(value := Some(BuildDataFromFields(b.value) + [BlankRecord(columns)])))))
  }

  /** `startEditingContent()` */
  function Start(s: Editor, columns: seq<Column>): (r: Step)
    ensures s.fields.None? ==> r == Step(Fail(TypeError), s)
    ensures r.outcome.Pass? ==> r.after.addingContent
    ensures r.outcome.Fail? ==> r.after == s
    ensures s.fields.Some? && Items(s) != [] ==> r == Step(Pass, s.(addingContent := true))
    ensures s.fields.Some? && Items(s) == [] && s.fields.value.canPush ==>
              r.outcome == Pass && Items(r.after) == [BlankRecord(columns)]
    ensures s.fields.Some? && Items(s) == [] && !s.fields.value.canPush ==>
              r == Step(Fail(IncorrectFieldsProp), s)
  {
    if s.fields.None? then Step(Fail(TypeError), s)
    else if Items(s) == [] then
      var added := Add(s, columns);
      if added.outcome.Fail? then added else Step(Pass, added.after.(addingContent := true))
    else Step(Pass, s.(addingContent := true))
  }

  /** `removeContent(index)` */
  function Remove(s: Editor, index: nat): (r: Step)
    ensures s.fields.None? ==> r == Step(Fail(TypeError), s)
    ensures s.fields.Some? ==> r.outcome == Pass && Items(r.after) == RemoveAt(Items(s), index)
    ensures r.after.addingContent == s.addingContent
  {
    match s.fields
    case None => Step(Fail(TypeError), s)
    case Some(b) =>
      var list := BuildDataFromFields(b.value);
      if index < |list| then Step(Pass, s.(fields := Some(b.(value := Some(RemoveAt(list, index))))))
      else Step(Pass, s)
  }

  /** The record test of `doneEditingContent`: an object every one of whose
      own keys holds a falsy value. */
  predicate AllFieldsFalsy(e: Entry)
  {
    e.Record? && forall k :: k in e.fields ==> Falsy(e.fields[k])
  }

  /** The scalar test of `doneEditingContent`: `!record && record !== 0`. */
  predicate FalsyNotZero(e: Entry)
  {
    e.Scalar? && Falsy(e.v) && e.v != Num(0)
  }

  /** A blank entry: what must not be left alone in the list when a session ends. */
  predicate Blank(e: Entry)
  {
    AllFieldsFalsy(e) || FalsyNotZero(e)
  }

  /** `doneEditingContent()`. A lone `null` entry passes `typeof record ===
      "object"` and makes `Object.keys(null)` throw. */
  function Done(s: Editor): (r: Step)
    ensures s.fields.None? ==> r == Step(Fail(TypeError), s)
    ensures r.outcome.Fail? ==> r.after == s
    ensures r.outcome.Fail? <==> s.fields.None? || Items(s) == [Scalar(Null)]
    ensures r.outcome.Pass? ==> !r.after.addingContent
    ensures r.outcome.Pass? ==> !(|Items(r.after)| == 1 && Blank(Items(r.after)[0]))
    ensures r.outcome.Pass? && |Items(s)| != 1 ==> Items(r.after) == Items(s)
    ensures r.outcome.Pass? && |Items(s)| == 1 ==> Items(r.after) == if Blank(Items(s)[0]) then [] else Items(s)
  {
    match s.fields
    case None => Step(Fail(TypeError), s)
    case Some(b) =>
      var list := BuildDataFromFields(b.value);
      if b.value.Some? && |list| == 1 then
        var record := list[0];
        if record == Scalar(Null) then Step(Fail(TypeError), s)
        else if Blank(record) then
          var removed := Remove(s, 0);
          Step(Pass, removed.after.(addingContent := false))
        else Step(Pass, s.(addingContent := false))
      else Step(Pass, s.(addingContent := false))
  }

  /** The blank record is blank: a session that adds it and edits nothing
      leaves nothing behind. */
  lemma BlankRecordIsBlank(columns: seq<Column>)
    ensures Blank(BlankRecord(columns))
  {
    var e := BlankRecord(columns);
    forall k | k in e.fields
      ensures Falsy(e.fields[k])
    {
      assert e.fields[k] == Undefined;
    }
  }

  /** Starting a session on an empty (or unset) list and ending it without
      edits leaves the list empty and the editor closed. */
  lemma StartThenDoneLeavesEmpty(value: Option<seq<Entry>>, columns: seq<Column>, adding: bool)
    requires BuildDataFromFields(value) == []
    ensures var started := Start(Editor(Some(Binding(value, true)), adding), columns);
      && started.outcome == Pass
      && var done := Done(started.after);
      && done.outcome == Pass && Items(done.after) == [] && !done.after.addingContent
  {
    var s := Editor(Some(Binding(value, true)), adding);
    var started := Start(s, columns);
    BlankRecordIsBlank(columns);
    assert Items(started.after) == [BlankRecord(columns)];
  }

  /** Starting a session on an empty list, giving one field of the new record
      a truthy value and ending the session keeps exactly that record. */
  lemma StartEditThenDoneKeeps(value: Option<seq<Entry>>, columns: seq<Column>, key: string, v: Value)
    requires BuildDataFromFields(value) == [] && !Falsy(v)
    ensures var started := Start(Editor(Some(Binding(value, true)), false), columns);
      && started.outcome == Pass
      && var edited := Record(BlankRecord(columns).fields[key := v]);
      && var done := Done(started.after.(fields := Some(Binding(Some([edited]), true))));
      && done.outcome == Pass && Items(done.after) == [edited] && !done.after.addingContent
  {
    var edited := Record(BlankRecord(columns).fields[key := v]);
    assert !Blank(edited) by {
      assert key in edited.fields && !Falsy(edited.fields[key]);
    }
  }

  /** Removing the entry that `addContent` just appended gives back the list
      as it was. */
  lemma AddThenRemoveRestores(s: Editor, columns: seq<Column>)
    requires s.fields.Some? && s.fields.value.canPush
    ensures var added := Add(s, columns);
      && added.outcome == Pass
      && var removed := Remove(added.after, |Items(s)|);
      && removed.outcome == Pass && Items(removed.after) == Items(s)
  {
    var added := Add(s, columns);
    var list := Items(added.after);
    assert list == Items(s) + [BlankRecord(columns)];
    assert list[..|Items(s)|] == Items(s);
  }

  /** Ending a session twice is the same as ending it once. */
  lemma DoneIdempotent(s: Editor)
    requires Done(s).outcome == Pass
    ensures Done(Done(s).after) == Step(Pass, Done(s).after)
  {
  }

  /** Starting a session twice is the same as starting it once. */
  lemma StartIdempotent(s: Editor, columns: seq<Column>)
    requires Start(s, columns).outcome == Pass
    ensures Start(Start(s, columns).after, columns) == Step(Pass, Start(s, columns).after)
  {
  }

  // ---------------------------------------------------------------------------
  // The components

  /** The form library's list-field binding, modelled as a mutable list. */
  class FieldArray {
    var value: Option<seq<Entry>>   // what getAll() returns; unset until the field holds an array
    const canPush: bool             // whether the binding exposes push

    constructor (value: Option<seq<Entry>>, canPush: bool)
      ensures this.value == value && this.canPush == canPush
    {
      this.value := value;
      this.canPush := canPush;
    }

    /** `push(item)` */
    method Push(item: Entry)
      requires canPush
      modifies this
      ensures value == Some(BuildDataFromFields(old(value)) + [item])
    {
      value := Some(BuildDataFromFields(value) + [item]);
    }

    /** `remove(index)` */
    method Remove(index: nat)
      modifies this
      ensures index < |BuildDataFromFields(old(value))| ==> value == Some(RemoveAt(BuildDataFromFields(old(value)), index))
      ensures index >= |BuildDataFromFields(old(value))| ==> value == old(value)
    {
      var list := BuildDataFromFields(value);
      if index < |list| {
        value := Some(RemoveAt(list, index));
      }
    }
  }

  class DatagridFieldComponent {
    var fields: FieldArray?                 // props.fields
    var columnModel: seq<Column>            // props.columnModel
    var addingContent: bool                 // state.addingContent
    var changes: seq<Option<seq<Entry>>>    // the argument of every props.onChange call so far

    ghost function State(): Editor
      reads this, fields
    {
      Editor(if fields == null then None else Some(Binding(fields.value, fields.canPush)), addingContent)
    }

    constructor (fields: FieldArray?, columnModel: seq<Column>)
      ensures this.fields == fields && this.columnModel == columnModel
      ensures !addingContent && changes == []
    {
      this.fields := fields;
      this.columnModel := columnModel;
      addingContent := false;
      changes := [];
    }

    /** New props arrive and `componentDidUpdate` runs: a `fields` prop of
        a new identity is reported once to `onChange` with its whole list. */
    method ReceiveFields(newFields: FieldArray?) returns (outcome: Outcome)
      modifies this
      ensures fields == newFields && columnModel == old(columnModel) && addingContent == old(addingContent)
      ensures newFields == old(fields) ==> outcome == Pass && changes == old(changes)
      ensures newFields != old(fields) && newFields == null ==> outcome == Fail(TypeError) && changes == old(changes)
      ensures newFields != old(fields) && newFields != null ==>
                outcome == Pass && changes == old(changes) + [newFields.value]
    {
      var previous := fields;
      fields := newFields;
      outcome := Pass;
      if newFields != previous {
        if newFields == null {
          return Fail(TypeError);
        }
        changes := changes + [newFields.value];
      }
    }

    /** `addContent()` */
    method AddContent() returns (outcome: Outcome)
      modifies fields
      ensures Step(outcome, State()) == Add(old(State()), columnModel)
    {
      if fields == null || !fields.canPush {
        return Fail(IncorrectFieldsProp);
      }
      fields.Push(BlankRecord(columnModel));
      outcome := Pass;
    }

    /** `removeContent(index)` */
    method RemoveContent(index: nat) returns (outcome: Outcome)
      modifies fields
      ensures Step(outcome, State()) == Remove(old(State()), index)
    {
      if fields == null {
        return Fail(TypeError);
      }
      fields.Remove(index);
      outcome := Pass;
    }

    /** `startEditingContent()` */
    method StartEditingContent() returns (outcome: Outcome)
      modifies this, fields
      ensures fields == old(fields) && columnModel == old(columnModel) && changes == old(changes)
      ensures Step(outcome, State()) == Start(old(State()), columnModel)
    {
      if fields == null {
        return Fail(TypeError);
      }
      var data := fields.value;
      if data.None? || |data.value| < 1 {
        outcome := AddContent();
        if outcome.Fail? {
          return;
        }
      }
      addingContent := true;
      outcome := Pass;
    }

    /** `doneEditingContent()` */
    method DoneEditingContent() returns (outcome: Outcome)
      modifies this, fields
      ensures fields == old(fields) && columnModel == old(columnModel) && changes == old(changes)
      ensures Step(outcome, State()) == Done(old(State()))
    {
      if fields == null {
        return Fail(TypeError);
      }
      var data := fields.value;
      if data.Some? && |data.value| == 1 {
        var record := data.value[0];
        if record == Scalar(Null) {
          return Fail(TypeError);
        } else if AllFieldsFalsy(record) {
          outcome := RemoveContent(0);
        } else if FalsyNotZero(record) {
          outcome := RemoveContent(0);
        }
      }
      addingContent := false;
      outcome := Pass;
    }
  }
}
