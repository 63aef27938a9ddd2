/** The task-field service: creating a task field from its template, marking
    the field's selections as selected or not, and binding uploaded file
    attachments to a file field. The database rows the service touches are
    fields of the `Service` object, updated in place. */
module TaskFields {
  import opened Common
  import opened Decimal
  import opened FieldValues

  datatype FieldType = Text | String | Url | Date | User | File | Checkbox | Radio | Dropdown

  /** The template a task field is created from. */
  datatype FieldTemplate = FieldTemplate(
    fieldType: FieldType,
    name: string,
    description: string,
    apiName: string,
    order: int,
    isRequired: bool,
    selections: seq<Choice>)

  /** A task field belongs to a task or to a workflow's kickoff form, never to both. */
  datatype Owner = OnTask(taskId: nat) | OnKickoff(kickoffId: nat)

  datatype TaskField = TaskField(
    id: nat,
    fieldType: FieldType,
    isRequired: bool,
    name: string,
    description: string,
    apiName: string,
    order: int,
    owner: Owner,
    workflowId: nat,
    value: string,
    markdownValue: Option<string>,
    clearValue: Option<string>,
    userId: Option<int>)

  /** A selection row of a task field. */
  datatype FieldSelection = FieldSelection(id: nat, apiName: string, value: string, isSelected: bool)

  /** One call of the selection service's create: the template selection, the
      task field it is created for, and whether it starts selected. */
  datatype CreatedSelection = CreatedSelection(template: Choice, fieldId: nat, isSelected: bool)

  /** An uploaded file: the account that owns it, the task field it is an
      output of, its workflow, and the workflow event (comment) it belongs to. */
  datatype Attachment = Attachment(
    id: nat,
    accountId: nat,
    outputId: Option<nat>,
    workflowId: Option<nat>,
    eventId: Option<nat>)

  /** Why creating a field fails: the validator rejected the value, or a user
      field's value is not an integer (Python's `int()` raising). */
  datatype Failure = Rejected(error: FieldError) | NotAnInteger

  /** A validator: the raw value to (value, markdown value), or a rejection. */
  type Validator = Raw -> Result<(string, string), FieldError>

  /** Python's `int(raw)` for the value of a user field. */
  function UserIdOf(raw: Raw): (r: Result<int, Failure>)
    ensures raw.Int? ==> r == Ok(raw.i)
    ensures raw.Str? ==> (r.Ok? <==> ParseNat(raw.s).Some?)
    ensures raw.Null? || raw.List? ==> r == Err(NotAnInteger)
  {
    match raw
    case Int(i) => Ok(i)
    case Bool(b) => Ok(if b then 1 else 0)
    case Str(s) =>
      (match ParseNat(s)
       case Some(n) => Ok(n)
       case None => Err(NotAnInteger))
    case _ => Err(NotAnInteger)
  }

  /** A user id sent as its decimal text is read back as that id. */
  lemma UserIdOfDecimal(n: nat)
    ensures UserIdOf(Str(NatToString(n))) == Ok(n)
  {
    ParseNatToString(n);
  }

  /** The field as first created from its template: metadata copied from the
      template, bound to its owner and workflow, and no value yet. */
  function NewField(template: FieldTemplate, fieldId: nat, owner: Owner, workflowId: nat): (f: TaskField)
    ensures f.id == fieldId && f.owner == owner && f.workflowId == workflowId
    ensures f.fieldType == template.fieldType && f.isRequired == template.isRequired
    ensures f.name == template.name && f.description == template.description
    ensures f.apiName == template.apiName && f.order == template.order
    ensures f.value == "" && f.markdownValue.None? && f.clearValue.None? && f.userId.None?
  {
    TaskField(fieldId, template.fieldType, template.isRequired, template.name, template.description,
              template.apiName, template.order, owner, workflowId, "", None, None, None)
  }

  /** The id list names the attachment, as an integer or as its decimal text. */
  predicate IdListed(id: nat, ids: seq<Raw>) {
    exists k :: 0 <= k < |ids| && (ids[k] == Int(id) || (ids[k].Str? && ParseNat(ids[k].s) == Some(id)))
  }

  /** The guard for binding an attachment: listed, owned by the user's
      account, and not part of a workflow event. */
  predicate Linkable(a: Attachment, ids: seq<Raw>, accountId: nat) {
    IdListed(a.id, ids) && a.accountId == accountId && a.eventId.None?
  }

  /** The attachment table after binding the listed attachments to a field. */
  function Linked(atts: seq<Attachment>, ids: seq<Raw>, accountId: nat, fieldId: nat, workflowId: nat): (r: seq<Attachment>)
    ensures |r| == |atts|
  {
    seq(|atts|, i requires 0 <= i < |atts| =>
      if Linkable(atts[i], ids, accountId)
      then atts[i].(outputId := Some(fieldId), workflowId := Some(workflowId))
      else atts[i])
  }

  /** Binding changes exactly the attachments that pass the guard, and only
      their field and workflow; every other row is left as it was. */
  lemma LinkedChangesOnlyGuarded(atts: seq<Attachment>, ids: seq<Raw>, accountId: nat, fieldId: nat, workflowId: nat, i: nat)
    requires i < |atts|
    ensures var r := Linked(atts, ids, accountId, fieldId, workflowId);
            r[i].id == atts[i].id && r[i].accountId == atts[i].accountId && r[i].eventId == atts[i].eventId &&
            (r[i].outputId == Some(fieldId) <==> Linkable(atts[i], ids, accountId) || atts[i].outputId == Some(fieldId)) &&
            (!Linkable(atts[i], ids, accountId) ==> r[i] == atts[i])
  {
  }

  /** An empty id list binds nothing. */
  lemma LinkedNothingListed(atts: seq<Attachment>, accountId: nat, fieldId: nat, workflowId: nat)
    ensures Linked(atts, [], accountId, fieldId, workflowId) == atts
  {
  }

  /** Binding the same list twice is binding it once. */
  lemma LinkedIdempotent(atts: seq<Attachment>, ids: seq<Raw>, accountId: nat, fieldId: nat, workflowId: nat)
    ensures var once := Linked(atts, ids, accountId, fieldId, workflowId);
            Linked(once, ids, accountId, fieldId, workflowId) == once
  {
  }

  /** Whether a file field's update deletes the attachment: it is bound to
      the field and the new value does not list it. */
  predicate Unlisted(a: Attachment, fieldId: nat, ids: seq<Raw>) {
    a.outputId == Some(fieldId) && !IdListed(a.id, ids)
  }

  /** The attachment table without the rows that are bound to the field and
      not listed in its new value. */
  function RemoveUnlisted(atts: seq<Attachment>, fieldId: nat, ids: seq<Raw>): seq<Attachment> {
    Filter(atts, (a: Attachment) => !Unlisted(a, fieldId, ids))
  }

  /** After a file field's update, the attachments bound to the field are
      exactly the listed ones: every bound attachment is listed, every listed
      attachment of the user's account outside any event is bound, and an
      attachment that was bound before and is listed again stays bound. */
  lemma UpdatedFileBindsExactlyListed(atts: seq<Attachment>, ids: seq<Raw>, accountId: nat, fieldId: nat, workflowId: nat)
    ensures var r := Linked(RemoveUnlisted(atts, fieldId, ids), ids, accountId, fieldId, workflowId);
            forall i :: 0 <= i < |r| && r[i].outputId == Some(fieldId) ==> IdListed(r[i].id, ids)
    ensures var r := Linked(RemoveUnlisted(atts, fieldId, ids), ids, accountId, fieldId, workflowId);
            forall i :: 0 <= i < |r| && Linkable(r[i], ids, accountId) ==> r[i].outputId == Some(fieldId)
    ensures var r := Linked(RemoveUnlisted(atts, fieldId, ids), ids, accountId, fieldId, workflowId);
            forall j :: 0 <= j < |atts| && atts[j].outputId == Some(fieldId) && IdListed(atts[j].id, ids) ==>
              exists i :: 0 <= i < |r| && r[i].id == atts[j].id && r[i].outputId == Some(fieldId)
  {
    var kept := RemoveUnlisted(atts, fieldId, ids);
    var r := Linked(kept, ids, accountId, fieldId, workflowId);
    forall i | 0 <= i < |kept| ensures !Unlisted(kept[i], fieldId, ids) {
    }
    forall j | 0 <= j < |atts| && atts[j].outputId == Some(fieldId) && IdListed(atts[j].id, ids)
      ensures exists i :: 0 <= i < |r| && r[i].id == atts[j].id && r[i].outputId == Some(fieldId)
    {
      assert !Unlisted(atts[j], fieldId, ids);
      assert atts[j] in kept;
      var i :| 0 <= i < |kept| && kept[i] == atts[j];
      assert r[i].id == atts[j].id && r[i].outputId == Some(fieldId);
    }
  }

  /** Two attachments bound to a file field, the update listing the second
      by its id as text: the first is deleted, the second stays bound. */
  lemma UpdateKeepsListedFile()
    ensures var atts := [Attachment(1, 7, Some(3), Some(9), None), Attachment(2, 7, Some(3), Some(9), None)];
            Linked(RemoveUnlisted(atts, 3, [Str("2")]), [Str("2")], 7, 3, 9) == [atts[1]]
  {
    var ids := [Str("2")];
    assert ParseNat("2") == Some(2);
    assert ParseNat(ids[0].s) == Some(2);
    assert !IdListed(1, ids);
    assert IdListed(2, ids);
    var atts := [Attachment(1, 7, Some(3), Some(9), None), Attachment(2, 7, Some(3), Some(9), None)];
    assert atts[1..][1..] == [];
    assert RemoveUnlisted(atts, 3, ids) == [atts[1]];
  }

  /** The calls that create a field's selections from its template. */
  function Creations(templates: seq<Choice>, fieldId: nat, raw: Raw): (r: seq<CreatedSelection>)
    ensures |r| == |templates|
  {
    seq(|templates|, i requires 0 <= i < |templates| =>
      CreatedSelection(templates[i], fieldId, IsSelected(raw, templates[i].id, templates[i].apiName)))
  }

  class Service {
    /** The task field the service works on, once there is one. */
    var instance: Option<TaskField>
    /** The account of the user the service acts for. */
    const accountId: nat
    /** The file attachment table. */
    var attachments: seq<Attachment>
    /** The selection rows of the instance. */
    var selections: seq<FieldSelection>
    /** The calls made to the selection service's create, in order. */
    var createdSelections: seq<CreatedSelection>

    constructor (instance: Option<TaskField>, accountId: nat, attachments: seq<Attachment>, selections: seq<FieldSelection>)
      ensures this.instance == instance && this.accountId == accountId
      ensures this.attachments == attachments && this.selections == selections
      ensures createdSelections == []
    {
      this.instance := instance;
      this.accountId := accountId;
      this.attachments := attachments;
      this.selections := selections;
      this.createdSelections := [];
    }

    /** Creates the field from its template. With `skipValue` the field has an
        empty value and the validator is not consulted; otherwise the value is
        validated, its markdown-free form is stored as the clear value, and a
        user field takes `int(raw)` as its user id. */
    method CreateInstance(template: FieldTemplate, raw: Raw, owner: Owner, workflowId: nat, fieldId: nat,
                          skipValue: bool, validate: Validator, clear: string -> string)
      returns (r: Result<(), Failure>)
      modifies this`instance
      ensures skipValue ==> r.Ok? && instance == Some(NewField(template, fieldId, owner, workflowId))
      ensures !skipValue && validate(raw).Err? ==>
                r == Err(Rejected(validate(raw).error)) && instance == old(instance)
      ensures !skipValue && validate(raw).Ok? && template.fieldType == User && UserIdOf(raw).Err? ==>
                r == Err(NotAnInteger) && instance == old(instance)
      ensures !skipValue && validate(raw).Ok? && (template.fieldType != User || UserIdOf(raw).Ok?) ==> r.Ok?
      ensures !skipValue && r.Ok? ==>
                validate(raw).Ok? &&
                var (value, markdown) := validate(raw).value;
                instance == Some(NewField(template, fieldId, owner, workflowId).(
                  value := value,
                  markdownValue := Some(markdown),
                  clearValue := Some(clear(value)),
                  userId := if template.fieldType == User then Some(UserIdOf(raw).value) else None))
    {
      var field := NewField(template, fieldId, owner, workflowId);
      if skipValue {
        instance := Some(field);
        return Ok(());
      }
      var checked := validate(raw);
      if checked.Err? {
        return Err(Rejected(checked.error));
      }
      var (value, markdown) := checked.value;
      var userId: Option<int> := None;
      if template.fieldType == User {
        var parsed := UserIdOf(raw);
        if parsed.Err? {
          return Err(NotAnInteger);
        }
        userId := Some(parsed.value);
      }
      instance := Some(field.(value := value, markdownValue := Some(markdown),
                              clearValue := Some(clear(value)), userId := userId));
      r := Ok(());
    }

    /** Asks the selection service to create one selection per template
        selection, in template order, marked selected when the raw value
        names it. */
    method CreateSelectionsWithValue(raw: Raw, template: FieldTemplate)
      requires instance.Some?
      modifies this`createdSelections
      ensures createdSelections == old(createdSelections) + Creations(template.selections, instance.value.id, raw)
    {
      var fieldId := instance.value.id;
      var templates := template.selections;
      for i := 0 to |templates|
        invariant createdSelections == old(createdSelections) + Creations(templates[..i], fieldId, raw)
      {
        var t := templates[i];
        assert templates[..i + 1] == templates[..i] + [t];
        createdSelections := createdSelections + [CreatedSelection(t, fieldId, IsSelected(raw, t.id, t.apiName))];
      }
      assert templates[..|templates|] == templates;
    }

    /** Updates every selection row of the field, in order, to be selected
        exactly when the raw value names it; nothing else in a row changes. */
    method UpdateSelections(raw: Raw)
      modifies this`selections
      ensures |selections| == |old(selections)|
      ensures forall i :: 0 <= i < |selections| ==>
                selections[i] == old(selections)[i].(isSelected := IsSelected(raw, old(selections)[i].id, old(selections)[i].apiName))
    {
      for i := 0 to |selections|
        invariant |selections| == |old(selections)|
        invariant forall j :: 0 <= j < i ==>
                    selections[j] == old(selections)[j].(isSelected := IsSelected(raw, old(selections)[j].id, old(selections)[j].apiName))
        invariant forall j :: i <= j < |selections| ==> selections[j] == old(selections)[j]
      {
        var s := selections[i];
        selections := selections[i := s.(isSelected := IsSelected(raw, s.id, s.apiName))];
      }
    }

    /** Binds to the field, and to its workflow, the listed attachments that
        belong to the user's account and to no workflow event. */
    method LinkNewAttachments(ids: seq<Raw>)
      requires instance.Some?
      modifies this`attachments
      ensures attachments == Linked(old(attachments), ids, accountId, instance.value.id, instance.value.workflowId)
    {
      var field := instance.value;
      for i := 0 to |attachments|
        invariant |attachments| == |old(attachments)|
        invariant forall j :: 0 <= j < i ==>
                    attachments[j] == Linked(old(attachments), ids, accountId, field.id, field.workflowId)[j]
        invariant forall j :: i <= j < |attachments| ==> attachments[j] == old(attachments)[j]
      {
        var a := attachments[i];
        if Linkable(a, ids, accountId) {
          attachments := attachments[i := a.(outputId := Some(field.id), workflowId := Some(field.workflowId))];
        }
      }
    }

    /** Updates a file field: validates the raw value, deletes the attachments
        bound to the field that the new value does not list, binds the listed
        ones, and stores the value, its markdown and its clear form.
        Selections and the user id are left alone. */
    method PartialUpdateFile(raw: Raw, validate: Validator, clear: string -> string)
      returns (r: Result<(), FieldError>)
      requires instance.Some? && instance.value.fieldType == File
      modifies this`instance, this`attachments
      ensures validate(raw).Err? ==>
                r == Err(validate(raw).error) && instance == old(instance) && attachments == old(attachments)
      ensures validate(raw).Ok? ==>
                var f := old(instance).value;
                var (value, markdown) := validate(raw).value;
                r.Ok? &&
                var ids := if raw.List? then raw.items else [];
                attachments == Linked(RemoveUnlisted(old(attachments), f.id, ids), ids, accountId, f.id, f.workflowId) &&
                instance == Some(f.(value := value, markdownValue := Some(markdown), clearValue := Some(clear(value))))
    {
      var checked := validate(raw);
      if checked.Err? {
        return Err(checked.error);
      }
      var (value, markdown) := checked.value;
      var f := instance.value;
      var ids := if raw.List? then raw.items else [];
      attachments := RemoveUnlisted(attachments, f.id, ids);
      LinkNewAttachments(ids);
      instance := Some(f.(value := value, markdownValue := Some(markdown), clearValue := Some(clear(value))));
      r := Ok(());
    }
  }
}
