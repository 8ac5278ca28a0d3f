/**
 * The task controller: `create` stamps and validates a new task and inserts it, `deleteById`
 * removes a task by id, and `updateById` validates a partial update, sets it, and reports the
 * touched fields before and after.
 *
 * Each operation is a method on the store and the validator, proved against a function of the
 * old store state (`CreateStep`, `DeleteStep`, `UpdateStep`); the lemmas state what the
 * operations promise in terms of those functions. The clock reading `now` and the id check
 * `isValidId` are inputs.
 */
module TaskController {
  import opened Results
  import opened JsValues
  import opened Strings
  import opened TaskSchemas
  import opened Validation
  import opened Store

  const NotFoundMessage := "Task not found."

  /** What an operation returns or throws, and the stored tasks it leaves behind. */
  datatype Step<T> = Step(result: Result<T>, docs: map<string, Record>)

  /** What `updateById` returns: the touched fields before the update and as submitted. */
  datatype Diff = Diff(before: Record, after: Record)

  /** The fields `create` writes over whatever the caller sent. */
  const StampedKeys: set<string> := {"createdAt", "lastModifiedAt", "status"}

  /** The new task: the caller's fields, then both timestamps set to `now` and the status `to_do`. */
  function NewTask(info: Record, now: int): (t: Record)
    ensures t.Keys == info.Keys + StampedKeys
    ensures t["createdAt"] == Num(now) && t["lastModifiedAt"] == Num(now) && t["status"] == Str("to_do")
    ensures forall k :: k in info && k !in StampedKeys ==> t[k] == info[k]
  {
    info["createdAt" := Num(now)]["lastModifiedAt" := Num(now)]["status" := Str("to_do")]
  }

  /** The update that is validated and written: the caller's fields, then `lastModifiedAt` set to `now`. */
  function UpdatedTask(data: Record, now: int): (t: Record)
    ensures t.Keys == data.Keys + {"lastModifiedAt"}
    ensures t["lastModifiedAt"] == Num(now)
    ensures forall k :: k in data && k != "lastModifiedAt" ==> t[k] == data[k]
  {
    data["lastModifiedAt" := Num(now)]
  }

  /** `before`: each given key mapped to the document's value for it (`undefined` where it has none). */
  function Projection(doc: Record, keys: set<string>): Record
  {
    map k | k in keys :: Get(doc, k)
  }

  /** `create`, when the store assigns `id` to the inserted task. */
  function CreateStep(docs: map<string, Record>, info: Record, now: int,
                      first: set<SchemaError> -> SchemaError, id: string): Step<Record>
  {
    var task := NewTask(info, now);
    match ValidateResult("createTask", Obj(task), first)
    case Err(e) => Step(Err(e), docs)
    case Ok(_) => Step(Ok(task["id" := Str(id)]), docs[id := task])
  }

  /** `deleteById`, where `idValid` is the verdict of the id check on `taskId`. */
  function DeleteStep(docs: map<string, Record>, idValid: bool, taskId: string): Step<string>
  {
    if !idValid then Step(Err(NotFoundError(NotFoundMessage)), docs)
    else
      var deletedCount := if taskId in docs then 1 else 0;
      var remaining := docs - {taskId};
      if deletedCount != 1 then Step(Err(NotFoundError(NotFoundMessage)), remaining)
      else Step(Ok(taskId), remaining)
  }

  /** `updateById`, where `returnsUpdated` says which image of the document the store hands back. */
  function UpdateStep(docs: map<string, Record>, idValid: bool, now: int, taskId: string, data: Record,
                      first: set<SchemaError> -> SchemaError, returnsUpdated: bool): Step<Diff>
  {
    if !idValid then Step(Err(NotFoundError(NotFoundMessage)), docs)
    else
      var task := UpdatedTask(data, now);
      match ValidateResult("updateTask", Obj(task), first)
      case Err(e) => Step(Err(e), docs)
      case Ok(_) =>
        if taskId !in docs then Step(Err(NotFoundError(NotFoundMessage)), docs)
        else
          var returned := Returned(returnsUpdated, docs[taskId], task);
          Step(Ok(Diff(Projection(returned, data.Keys), data)), docs[taskId := docs[taskId] + task])
  }

  // ---------------------------------------------------------------------------------------
  // The operations

  method Create(store: TaskStore, validator: Validator, now: int, coreTaskInfo: Record)
    returns (r: Result<Record>)
    requires validator.Valid()
    modifies store, validator
    ensures validator.Valid()
    ensures exists id ::
      && id !in old(store.docs)
      && Step(r, store.docs) == CreateStep(old(store.docs), coreTaskInfo, now, validator.first, id)
    ensures validator.compiled == old(validator.compiled)["createTask" := Compile(CreateSchema)]
  {
    var newTask := NewTask(coreTaskInfo, now);
    var outcome := validator.Validate("createTask", Obj(newTask));
    if outcome.Err? {
      FreshIdExists(store.docs.Keys);
      return Err(outcome.error);
    }
    var insertedId := store.InsertOne(newTask);
    r := Ok(newTask["id" := Str(insertedId)]);
  }

  method DeleteById(store: TaskStore, isValidId: string -> bool, taskId: string) returns (r: Result<string>)
    modifies store
    ensures Step(r, store.docs) == DeleteStep(old(store.docs), isValidId(taskId), taskId)
  {
    if !isValidId(taskId) {
      return Err(NotFoundError(NotFoundMessage));
    }
    var deletedCount := store.DeleteOneById(taskId);
    if deletedCount != 1 {
      return Err(NotFoundError(NotFoundMessage));
    }
    r := Ok(taskId);
  }

  /** The loop that fills `before`: one entry per key of `after`, read from the returned document. */
  method FillBefore(doc: Record, after: Record) returns (before: Record)
    ensures before.Keys == after.Keys
    ensures forall k :: k in after ==> before[k] == Get(doc, k)
  {
    before := map[];
    var keys := after.Keys;
    while keys != {}
      invariant keys <= after.Keys
      invariant before.Keys == after.Keys - keys
      invariant forall k :: k in before ==> before[k] == Get(doc, k)
      decreases keys
    {
      var key :| key in keys;
      before := before[key := Get(doc, key)];
      keys := keys - {key};
    }
  }

  method UpdateById(store: TaskStore, validator: Validator, isValidId: string -> bool, now: int,
                    taskId: string, updatedData: Record) returns (r: Result<Diff>)
    requires validator.Valid()
    modifies store, validator
    ensures validator.Valid()
    ensures Step(r, store.docs) ==
      UpdateStep(old(store.docs), isValidId(taskId), now, taskId, updatedData, validator.first, store.returnsUpdated)
    ensures !isValidId(taskId) ==> validator.compiled == old(validator.compiled)
  {
    if !isValidId(taskId) {
      return Err(NotFoundError(NotFoundMessage));
    }
    var updatedTask := UpdatedTask(updatedData, now);
    var outcome := validator.Validate("updateTask", Obj(updatedTask));
    if outcome.Err? {
      return Err(outcome.error);
    }
    var result := store.UpdateOneById(taskId, updatedTask);
    if result.None? {
      return Err(NotFoundError(NotFoundMessage));
    }
    var modifiedDoc := result.value;
    var after := updatedData;
    var before := FillBefore(modifiedDoc, after);
    assert before == Projection(modifiedDoc, after.Keys);
    r := Ok(Diff(before, after));
  }

  // ---------------------------------------------------------------------------------------
  // What `create` promises

  /**
   * A created task has status `to_do` and both timestamps equal to `now`, whatever the caller
   * sent for those fields, and carries the id the store assigned.
   */
  lemma CreateStampsTask(docs: map<string, Record>, info: Record, now: int,
                         first: set<SchemaError> -> SchemaError, id: string)
    requires CreateStep(docs, info, now, first, id).result.Ok?
    ensures var task := CreateStep(docs, info, now, first, id).result.value;
      && task["status"] == Str("to_do")
      && task["createdAt"] == Num(now) && task["lastModifiedAt"] == Num(now)
      && task["id"] == Str(id)
  {
  }

  /** Title, description and owner reach the created task unchanged; one the caller left out stays out. */
  lemma CreateCopiesFields(docs: map<string, Record>, info: Record, now: int,
                           first: set<SchemaError> -> SchemaError, id: string, k: string)
    requires CreateStep(docs, info, now, first, id).result.Ok?
    requires k in {"title", "description", "username"}
    ensures var task := CreateStep(docs, info, now, first, id).result.value;
      && (k in task <==> k in info)
      && (k in info ==> task[k] == info[k])
  {
    var newTask := NewTask(info, now);
    assert k != "id" && k !in StampedKeys;
  }

  /**
   * `create` succeeds exactly when the stamped task passes the `create` schema; then the task is
   * stored under the new id, and otherwise a ValidationError is thrown and nothing is stored.
   */
  lemma CreateSucceedsIff(docs: map<string, Record>, info: Record, now: int,
                          first: set<SchemaError> -> SchemaError, id: string)
    ensures var step := CreateStep(docs, info, now, first, id);
      && (step.result.Ok? <==> ValidCreate(NewTask(info, now)))
      && (step.result.Ok? ==> step.docs == docs[id := NewTask(info, now)])
      && (step.result.Err? ==> step.result.error.ValidationError? && step.docs == docs)
  {
    ValidateCreateIff(NewTask(info, now), first);
  }

  /** A payload with neither a title nor a description is rejected, and nothing is stored. */
  lemma CreateNeedsTitleOrDescription(docs: map<string, Record>, info: Record, now: int,
                                      first: set<SchemaError> -> SchemaError, id: string)
    requires !Present(info, "title") && !Present(info, "description")
    ensures var step := CreateStep(docs, info, now, first, id);
      step.result.Err? && step.result.error.ValidationError? && step.docs == docs
  {
    var task := NewTask(info, now);
    assert !Present(task, "title") && !Present(task, "description");
    CreateRequiredFields(task);
    CreateSucceedsIff(docs, info, now, first, id);
    CreateSchemaMeaning(Obj(task));
  }

  /**
   * A payload with a title or a description within their bounds, an owner of 3 to 100
   * characters and no other fields (values sent for the stamped fields are overwritten) is
   * stored as a new task.
   */
  lemma CreateAcceptsWellFormedPayload(docs: map<string, Record>, info: Record, now: int,
                                       first: set<SchemaError> -> SchemaError, id: string)
    requires info.Keys <= CreateFields
    requires Present(info, "title") || Present(info, "description")
    requires Present(info, "title") ==> StringOfLength(info["title"], 1, 100)
    requires Present(info, "description") ==> StringOfLength(info["description"], 1, 500)
    requires Present(info, "username") && StringOfLength(info["username"], 3, 100)
    ensures CreateStep(docs, info, now, first, id) == Step(Ok(NewTask(info, now)["id" := Str(id)]), docs[id := NewTask(info, now)])
  {
    var task := NewTask(info, now);
    assert Contains("to_do", "to_do");
    assert ValidCreate(task);
    CreateSucceedsIff(docs, info, now, first, id);
  }

  // ---------------------------------------------------------------------------------------
  // What `deleteById` promises

  /** A malformed id is reported as not found, and the store is not touched. */
  lemma DeleteMalformedId(docs: map<string, Record>, taskId: string)
    ensures DeleteStep(docs, false, taskId) == Step(Err(NotFoundError("Task not found.")), docs)
  {
  }

  /** A well-formed id removes its task; the call returns the id exactly when a task had it. */
  lemma DeleteIff(docs: map<string, Record>, taskId: string)
    ensures var step := DeleteStep(docs, true, taskId);
      && step.docs == docs - {taskId}
      && (step.result == Ok(taskId) <==> taskId in docs)
      && (taskId !in docs ==> step.result == Err(NotFoundError("Task not found.")))
  {
  }

  /** Deleting the same id twice fails the second time. */
  lemma DeleteTwiceFails(docs: map<string, Record>, idValid: bool, taskId: string)
    ensures var once := DeleteStep(docs, idValid, taskId);
      DeleteStep(once.docs, idValid, taskId).result == Err(NotFoundError("Task not found."))
  {
  }

  // ---------------------------------------------------------------------------------------
  // What `updateById` promises

  /** A malformed id is reported as not found before anything is validated or written. */
  lemma UpdateMalformedId(docs: map<string, Record>, now: int, taskId: string, data: Record,
                          first: set<SchemaError> -> SchemaError, returnsUpdated: bool)
    ensures UpdateStep(docs, false, now, taskId, data, first, returnsUpdated)
      == Step(Err(NotFoundError("Task not found.")), docs)
  {
  }

  /**
   * With a well-formed id, `updateById` succeeds exactly when the stamped update passes the
   * `update` schema and a task has the id; a failed validation throws a ValidationError and an
   * absent task a NotFoundError, and neither writes anything.
   */
  lemma UpdateSucceedsIff(docs: map<string, Record>, now: int, taskId: string, data: Record,
                          first: set<SchemaError> -> SchemaError, returnsUpdated: bool)
    ensures var step := UpdateStep(docs, true, now, taskId, data, first, returnsUpdated);
      && (step.result.Ok? <==> ValidUpdate(UpdatedTask(data, now)) && taskId in docs)
      && (!ValidUpdate(UpdatedTask(data, now)) ==> step.result.Err? && step.result.error.ValidationError?)
      && (ValidUpdate(UpdatedTask(data, now)) && taskId !in docs ==> step.result == Err(NotFoundError("Task not found.")))
      && (step.result.Err? ==> step.docs == docs)
  {
    ValidateUpdateIff(UpdatedTask(data, now), first);
  }

  /** An update that names none of title, description and status is rejected and writes nothing. */
  lemma UpdateNeedsAField(docs: map<string, Record>, now: int, taskId: string, data: Record,
                          first: set<SchemaError> -> SchemaError, returnsUpdated: bool)
    requires !Present(data, "title") && !Present(data, "description") && !Present(data, "status")
    ensures var step := UpdateStep(docs, true, now, taskId, data, first, returnsUpdated);
      step.result.Err? && step.result.error.ValidationError? && step.docs == docs
  {
    var task := UpdatedTask(data, now);
    assert !Present(task, "title") && !Present(task, "description") && !Present(task, "status");
    UpdateSucceedsIff(docs, now, taskId, data, first, returnsUpdated);
  }

  /**
   * A successful update sets exactly the submitted fields and `lastModifiedAt := now` (the
   * caller's own `lastModifiedAt` is overridden) on that one task; every other field, among them
   * `createdAt` and the owner, keeps its value, and every other task is untouched.
   */
  lemma UpdateWrites(docs: map<string, Record>, now: int, taskId: string, data: Record,
                     first: set<SchemaError> -> SchemaError, returnsUpdated: bool)
    requires UpdateStep(docs, true, now, taskId, data, first, returnsUpdated).result.Ok?
    ensures var written := UpdateStep(docs, true, now, taskId, data, first, returnsUpdated).docs;
      && taskId in docs && written.Keys == docs.Keys
      && (forall id :: id in docs && id != taskId ==> written[id] == docs[id])
      && written[taskId]["lastModifiedAt"] == Num(now)
      && (forall k :: k in data && k != "lastModifiedAt" ==> written[taskId][k] == data[k])
      && (forall k :: k !in data && k != "lastModifiedAt" ==> Get(written[taskId], k) == Get(docs[taskId], k))
      && Get(written[taskId], "createdAt") == Get(docs[taskId], "createdAt")
      && Get(written[taskId], "username") == Get(docs[taskId], "username")
  {
    var task := UpdatedTask(data, now);
    UpdateSucceedsIff(docs, now, taskId, data, first, returnsUpdated);
    assert task.Keys <= UpdateFields;
    assert "createdAt" !in data && "username" !in data;
  }

  /**
   * A successful update returns `after` equal to the submitted fields and `before` with the same
   * keys, each holding the returned document's value.
   */
  lemma UpdateDiff(docs: map<string, Record>, now: int, taskId: string, data: Record,
                   first: set<SchemaError> -> SchemaError, returnsUpdated: bool)
    requires UpdateStep(docs, true, now, taskId, data, first, returnsUpdated).result.Ok?
    ensures var diff := UpdateStep(docs, true, now, taskId, data, first, returnsUpdated).result.value;
      && taskId in docs
      && diff.after == data
      && diff.before.Keys == data.Keys
      && (forall k :: k in data ==>
            diff.before[k] == Get(Returned(returnsUpdated, docs[taskId], UpdatedTask(data, now)), k))
  {
  }

  /** When the store hands back the document as it was, `before` holds each submitted field's old value. */
  lemma UpdateDiffFromPriorDocument(docs: map<string, Record>, now: int, taskId: string, data: Record,
                                    first: set<SchemaError> -> SchemaError)
    requires UpdateStep(docs, true, now, taskId, data, first, false).result.Ok?
    ensures var diff := UpdateStep(docs, true, now, taskId, data, first, false).result.value;
      taskId in docs && forall k :: k in data ==> diff.before[k] == Get(docs[taskId], k)
  {
  }

  /**
   * When the store hands back the document as it is after the update, `before` repeats `after`
   * (except for a `lastModifiedAt` the caller sent, which reads as `now`): the diff then shows
   * no change.
   */
  lemma UpdateDiffFromUpdatedDocument(docs: map<string, Record>, now: int, taskId: string, data: Record,
                                      first: set<SchemaError> -> SchemaError)
    requires UpdateStep(docs, true, now, taskId, data, first, true).result.Ok?
    ensures var diff := UpdateStep(docs, true, now, taskId, data, first, true).result.value;
      && (forall k :: k in data && k != "lastModifiedAt" ==> diff.before[k] == diff.after[k])
      && ("lastModifiedAt" in data ==> diff.before["lastModifiedAt"] == Num(now))
  {
    UpdateDiff(docs, now, taskId, data, first, true);
  }

  // ---------------------------------------------------------------------------------------
  // A lifecycle

  /** With a well-formed id of a stored task and an update the schema admits, the update is written and diffed. */
  lemma UpdateClosedForm(docs: map<string, Record>, now: int, taskId: string, data: Record,
                         first: set<SchemaError> -> SchemaError, returnsUpdated: bool)
    requires taskId in docs && ValidUpdate(UpdatedTask(data, now))
    ensures UpdateStep(docs, true, now, taskId, data, first, returnsUpdated) ==
      Step(Ok(Diff(Projection(Returned(returnsUpdated, docs[taskId], UpdatedTask(data, now)), data.Keys), data)),
           docs[taskId := docs[taskId] + UpdatedTask(data, now)])
  {
    ValidateUpdateIff(UpdatedTask(data, now), first);
  }

  /** Creating a task with only a title and its owner: no description, status `to_do`, equal timestamps. */
  lemma TitleOnlyCreate(first: set<SchemaError> -> SchemaError, id: string, t0: int)
    ensures var info := map["title" := Str("demolish buildings"), "username" := Str("janete_corca")];
      var created := CreateStep(map[], info, t0, first, id);
      && created.result.Ok?
      && created.docs == map[id := NewTask(info, t0)]
      && "description" !in created.docs[id]
      && created.docs[id]["title"] == Str("demolish buildings")
      && created.docs[id]["status"] == Str("to_do")
      && created.docs[id]["createdAt"] == created.docs[id]["lastModifiedAt"] == Num(t0)
  {
    var info := map["title" := Str("demolish buildings"), "username" := Str("janete_corca")];
    assert info.Keys == {"title", "username"};
    CreateAcceptsWellFormedPayload(map[], info, t0, first, id);
  }

  /**
   * Setting the status of a freshly created task to `in_progress` reports
   * `before = {status: 'to_do'}` and `after = {status: 'in_progress'}`, moves `lastModifiedAt`
   * to the update's clock reading and leaves `createdAt`.
   */
  lemma StatusUpdateAfterCreate(first: set<SchemaError> -> SchemaError, id: string, t0: int, t1: int)
    ensures var info := map["title" := Str("demolish buildings"), "username" := Str("janete_corca")];
      var updated := UpdateStep(map[id := NewTask(info, t0)], true, t1, id, map["status" := Str("in_progress")], first, false);
      && updated.result == Ok(Diff(map["status" := Str("to_do")], map["status" := Str("in_progress")]))
      && id in updated.docs
      && updated.docs[id]["status"] == Str("in_progress")
      && updated.docs[id]["createdAt"] == Num(t0) && updated.docs[id]["lastModifiedAt"] == Num(t1)
  {
    var info := map["title" := Str("demolish buildings"), "username" := Str("janete_corca")];
    var stored := NewTask(info, t0);
    var data := map["status" := Str("in_progress")];
    var task := UpdatedTask(data, t1);
    assert task.Keys == {"status", "lastModifiedAt"};
    assert Contains("in_progress", "in_progress");
    assert ValidUpdate(task);
    UpdateClosedForm(map[id := stored], t1, id, data, first, false);
    assert Projection(stored, data.Keys) == map["status" := Str("to_do")];
  }
}
