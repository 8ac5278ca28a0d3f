/**
 * The task collection, as the controller uses it: insert a document, delete one by id, and
 * set fields of one by id, getting a document back or nothing.
 */
module Store {
  import opened Results
  import opened JsValues

  /**
   * The document `updateOneById` hands back for a matched task: the document as it was before
   * the fields were set, or as it is after, depending on how the store is configured.
   */
  function Returned(returnsUpdated: bool, prior: Record, fields: Record): Record
  {
    if returnsUpdated then prior + fields else prior
  }

  /** A length no id in `ids` reaches. */
  ghost function LongerThanAll(ids: set<string>): (n: nat)
    ensures forall id :: id in ids ==> |id| < n
    decreases ids
  {
    if ids == {} then 0
    else
      var id :| id in ids;
      var n := LongerThanAll(ids - {id});
      if |id| < n then n else |id| + 1
  }

  /** However many tasks are stored, an unused id remains. */
  lemma FreshIdExists(ids: set<string>)
    ensures exists id :: id !in ids
  {
    var n := LongerThanAll(ids);
    var long := seq(n, _ => 'f');
    assert long !in ids;
  }

  class TaskStore {
    /** The stored tasks by id. */
    var docs: map<string, Record>
    /** Whether `UpdateOneById` returns the document after the update rather than before it. */
    const returnsUpdated: bool

    constructor(returnsUpdated: bool)
      ensures docs == map[] && this.returnsUpdated == returnsUpdated
    {
      docs := map[];
      this.returnsUpdated := returnsUpdated;
    }

    /** Stores `doc` under an id no task had, and returns the id. */
    method InsertOne(doc: Record) returns (insertedId: string)
      modifies this
      ensures insertedId !in old(docs)
      ensures docs == old(docs)[insertedId := doc]
    {
      FreshIdExists(docs.Keys);
      insertedId :| insertedId !in docs;
      docs := docs[insertedId := doc];
    }

    /** Removes the task with id `id`, if there is one, and says how many were removed. */
    method DeleteOneById(id: string) returns (deletedCount: nat)
      modifies this
      ensures deletedCount == if id in old(docs) then 1 else 0
      ensures docs == old(docs) - {id}
    {
      deletedCount := if id in docs then 1 else 0;
      docs := docs - {id};
    }

    /** Sets `fields` on the task with id `id`; returns the document, or nothing when no task has that id. */
    method UpdateOneById(id: string, fields: Record) returns (result: Option<Record>)
      modifies this
      ensures id !in old(docs) ==> result == None && docs == old(docs)
      ensures id in old(docs) ==>
        && docs == old(docs)[id := old(docs)[id] + fields]
        && result == Some(Returned(returnsUpdated, old(docs)[id], fields))
    {
      if id !in docs {
        return None;
      }
      var prior := docs[id];
      docs := docs[id := prior + fields];
      result := Some(Returned(returnsUpdated, prior, fields));
    }
  }
}
