/** The record operations behind the route handlers of one resource. The
    collection is the array the handler reads from the resource's JSON file,
    changes in memory and writes back; here it is the field `records`. */
module Repository {
  import opened Sequences
  import opened Records

  class Collection<F(!new)> {
    /** The resource's name in messages: "Group", "Todo", "Class" or "Exam". */
    const noun: string
    var records: seq<Record<F>>

    /** The collection as `readData` returns it. */
    constructor (noun: string, stored: seq<Record<F>>)
      ensures this.noun == noun && records == stored
    {
      this.noun := noun;
      records := stored;
    }

    /** `GET /api/<resource>/:id`: the first record with the id, or 404. */
    function Get(id: Id): (r: Reply<Record<F>>)
      reads this
      ensures r.NotFound? <==> !HasId(records, id)
      ensures r.NotFound? ==> r.message == noun + " not found"
      ensures r.Ok? ==> r.value.id == id && r.value == records[IndexOf(records, id).value]
      ensures !r.BadRequest?
    {
      match Find(records, id)
      case None => NotFound(noun + " not found")
      case Some(record) => Ok(record)
    }

    /** `POST /api/<resource>`: a body that failed validation is answered with
        400 before the collection is read; otherwise the new record, with the
        fresh id, is pushed at the end and returned. */
    method Create(newId: Id, checked: Checked<F>) returns (r: Reply<Record<F>>)
      modifies this
      ensures checked.Rejected? ==> r == BadRequest(checked.message) && records == old(records)
      ensures checked.Accepted? ==> r == Ok(Record(newId, checked.fields))
      ensures checked.Accepted? ==> records == old(records) + [r.value]
      ensures UniqueIds(old(records)) && !HasId(old(records), newId) ==> UniqueIds(records)
    {
      if checked.Rejected? {
        return BadRequest(checked.message);
      }
      var record := Record(newId, checked.fields);
      records := records + [record];
      r := Ok(record);
    }

    /** `PUT /api/<resource>/:id` and `PATCH /api/todos/:id/toggle`: the record
        at `findIndex` is replaced by one with the same id and changed fields;
        every other record stays where it was. An unknown id is a 404 and
        writes nothing. */
    method Update(id: Id, change: F -> F) returns (r: Reply<Record<F>>)
      modifies this
      ensures !HasId(old(records), id) ==> r == NotFound(noun + " not found") && records == old(records)
      ensures HasId(old(records), id) ==>
        var i := IndexOf(old(records), id).value;
        && records == old(records)[i := Record(id, change(old(records)[i].fields))]
        && r == Ok(records[i])
      ensures UniqueIds(old(records)) ==> UniqueIds(records)
    {
      var index := IndexOf(records, id);
      if index.None? {
        return NotFound(noun + " not found");
      }
      var i := index.value;
      records := records[i := records[i].(fields := change(records[i].fields))];
      r := Ok(records[i]);
    }

    /** `DELETE /api/<resource>/:id`: keeps the records whose id differs and
        answers 404, writing nothing, when that removed none. */
    method Delete(id: Id) returns (r: Reply<string>)
      modifies this
      ensures !HasId(old(records), id) ==> r == NotFound(noun + " not found") && records == old(records)
      ensures HasId(old(records), id) ==> r == Ok(noun + " deleted") && records == Without(old(records), id)
      ensures UniqueIds(old(records)) ==> UniqueIds(records)
    {
      var filtered := Without(records, id);
      WithoutKeepsLength(records, id);
      if |filtered| == |records| {
        return NotFound(noun + " not found");
      }
      if UniqueIds(records) {
        WithoutKeepsUniqueIds(records, id);
      }
      records := filtered;
      r := Ok(noun + " deleted");
    }
  }
}
