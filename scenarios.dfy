/** Request sequences a user of the application goes through, stated over the
    handlers' contracts: what a client can rely on without looking inside. */
module Scenarios {
  import opened Records
  import opened Repository
  import Groups
  import Todos
  import Classes
  import Exams
  import Dashboard

  /** Create the group "CS Study" with members Alice and Bob, read it back,
      delete it, and read it again. */
  method GroupLifecycle(stored: seq<Record<Groups.Group>>, newId: Id)
    returns (created: Reply<Record<Groups.Group>>, fetched: Reply<Record<Groups.Group>>,
             deleted: Reply<string>, refetched: Reply<Record<Groups.Group>>)
    requires !HasId(stored, newId)
    ensures created == Ok(Record(newId, Groups.Group("CS Study", "", ["Alice", "Bob"])))
    ensures fetched == created
    ensures deleted == Ok("Group deleted")
    ensures refetched == NotFound("Group not found")
  {
    var groups := new Collection("Group", stored);
    assert groups.noun + " deleted" == "Group deleted";
    assert groups.noun + " not found" == "Group not found";
    created := Groups.Create(groups, Groups.GroupBody(Some("CS Study"), None, Some(["Alice", "Bob"])), newId);
    FindAppended(stored, created.value);
    fetched := groups.Get(newId);
    assert groups.records[|stored|].id == newId;
    deleted := groups.Delete(newId);
    refetched := groups.Get(newId);
    assert !HasId(groups.records, newId) by {
      forall j | 0 <= j < |groups.records| ensures groups.records[j].id != newId {
        assert groups.records[j] in groups.records;
      }
    }
  }

  /** Create a to-do without a due date, then toggle it. */
  method TodoToggle(stored: seq<Record<Todos.Todo>>, newId: Id)
    returns (created: Reply<Record<Todos.Todo>>, toggled: Reply<Record<Todos.Todo>>)
    requires !HasId(stored, newId)
    ensures created.Ok? && created.value.fields.dueDate == None && !created.value.fields.completed
    ensures toggled.Ok? && toggled.value.id == newId && toggled.value.fields.completed
    ensures toggled.value.fields.(completed := false) == created.value.fields
  {
    var todos := new Collection("Todo", stored);
    created := Todos.Create(todos, Todos.TodoBody(Some("Read chapter 3"), None, None, None), newId);
    FindAppended(stored, created.value);
    toggled := Todos.Toggle(todos, newId);
  }

  /** Create an exam for a class id that names no class: it is accepted, and
      the exam table shows it under the placeholder name. */
  method ExamForMissingClass(classes: seq<Record<Classes.Course>>, stored: seq<Record<Exams.Exam>>, newId: Id, classId: Id)
    returns (created: Reply<Record<Exams.Exam>>, shownAs: string)
    requires classId != "" && !HasId(classes, classId)
    ensures created.Ok? && created.value.fields.classId == classId
    ensures shownAs == "Desconocido"
  {
    var exams := new Collection("Exam", stored);
    created := Exams.Create(exams, Exams.ExamBody(Some(classId), Some("Parcial"), Some("2025-06-01"), None, None), newId);
    shownAs := Dashboard.ClassName(classes, created.value.fields.classId);
  }
}
