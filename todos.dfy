/** To-dos: the `/api/todos` routes, including the completion toggle. */
module Todos {
  import opened Records
  import opened Repository

  /** `dueDate` and `assignedTo` are `null` (`None`) when unset. */
  datatype Todo = Todo(
    title: string,
    description: string,
    dueDate: Option<string>,
    assignedTo: Option<string>,
    completed: bool)

  /** The fields `POST /api/todos` takes from its body; `None` is a field that
      is absent or `null`. A `completed` sent by the client is not read. */
  datatype TodoBody = TodoBody(
    title: Option<string>,
    description: Option<string>,
    dueDate: Option<string>,
    assignedTo: Option<string>)

  /** The fields `PUT /api/todos/:id` takes from its body; `Set(None)` is an
      explicit `null`, which overwrites. */
  datatype TodoPatch = TodoPatch(
    title: Patch<string>,
    description: Patch<string>,
    dueDate: Patch<Option<string>>,
    assignedTo: Patch<Option<string>>,
    completed: Patch<bool>)

  const TitleRequired := "Title is required"

  const NoChange := TodoPatch(Keep, Keep, Keep, Keep, Keep)

  /** Validation and defaults of the create handler: a falsy title is
      rejected; a new to-do is never completed; `description || ''` replaces
      only a missing value, while `dueDate || null` and `assignedTo || null`
      also turn an empty string into `null`. */
  function NewTodo(body: TodoBody): (c: Checked<Todo>)
    ensures c.Rejected? <==> !Truthy(body.title)
    ensures c.Rejected? ==> c.message == TitleRequired
    ensures c.Accepted? ==> c.fields.title == body.title.value && c.fields.title != ""
    ensures c.Accepted? ==> !c.fields.completed
    ensures c.Accepted? && body.description.Some? ==> c.fields.description == body.description.value
    ensures c.Accepted? && body.description.None? ==> c.fields.description == ""
    ensures c.Accepted? ==> (c.fields.dueDate.None? <==> !Truthy(body.dueDate))
    ensures c.Accepted? ==> (c.fields.assignedTo.None? <==> !Truthy(body.assignedTo))
    ensures c.Accepted? && c.fields.dueDate.Some? ==> c.fields.dueDate == body.dueDate && c.fields.dueDate.value != ""
    ensures c.Accepted? && c.fields.assignedTo.Some? ==> c.fields.assignedTo == body.assignedTo && c.fields.assignedTo.value != ""
  {
    if !Truthy(body.title) then Rejected(TitleRequired)
    else
      Accepted(Todo(
        body.title.value,
        OrEmpty(body.description),
        OrNull(body.dueDate),
        OrNull(body.assignedTo),
        false))
  }

  /** The merge of the update handler: a field the body leaves `undefined`
      keeps its stored value, any other value (`null` and `false` included)
      replaces it. */
  function Merge(t: Todo, p: TodoPatch): (r: Todo)
    ensures p.title.Keep? ==> r.title == t.title
    ensures p.title.Set? ==> r.title == p.title.value
    ensures p.description.Keep? ==> r.description == t.description
    ensures p.description.Set? ==> r.description == p.description.value
    ensures p.dueDate.Keep? ==> r.dueDate == t.dueDate
    ensures p.dueDate.Set? ==> r.dueDate == p.dueDate.value
    ensures p.assignedTo.Keep? ==> r.assignedTo == t.assignedTo
    ensures p.assignedTo.Set? ==> r.assignedTo == p.assignedTo.value
    ensures p.completed.Keep? ==> r.completed == t.completed
    ensures p.completed.Set? ==> r.completed == p.completed.value
  {
    Todo(
      p.title.Apply(t.title),
      p.description.Apply(t.description),
      p.dueDate.Apply(t.dueDate),
      p.assignedTo.Apply(t.assignedTo),
      p.completed.Apply(t.completed))
  }

  lemma MergeLaws(t: Todo, p: TodoPatch)
    ensures Merge(t, NoChange) == t
    ensures Merge(Merge(t, p), p) == Merge(t, p)
  {
  }

  /** `todos[index].completed = !todos[index].completed` */
  function Toggled(t: Todo): (r: Todo)
    ensures r.completed != t.completed
    ensures r.(completed := t.completed) == t
  {
    t.(completed := !t.completed)
  }

  lemma ToggledTwice(t: Todo)
    ensures Toggled(Toggled(t)) == t
  {
  }

  /** `POST /api/todos` */
  method Create(todos: Collection<Todo>, body: TodoBody, newId: Id) returns (r: Reply<Record<Todo>>)
    modifies todos
    ensures !Truthy(body.title) ==> r == BadRequest(TitleRequired) && todos.records == old(todos.records)
    ensures Truthy(body.title) ==> r == Ok(Record(newId, NewTodo(body).fields))
    ensures Truthy(body.title) ==> todos.records == old(todos.records) + [r.value]
  {
    r := todos.Create(newId, NewTodo(body));
  }

  /** `PUT /api/todos/:id` */
  method Update(todos: Collection<Todo>, id: Id, p: TodoPatch) returns (r: Reply<Record<Todo>>)
    requires todos.noun == "Todo"
    modifies todos
    ensures !HasId(old(todos.records), id) ==> r == NotFound("Todo not found") && todos.records == old(todos.records)
    ensures HasId(old(todos.records), id) ==>
      var i := IndexOf(old(todos.records), id).value;
      && todos.records == old(todos.records)[i := Record(id, Merge(old(todos.records)[i].fields, p))]
      && r == Ok(todos.records[i])
  {
    r := todos.Update(id, t => Merge(t, p));
  }

  /** `PATCH /api/todos/:id/toggle` */
  method Toggle(todos: Collection<Todo>, id: Id) returns (r: Reply<Record<Todo>>)
    requires todos.noun == "Todo"
    modifies todos
    ensures !HasId(old(todos.records), id) ==> r == NotFound("Todo not found") && todos.records == old(todos.records)
    ensures HasId(old(todos.records), id) ==>
      var i := IndexOf(old(todos.records), id).value;
      && todos.records == old(todos.records)[i := Record(id, Toggled(old(todos.records)[i].fields))]
      && r == Ok(todos.records[i])
  {
    r := todos.Update(id, Toggled);
  }

  /** Toggling the same to-do twice gives back the collection as it was, and
      both calls answer alike. */
  method ToggleTwice(todos: Collection<Todo>, id: Id) returns (first: Reply<Record<Todo>>, second: Reply<Record<Todo>>)
    requires todos.noun == "Todo"
    modifies todos
    ensures todos.records == old(todos.records)
    ensures first.Ok? <==> second.Ok?
  {
    ghost var before := todos.records;
    first := Toggle(todos, id);
    if HasId(before, id) {
      IndexOfIgnoresFields(before, todos.records, id);
    }
    second := Toggle(todos, id);
  }
}
