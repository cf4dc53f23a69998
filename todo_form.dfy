/** The body the to-do form sends (`handleTodoSubmit`) and what the server's
    create and update handlers make of it. */
module TodoForm {
  import opened Records
  import opened Todos

  /** The raw values of the form's inputs; an empty input is "". */
  datatype FormInput = FormInput(title: string, description: string, dueDate: string, assignee: string)

  /** The JSON body the form sends: every field is present, so none of them
      is `undefined` on the server. */
  datatype Payload = Payload(
    title: string,
    description: string,
    dueDate: Option<string>,
    assignedTo: Option<string>,
    completed: bool)

  /** `{ title, description, dueDate: dueDate || null, assignedTo: assignedTo || null,
      completed: appState.currentTodo?.completed || false }`, where `editing`
      is the to-do whose edit form is open, if any. */
  function Submitted(form: FormInput, editing: Option<Todo>): (p: Payload)
    ensures p.title == form.title && p.description == form.description
    ensures p.dueDate.None? <==> form.dueDate == ""
    ensures p.dueDate.Some? ==> p.dueDate.value == form.dueDate
    ensures p.assignedTo.None? <==> form.assignee == ""
    ensures p.assignedTo.Some? ==> p.assignedTo.value == form.assignee
    ensures p.completed <==> editing.Some? && editing.value.completed
  {
    Payload(
      form.title,
      form.description,
      OrNull(Some(form.dueDate)),
      OrNull(Some(form.assignee)),
      editing.Some? && editing.value.completed)
  }

  /** The fields the create handler destructures from that body. */
  function AsCreateBody(p: Payload): TodoBody {
    TodoBody(Some(p.title), Some(p.description), p.dueDate, p.assignedTo)
  }

  /** The fields the update handler destructures from that body: all defined. */
  function AsPatch(p: Payload): TodoPatch {
    TodoPatch(Set(p.title), Set(p.description), Set(p.dueDate), Set(p.assignedTo), Set(p.completed))
  }

  /** Submitting the new-to-do form: an empty title is rejected; otherwise the
      stored to-do takes the form's title and description, an empty date or
      assignee becomes `null`, and it starts as not completed. */
  lemma CreateFromForm(form: FormInput)
    ensures NewTodo(AsCreateBody(Submitted(form, None))).Rejected? <==> form.title == ""
    ensures NewTodo(AsCreateBody(Submitted(form, None))).Accepted? ==>
      NewTodo(AsCreateBody(Submitted(form, None))).fields ==
        Todo(form.title, form.description,
             if form.dueDate == "" then None else Some(form.dueDate),
             if form.assignee == "" then None else Some(form.assignee),
             false)
  {
  }

  /** Submitting the edit form of a to-do overwrites every field with the
      form's values and keeps its completion state. The update handler does
      no validation, so an empty title is stored as it is. */
  lemma EditFromForm(t: Todo, form: FormInput)
    ensures Merge(t, AsPatch(Submitted(form, Some(t)))) ==
      Todo(form.title, form.description,
           if form.dueDate == "" then None else Some(form.dueDate),
           if form.assignee == "" then None else Some(form.assignee),
           t.completed)
  {
  }
}
