/** The dashboard the client recomputes after every change (`updateDashboard`)
    and the class-name lookup shared with the exam table (`renderExams`). Dates
    stored as strings are read as day numbers through `dayOf`. */
module Dashboard {
  import opened Sequences
  import opened Records
  import opened Badges
  import Groups
  import Todos
  import Classes
  import Exams

  /** How many upcoming exams and active to-dos the dashboard lists. */
  const Shown: nat := 5

  /** The name shown for an exam whose class cannot be named. */
  const Unknown := "Desconocido"

  /** `classes.find(c => c.id === exam.classId)?.name || 'Desconocido'`: the
      first matching class's name, unless there is no such class or its name
      is empty. */
  function ClassName(classes: seq<Record<Classes.Course>>, classId: Id): (name: string)
    ensures name != ""
    ensures !HasId(classes, classId) ==> name == Unknown
    ensures HasId(classes, classId) && classes[IndexOf(classes, classId).value].fields.name != "" ==>
      name == classes[IndexOf(classes, classId).value].fields.name
    ensures HasId(classes, classId) && classes[IndexOf(classes, classId).value].fields.name == "" ==>
      name == Unknown
  {
    match Find(classes, classId)
    case Some(c) => if c.fields.name != "" then c.fields.name else Unknown
    case None => Unknown
  }

  /** `t => !t.completed` */
  function IsPending(t: Record<Todos.Todo>): bool {
    !t.fields.completed
  }

  /** `todos.filter(t => !t.completed)` */
  function PendingTodos(todos: seq<Record<Todos.Todo>>): (r: seq<Record<Todos.Todo>>)
    ensures forall t :: t in r <==> t in todos && !t.fields.completed
  {
    Filter(todos, IsPending)
  }

  /** The exam filter `examDate >= today`, on day numbers. */
  function OnOrAfter(today: Day, dayOf: string -> Day): Record<Exams.Exam> -> bool {
    (e: Record<Exams.Exam>) => dayOf(e.fields.date) >= today
  }

  /** The exams dated today or later, in stored order. */
  function UpcomingExams(exams: seq<Record<Exams.Exam>>, today: Day, dayOf: string -> Day): (r: seq<Record<Exams.Exam>>)
    ensures forall e :: e in r <==> e in exams && dayOf(e.fields.date) >= today
  {
    Filter(exams, OnOrAfter(today, dayOf))
  }

  /** One entry of the dashboard's exam list. */
  datatype ExamCard = ExamCard(className: string, exam: Record<Exams.Exam>, badge: ExamBadge)

  /** The four counters and two lists `updateDashboard` writes into the page. */
  datatype Summary = Summary(
    groupCount: nat,
    pendingCount: nat,
    classCount: nat,
    upcomingCount: nat,
    examCards: seq<ExamCard>,
    recentTodos: seq<Record<Todos.Todo>>)

  function Card(classes: seq<Record<Classes.Course>>, today: Day, dayOf: string -> Day, e: Record<Exams.Exam>): ExamCard {
    ExamCard(ClassName(classes, e.fields.classId), e, ExamStatus(dayOf(e.fields.date), today))
  }

  /** `upcomingExams.slice(0, 5)` as the dashboard lists them: the first
      five upcoming exams in stored order, each with its class name and badge;
      none of them is ever shown as past. */
  function ExamCards(
    classes: seq<Record<Classes.Course>>,
    exams: seq<Record<Exams.Exam>>,
    today: Day,
    dayOf: string -> Day): (cards: seq<ExamCard>)
    ensures var upcoming := UpcomingExams(exams, today, dayOf);
      && |cards| <= Shown && |cards| <= |upcoming|
      && (|cards| == Shown || |cards| == |upcoming|)
      && forall i :: 0 <= i < |cards| ==> cards[i].exam == upcoming[i]
    ensures forall i :: 0 <= i < |cards| ==>
      && cards[i].exam in exams
      && cards[i].badge == ExamStatus(dayOf(cards[i].exam.fields.date), today)
      && cards[i].badge != Past
      && cards[i].className == ClassName(classes, cards[i].exam.fields.classId)
  {
    var upcoming := UpcomingExams(exams, today, dayOf);
    var listed := Take(upcoming, Shown);
    assert forall i :: 0 <= i < |listed| ==> listed[i] == upcoming[i] && upcoming[i] in upcoming;
    seq(|listed|, i requires 0 <= i < |listed| => Card(classes, today, dayOf, listed[i]))
  }

  /** `todos.filter(t => !t.completed).slice(0, 5)`: at most five active
      to-dos, the first ones in stored order. */
  function RecentTodos(todos: seq<Record<Todos.Todo>>): (r: seq<Record<Todos.Todo>>)
    ensures |r| <= Shown && r <= PendingTodos(todos)
    ensures |r| == Shown || r == PendingTodos(todos)
    ensures forall t :: t in r ==> t in todos && !t.fields.completed
  {
    var recent := Take(PendingTodos(todos), Shown);
    assert forall t :: t in recent ==> t in PendingTodos(todos);
    recent
  }

  /** `updateDashboard`, without the HTML: the counters and the two lists. */
  function Summarize(
    groups: seq<Record<Groups.Group>>,
    todos: seq<Record<Todos.Todo>>,
    classes: seq<Record<Classes.Course>>,
    exams: seq<Record<Exams.Exam>>,
    today: Day,
    dayOf: string -> Day): (d: Summary)
    ensures d.groupCount == |groups| && d.classCount == |classes|
    ensures d.pendingCount == |PendingTodos(todos)| <= |todos|
    ensures d.pendingCount == |todos| <==> forall i :: 0 <= i < |todos| ==> !todos[i].fields.completed
    ensures d.upcomingCount == |UpcomingExams(exams, today, dayOf)| <= |exams|
    ensures d.upcomingCount == |exams| <==> forall i :: 0 <= i < |exams| ==> dayOf(exams[i].fields.date) >= today
    ensures d.examCards == ExamCards(classes, exams, today, dayOf)
    ensures d.recentTodos == RecentTodos(todos)
  {
    FilterKeepsLength(todos, IsPending);
    FilterKeepsLength(exams, OnOrAfter(today, dayOf));
    Summary(
      |groups|,
      |PendingTodos(todos)|,
      |classes|,
      |UpcomingExams(exams, today, dayOf)|,
      ExamCards(classes, exams, today, dayOf),
      RecentTodos(todos))
  }

  /** A to-do added by the create handler is counted as pending. */
  lemma PendingAfterCreate(todos: seq<Record<Todos.Todo>>, body: Todos.TodoBody, newId: Id)
    requires Todos.NewTodo(body).Accepted?
    ensures |PendingTodos(todos + [Record(newId, Todos.NewTodo(body).fields)])| == |PendingTodos(todos)| + 1
  {
    FilterAppend(todos, [Record(newId, Todos.NewTodo(body).fields)], IsPending);
  }

  /** Toggling one to-do moves the pending count by exactly one, up when it
      was completed and down when it was not. */
  lemma PendingAfterToggle(todos: seq<Record<Todos.Todo>>, i: nat)
    requires i < |todos|
    ensures var toggled := todos[i := todos[i].(fields := Todos.Toggled(todos[i].fields))];
      |PendingTodos(toggled)| == if todos[i].fields.completed then |PendingTodos(todos)| + 1 else |PendingTodos(todos)| - 1
  {
    var toggled := todos[i := todos[i].(fields := Todos.Toggled(todos[i].fields))];
    var before, after := todos[..i], todos[i + 1..];
    assert todos == (before + [todos[i]]) + after;
    assert toggled == (before + [toggled[i]]) + after;
    FilterAppend(before + [todos[i]], after, IsPending);
    FilterAppend(before, [todos[i]], IsPending);
    FilterAppend(before + [toggled[i]], after, IsPending);
    FilterAppend(before, [toggled[i]], IsPending);
  }
}
