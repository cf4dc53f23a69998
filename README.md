# StudySync — a Dafny model of its records and dashboard

StudySync is a small study organiser: an Express server keeps four kinds of
records (study groups, to-dos, classes and exams), each in its own JSON file,
behind create/read/update/delete routes. A single-page client shows them and
builds a dashboard from them.

This project models the logic of both halves.

- **Server, per resource** (`server.js`):
  - look up one record by id;
  - create a record, checking the required fields and filling the defaults;
  - merge an update into the stored record, where only the fields the body
    defines replace the stored ones;
  - flip the `completed` flag of a to-do;
  - delete by filtering the collection and comparing lengths.

  A collection is the class `Repository.Collection`. Its `records` field is the
  array the handlers read, change and write back. The list routes return that
  field as it is. The per-resource modules `Groups`, `Todos`, `Classes` and
  `Exams` hold, for each resource:
  - the record's fields;
  - the create body, where `None` means absent or null;
  - the update body, where `Keep` means `undefined`;
  - the validation, the merge, and the route methods.
- **Client** (`public/js/app.js`):
  - the due-date and exam badges (`Badges`);
  - the dashboard's counters, lists and class-name fallback (`Dashboard`);
  - the assignee choices of the to-do form (`Assignees`);
  - the body the to-do form submits (`TodoForm`).

  The client reads a date string as a day number through a function
  parameter `dayOf`.
- **Helpers:**
  - `Sequences` holds generic filter, prefix and de-duplication functions;
  - `Records` holds the record, option and reply types and id lookup;
  - `Scenarios` chains handler calls into request sequences a user goes
    through.

## Model

| member | source | states |
|---|---|---|
| Sequences.Filter | server.js:149 | The result keeps exactly the elements that pass the predicate, and is no longer than the input. |
| Sequences.FilterAppend | public/js/app.js:658 | Filtering a concatenation is the concatenation of the filtered parts, so stored order is kept. |
| Sequences.FilterKeepsLength | server.js:149-153 | A filter keeps the length exactly when every element passes. |
| Sequences.FilterAllPass | server.js:149 | A filter that every element passes returns the input unchanged. |
| Sequences.Take | public/js/app.js:674 | `slice(0, n)` is a prefix of the input of length at most n; it is the whole input when that is shorter. |
| Sequences.Distinct | public/js/app.js:337-340 | Insertion into a `Set`: every element of the input appears exactly once, and nothing else appears. |
| Sequences.DistinctOrder | public/js/app.js:337-344 | `Array.from` of that `Set` follows insertion order: of two listed elements, the earlier one occurs in the input before the later one first does. |
| Sequences.DistinctSnoc | public/js/app.js:340 | Adding one more element appends it exactly when it was not already present. |
| Records.OrEmpty | server.js:107 | `x \|\| ''` on a string field: the given string, or the empty string when it is absent. |
| Records.OrNull | server.js:206-207 | `x \|\| null`: the given string when it is non-empty, null when it is empty or absent. |
| Records.IndexOf | server.js:125 | `findIndex` by id: -1 (None) exactly when no record has the id; otherwise the first position holding it. |
| Records.Find | server.js:82 | `find` by id: nothing exactly when no record has the id; otherwise the first record with that id. |
| Records.FindAppended | server.js:111 | After pushing a record whose id was not yet stored, looking up that id finds the pushed record. |
| Records.Without | server.js:149 | The records that remain after deleting an id are exactly the stored ones with another id. |
| Records.IndexOfIgnoresFields | server.js:257 | Rewriting the fields of records without changing their ids does not move any id lookup. |
| Records.WithoutKeepsLength | server.js:149-153 | The filtered collection has the stored length exactly when no record has the id; this is the 404 test of delete. |
| Records.WithoutUnique | server.js:149 | With unique ids, deleting the id at position i removes that one record and keeps the rest in order. |
| Records.WithoutKeepsUniqueIds | server.js:149 | Deleting keeps ids unique. |
| Repository.Collection.Get | server.js:79-92 | 404 "<Resource> not found" exactly when no record has the id; otherwise the first record with that id. It never answers 400. |
| Repository.Collection.Create | server.js:99-114 | A rejected body answers 400 with its message and stores nothing. An accepted one appends exactly one record with the new id and returns it. A fresh id keeps ids unique. |
| Repository.Collection.Update | server.js:124-135 | An unknown id answers 404 and changes nothing. Otherwise only the first record with the id is replaced, by the merged fields under the same id, and that record is returned. Ids stay unique. |
| Repository.Collection.Delete | server.js:148-156 | An unknown id answers 404 and changes nothing. Otherwise the answer is "<Resource> deleted" and exactly the records with that id are removed. Ids stay unique. |
| Groups.NewGroup | server.js:97-109 | Rejected with "Name is required" exactly when the name is empty or absent. Otherwise the name as given, the description defaults to "", and the members default to []. |
| Groups.Merge | server.js:131-135 | Each field the body defines replaces the stored one; each undefined field keeps it. |
| Groups.MergeLaws | server.js:131-135 | An empty body changes nothing, and applying the same body twice equals applying it once. |
| Groups.UpdateMayClearName | server.js:131-133 | Update does not re-validate: a body with an empty name stores the empty name. |
| Groups.Create | server.js:95-118 | The group create route is the collection's create applied to the validated body. |
| Groups.Update | server.js:121-143 | The group update route: 404 "Group not found" for an unknown id, else the stored group merged with the body. |
| Todos.NewTodo | server.js:195-209 | Rejected with "Title is required" exactly when the title is empty or absent. The description defaults to "". Due date and assignee become null when not truthy; a stored one is never "". A new to-do is not completed, whatever the body says. |
| Todos.Merge | server.js:231-238 | Each field the body defines replaces the stored one, including an explicit null or false; each undefined field keeps it. |
| Todos.MergeLaws | server.js:231-238 | An empty body changes nothing, and applying the same body twice equals applying it once. |
| Todos.Toggled | server.js:257 | `completed` flips, and no other field changes. |
| Todos.ToggledTwice | server.js:257 | Flipping twice restores the to-do. |
| Todos.Create | server.js:193-218 | The to-do create route is the collection's create applied to the validated body. |
| Todos.Update | server.js:221-245 | The to-do update route: 404 "Todo not found" for an unknown id, else the stored to-do merged with the body. |
| Todos.Toggle | server.js:248-264 | 404 "Todo not found" for an unknown id. Otherwise only that to-do's `completed` flips, and the toggled to-do is returned. |
| Todos.ToggleTwice | server.js:248-264 | Two toggles of the same id restore the collection, and both succeed or both answer 404. |
| Classes.NewCourse | server.js:316-329 | Rejected with "Name is required" exactly when the name is empty or absent. Otherwise the name as given, and code, instructor and schedule default to "". |
| Classes.Merge | server.js:351-357 | Each field the body defines replaces the stored one; each undefined field keeps it. |
| Classes.MergeLaws | server.js:351-357 | An empty body changes nothing, and applying the same body twice equals applying it once. |
| Classes.Create | server.js:314-338 | The class create route is the collection's create applied to the validated body. |
| Classes.Update | server.js:341-364 | The class update route: 404 "Class not found" for an unknown id, else the stored class merged with the body. |
| Exams.NewExam | server.js:416-430 | Rejected with "Class, type, and date are required" exactly when any of class id, type or date is empty or absent. The class id is not checked against the stored classes. Time and location default to "". |
| Exams.Merge | server.js:452-459 | Each field the body defines replaces the stored one; each undefined field keeps it. |
| Exams.MergeLaws | server.js:452-459 | An empty body changes nothing, and applying the same body twice equals applying it once. |
| Exams.Create | server.js:414-439 | The exam create route is the collection's create applied to the validated body. |
| Exams.Update | server.js:442-466 | The exam update route: 404 "Exam not found" for an unknown id, else the stored exam merged with the body. |
| Badges.DueDateStatus | public/js/app.js:736-748 | Danger exactly when overdue. Warning exactly when due today or within three days. Success exactly when due later. |
| Badges.ExamStatus | public/js/app.js:750-767 | "Pasado"/gray exactly when past, "Hoy"/danger exactly when today, "Esta Semana"/warning exactly when 1 to 7 days ahead, "Próximo"/success exactly when later. |
| Badges.BadgeClasses | public/js/app.js:744-766 | The CSS class each badge carries: "danger", "warning" or "success" for a due date; "gray", "danger", "warning" or "success" for an exam, by the same day ranges. |
| Badges.Boundaries | public/js/app.js:744-766 | The badges on the boundary days: -1, 0, 3 and 4 for due dates; -1, 0, 1, 7 and 8 for exams. |
| Badges.DueDateStatusMonotone | public/js/app.js:744-747 | A later due date never gets a more urgent badge. |
| Badges.ExamStatusMonotone | public/js/app.js:758-766 | A later exam date never gets an earlier badge. |
| Badges.ShiftInvariant | public/js/app.js:737-742 | Both badges depend only on the difference between the date and today, in days. |
| Dashboard.ClassName | public/js/app.js:675 | The first matching class's name. "Desconocido" when no class has the id or that class's name is empty. Never empty. |
| Dashboard.PendingTodos | public/js/app.js:658 | Exactly the stored to-dos that are not completed. |
| Dashboard.UpcomingExams | public/js/app.js:661-666 | Exactly the stored exams dated today or later. |
| Dashboard.ExamCards | public/js/app.js:674-686 | The first five upcoming exams in stored order (all of them when fewer). Each is shown with its class name and the exam badge of its date, which is never "Pasado". |
| Dashboard.RecentTodos | public/js/app.js:695 | A prefix of the pending to-dos: five of them, or all when fewer; all are stored and not completed. |
| Dashboard.Summarize | public/js/app.js:656-666 | The counters are the number of groups, pending to-dos, classes and upcoming exams. Pending equals the to-do count exactly when none is completed. Upcoming equals the exam count exactly when none is past. |
| Dashboard.PendingAfterCreate | server.js:208 | A newly created to-do raises the pending count by one. |
| Dashboard.PendingAfterToggle | server.js:257 | Toggling a to-do moves the pending count by one: up if it was completed, down otherwise. |
| Assignees.AllMembers | public/js/app.js:339-341 | A name is listed exactly when some group has it as a member. |
| Assignees.AllMembersStep | public/js/app.js:339-341 | Visiting one more group appends that group's members. |
| Assignees.AddEach | public/js/app.js:340 | The inner loop adds the group's members to the set built so far, as insertion into a `Set`. |
| Assignees.AssigneeOptions | public/js/app.js:335-346 | The options are the members of all groups: each once, in order of first appearance across the groups, and no other name. |
| Scenarios.GroupLifecycle | server.js:79-160 | Creating "CS Study" with members Alice and Bob stores it with an empty description, and reading it back returns it. Deleting it answers "Group deleted", after which reading it answers "Group not found". |
| Scenarios.TodoToggle | server.js:193-264 | A to-do created without a due date starts with no due date and not completed. Toggling it completes it and changes nothing else. |
| Scenarios.ExamForMissingClass | server.js:414-439 | An exam naming a class id that no class has is still accepted, and the exam table shows its class as "Desconocido". |
| TodoForm.Submitted | public/js/app.js:364-370 | Title and description are sent as typed. An empty date or assignee is sent as null. `completed` is true only when editing a completed to-do. |
| TodoForm.CreateFromForm | public/js/app.js:364-376 | Submitting the new-to-do form is rejected exactly when the title is empty. Otherwise it stores the form's values, with an empty date or assignee as null, not completed. |
| TodoForm.EditFromForm | public/js/app.js:364-374 | Submitting the edit form overwrites every field with the form's values and keeps the to-do's completion state. |

## Left out

- **Storage:** file I/O (`readData`, `writeData`, `initializeData`) is not modelled.
  - A collection starts from the records passed to the constructor.
  - `readData` turns any read or parse error into an empty list; that is not modelled.
  - A failed write is not modelled. The route then answers 500, and the file may be left truncated or partly written; the next read then sees an empty collection.
- **Record ids:** `randomUUID` is a parameter `newId`. Where uniqueness of ids matters, it is a precondition that the id is not yet stored.
- **Concurrency:** requests whose reads and writes interleave on the same file, so that one update is lost, are not modelled. Each handler runs to completion on its own.
- **Express plumbing:** routing, JSON parsing, static files and the 500 error responses. A reply records the status class (200/201, 400, 404) and the body.
- **List routes:** the routes that return a whole collection return the `records` field unchanged, so they get no member of their own.
- **Body types:** a body field holding a JSON value of the wrong type (a number as a title, a string as `members`) is not modelled. Each field has its schema type.
  - In an update body, null can be given only for a to-do's due date and assignee, the two fields that store null.
- **Extra properties:** properties a stored record carries beyond its schema, which the update's spread would keep, are not modelled.
- **Toggle in place:** `Todos.Toggle` writes back a record with the flipped flag instead of mutating the shared object. Aliasing of record objects is not modelled.
- **Dates:** JavaScript date parsing, time zones and the millisecond arithmetic of the badges are not modelled. Dates are day numbers.
  - The client reads every date string through the same `dayOf` function.
  - The dashboard's `examDate >= today` test compares the exam's parsed instant without normalising it to midnight. In the model it compares day numbers.
- **Client rendering:** HTML, `escapeHtml`, `formatDate`, modals and `alert`, and the fetch wrappers of `public/js/api.js` are not modelled.
  - The "Sin asignar" first option of the assignee list is not modelled.
  - The exam table's own class-name lookup (public/js/app.js:535) is the same expression as the dashboard's, modelled once by `Dashboard.ClassName`.
- **Validation messages:** the 400 messages are the fixed strings of the code ("Name is required" and so on). They do not list which fields are missing.
