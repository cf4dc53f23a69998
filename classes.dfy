/** Classes (courses): the `/api/classes` routes. */
module Classes {
  import opened Records
  import opened Repository

  datatype Course = Course(name: string, code: string, instructor: string, schedule: string)

  /** The fields `POST /api/classes` takes from its body; `None` is a field
      that is absent or `null`. */
  datatype CourseBody = CourseBody(
    name: Option<string>,
    code: Option<string>,
    instructor: Option<string>,
    schedule: Option<string>)

  /** The fields `PUT /api/classes/:id` takes from its body. */
  datatype CoursePatch = CoursePatch(
    name: Patch<string>,
    code: Patch<string>,
    instructor: Patch<string>,
    schedule: Patch<string>)

  const NameRequired := "Name is required"

  const NoChange := CoursePatch(Keep, Keep, Keep, Keep)

  /** Validation and defaults of the create handler: a falsy name is
      rejected; code, instructor and schedule default to the empty string. */
  function NewCourse(body: CourseBody): (c: Checked<Course>)
    ensures c.Rejected? <==> !Truthy(body.name)
    ensures c.Rejected? ==> c.message == NameRequired
    ensures c.Accepted? ==> c.fields.name == body.name.value && c.fields.name != ""
    ensures c.Accepted? && body.code.Some? ==> c.fields.code == body.code.value
    ensures c.Accepted? && body.instructor.Some? ==> c.fields.instructor == body.instructor.value
    ensures c.Accepted? && body.schedule.Some? ==> c.fields.schedule == body.schedule.value
    ensures c.Accepted? && body.code.None? ==> c.fields.code == ""
    ensures c.Accepted? && body.instructor.None? ==> c.fields.instructor == ""
    ensures c.Accepted? && body.schedule.None? ==> c.fields.schedule == ""
  {
    if !Truthy(body.name) then Rejected(NameRequired)
    else Accepted(Course(body.name.value, OrEmpty(body.code), OrEmpty(body.instructor), OrEmpty(body.schedule)))
  }

  /** The merge of the update handler: a field the body leaves `undefined`
      keeps its stored value, any other value replaces it. */
  function Merge(c: Course, p: CoursePatch): (r: Course)
    ensures p.name.Keep? ==> r.name == c.name
    ensures p.name.Set? ==> r.name == p.name.value
    ensures p.code.Keep? ==> r.code == c.code
    ensures p.code.Set? ==> r.code == p.code.value
    ensures p.instructor.Keep? ==> r.instructor == c.instructor
    ensures p.instructor.Set? ==> r.instructor == p.instructor.value
    ensures p.schedule.Keep? ==> r.schedule == c.schedule
    ensures p.schedule.Set? ==> r.schedule == p.schedule.value
  {
    Course(p.name.Apply(c.name), p.code.Apply(c.code), p.instructor.Apply(c.instructor), p.schedule.Apply(c.schedule))
  }

  lemma MergeLaws(c: Course, p: CoursePatch)
    ensures Merge(c, NoChange) == c
    ensures Merge(Merge(c, p), p) == Merge(c, p)
  {
  }

  /** `POST /api/classes` */
  method Create(classes: Collection<Course>, body: CourseBody, newId: Id) returns (r: Reply<Record<Course>>)
    modifies classes
    ensures !Truthy(body.name) ==> r == BadRequest(NameRequired) && classes.records == old(classes.records)
    ensures Truthy(body.name) ==> r == Ok(Record(newId, NewCourse(body).fields))
    ensures Truthy(body.name) ==> classes.records == old(classes.records) + [r.value]
  {
    r := classes.Create(newId, NewCourse(body));
  }

  /** `PUT /api/classes/:id` */
  method Update(classes: Collection<Course>, id: Id, p: CoursePatch) returns (r: Reply<Record<Course>>)
    requires classes.noun == "Class"
    modifies classes
    ensures !HasId(old(classes.records), id) ==> r == NotFound("Class not found") && classes.records == old(classes.records)
    ensures HasId(old(classes.records), id) ==>
      var i := IndexOf(old(classes.records), id).value;
      && classes.records == old(classes.records)[i := Record(id, Merge(old(classes.records)[i].fields, p))]
      && r == Ok(classes.records[i])
  {
    r := classes.Update(id, c => Merge(c, p));
  }
}
