/** Exams: the `/api/exams` routes. */
module Exams {
  import opened Records
  import opened Repository

  /** `kind` is the exam's `type` field; `classId` is meant to name a class,
      but nothing checks that it does. */
  datatype Exam = Exam(classId: Id, kind: string, date: string, time: string, location: string)

  /** The fields `POST /api/exams` takes from its body; `None` is a field that
      is absent or `null`. */
  datatype ExamBody = ExamBody(
    classId: Option<string>,
    kind: Option<string>,
    date: Option<string>,
    time: Option<string>,
    location: Option<string>)

  /** The fields `PUT /api/exams/:id` takes from its body. */
  datatype ExamPatch = ExamPatch(
    classId: Patch<Id>,
    kind: Patch<string>,
    date: Patch<string>,
    time: Patch<string>,
    location: Patch<string>)

  const FieldsRequired := "Class, type, and date are required"

  const NoChange := ExamPatch(Keep, Keep, Keep, Keep, Keep)

  /** Validation and defaults of the create handler: class, type and date must
      all be truthy; time and location default to the empty string. The
      collection of classes plays no part. */
  function NewExam(body: ExamBody): (c: Checked<Exam>)
    ensures c.Rejected? <==> !Truthy(body.classId) || !Truthy(body.kind) || !Truthy(body.date)
    ensures c.Rejected? ==> c.message == FieldsRequired
    ensures c.Accepted? ==> c.fields.classId == body.classId.value && c.fields.classId != ""
    ensures c.Accepted? ==> c.fields.kind == body.kind.value && c.fields.kind != ""
    ensures c.Accepted? ==> c.fields.date == body.date.value && c.fields.date != ""
    ensures c.Accepted? && body.time.Some? ==> c.fields.time == body.time.value
    ensures c.Accepted? && body.location.Some? ==> c.fields.location == body.location.value
    ensures c.Accepted? && body.time.None? ==> c.fields.time == ""
    ensures c.Accepted? && body.location.None? ==> c.fields.location == ""
  {
    if !Truthy(body.classId) || !Truthy(body.kind) || !Truthy(body.date) then Rejected(FieldsRequired)
    else
      Accepted(Exam(
        body.classId.value,
        body.kind.value,
        body.date.value,
        OrEmpty(body.time),
        OrEmpty(body.location)))
  }

  /** The merge of the update handler: a field the body leaves `undefined`
      keeps its stored value, any other value replaces it. */
  function Merge(e: Exam, p: ExamPatch): (r: Exam)
    ensures p.classId.Keep? ==> r.classId == e.classId
    ensures p.classId.Set? ==> r.classId == p.classId.value
    ensures p.kind.Keep? ==> r.kind == e.kind
    ensures p.kind.Set? ==> r.kind == p.kind.value
    ensures p.date.Keep? ==> r.date == e.date
    ensures p.date.Set? ==> r.date == p.date.value
    ensures p.time.Keep? ==> r.time == e.time
    ensures p.time.Set? ==> r.time == p.time.value
    ensures p.location.Keep? ==> r.location == e.location
    ensures p.location.Set? ==> r.location == p.location.value
  {
    Exam(p.classId.Apply(e.classId), p.kind.Apply(e.kind), p.date.Apply(e.date), p.time.Apply(e.time), p.location.Apply(e.location))
  }

  lemma MergeLaws(e: Exam, p: ExamPatch)
    ensures Merge(e, NoChange) == e
    ensures Merge(Merge(e, p), p) == Merge(e, p)
  {
  }

  /** `POST /api/exams`; the class id is not looked up. */
  method Create(exams: Collection<Exam>, body: ExamBody, newId: Id) returns (r: Reply<Record<Exam>>)
    modifies exams
    ensures !NewExam(body).Accepted? ==> r == BadRequest(FieldsRequired) && exams.records == old(exams.records)
    ensures NewExam(body).Accepted? ==> r == Ok(Record(newId, NewExam(body).fields))
    ensures NewExam(body).Accepted? ==> exams.records == old(exams.records) + [r.value]
  {
    r := exams.Create(newId, NewExam(body));
  }

  /** `PUT /api/exams/:id` */
  method Update(exams: Collection<Exam>, id: Id, p: ExamPatch) returns (r: Reply<Record<Exam>>)
    requires exams.noun == "Exam"
    modifies exams
    ensures !HasId(old(exams.records), id) ==> r == NotFound("Exam not found") && exams.records == old(exams.records)
    ensures HasId(old(exams.records), id) ==>
      var i := IndexOf(old(exams.records), id).value;
      && exams.records == old(exams.records)[i := Record(id, Merge(old(exams.records)[i].fields, p))]
      && r == Ok(exams.records[i])
  {
    r := exams.Update(id, e => Merge(e, p));
  }
}
