/** The date badges of the client: a due date or an exam date is compared
    with today, both as day numbers (dates already normalised to midnight),
    and the day difference picks a bucket. */
module Badges {

  /** A calendar day, counted in whole days. */
  type Day = int

  /** The badge colours: the suffix of the `badge-…` CSS class. */
  datatype Tone = Danger | Warning | Success | Gray {
    function CssName(): string {
      match this
      case Danger => "danger"
      case Warning => "warning"
      case Success => "success"
      case Gray => "gray"
    }
  }

  /** `getDueDateStatus`: overdue is danger, due today or within three days is
      a warning, anything later is fine. */
  function DueDateStatus(due: Day, today: Day): (t: Tone)
    ensures t == Danger <==> due < today
    ensures t == Warning <==> today <= due <= today + 3
    ensures t == Success <==> today + 3 < due
  {
    var diffDays := due - today;
    if diffDays < 0 then Danger
    else if diffDays == 0 then Warning
    else if diffDays <= 3 then Warning
    else Success
  }

  /** The label and colour `getExamStatus` returns. */
  datatype ExamBadge = ExamBadge(text: string, tone: Tone)

  const Past := ExamBadge("Pasado", Gray)
  const Today := ExamBadge("Hoy", Danger)
  const ThisWeek := ExamBadge("Esta Semana", Warning)
  const Upcoming := ExamBadge("Próximo", Success)

  /** `getExamStatus`: past, today, within the next seven days, or later. */
  function ExamStatus(date: Day, today: Day): (b: ExamBadge)
    ensures b == Past <==> date < today
    ensures b == Today <==> date == today
    ensures b == ThisWeek <==> today < date <= today + 7
    ensures b == Upcoming <==> today + 7 < date
  {
    var diffDays := date - today;
    if diffDays < 0 then Past
    else if diffDays == 0 then Today
    else if diffDays <= 7 then ThisWeek
    else Upcoming
  }

  /** Position of an exam badge along the time line. */
  function ExamStage(b: ExamBadge): nat {
    if b == Past then 0 else if b == Today then 1 else if b == ThisWeek then 2 else 3
  }

  /** The boundary days of both classifiers. */
  lemma Boundaries(today: Day)
    ensures DueDateStatus(today - 1, today) == Danger
    ensures DueDateStatus(today, today) == Warning
    ensures DueDateStatus(today + 3, today) == Warning
    ensures DueDateStatus(today + 4, today) == Success
    ensures ExamStatus(today - 1, today) == Past
    ensures ExamStatus(today, today) == Today
    ensures ExamStatus(today + 1, today) == ThisWeek
    ensures ExamStatus(today + 7, today) == ThisWeek
    ensures ExamStatus(today + 8, today) == Upcoming
  {
  }

  /** The CSS class suffixes of the badges: `'danger'`, `'warning'` and
      `'success'` for due dates; `'gray'`, `'danger'`, `'warning'` and
      `'success'` for exams. */
  lemma BadgeClasses(date: Day, today: Day)
    ensures DueDateStatus(date, today).CssName() ==
      if date < today then "danger" else if date <= today + 3 then "warning" else "success"
    ensures ExamStatus(date, today).tone.CssName() ==
      if date < today then "gray"
      else if date == today then "danger"
      else if date <= today + 7 then "warning"
      else "success"
  {
  }

  /** A later due date never gets an earlier bucket (danger, warning, success). */
  lemma DueDateStatusMonotone(due1: Day, due2: Day, today: Day)
    requires due1 <= due2
    ensures DueDateStatus(due1, today) == Success ==> DueDateStatus(due2, today) == Success
    ensures DueDateStatus(due2, today) == Danger ==> DueDateStatus(due1, today) == Danger
  {
  }

  /** A later exam date never gets an earlier badge. */
  lemma ExamStatusMonotone(date1: Day, date2: Day, today: Day)
    requires date1 <= date2
    ensures ExamStage(ExamStatus(date1, today)) <= ExamStage(ExamStatus(date2, today))
  {
  }

  /** Only the difference of the two days matters, so the badge does not
      depend on when during the day it is computed. */
  lemma ShiftInvariant(date: Day, today: Day, k: int)
    ensures DueDateStatus(date + k, today + k) == DueDateStatus(date, today)
    ensures ExamStatus(date + k, today + k) == ExamStatus(date, today)
  {
  }
}
