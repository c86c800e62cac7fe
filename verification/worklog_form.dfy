/** Admission of a work log: the form's field validation (date, description,
    hours), its `clean_date` hook, the hour column's own validator, and the
    create view that checks permission and inserts the row. */
module WorkLogForms {
  import opened Common
  import opened Text
  import opened Users
  import opened Records
  import opened Access

  /** A number as Python's `Decimal` holds it: coefficient × 10^exponent,
      trailing zeros kept, so "8.50" is 850 × 10^-2 and "2E1" is 2 × 10^1. */
  datatype Decimal = Decimal(coefficient: int, exponent: int)

  function Pow10(k: nat): (r: nat)
    ensures r >= 1
  {
    if k == 0 then 1 else 10 * Pow10(k - 1)
  }

  function Abs(n: int): nat
  {
    if n < 0 then -n else n
  }

  /** Length of the decimal digit string of `n` ("0" has one digit). */
  function NumDigits(n: nat): (r: nat)
    ensures r >= 1
  {
    if n < 10 then 1 else 1 + NumDigits(n / 10)
  }

  /** A number has `NumDigits` digits exactly because it lies between the
      matching powers of ten. */
  lemma {:induction false} NumDigitsBounds(n: nat)
    ensures n < Pow10(NumDigits(n))
    ensures n >= 1 ==> Pow10(NumDigits(n) - 1) <= n
  {
    if n >= 10 {
      NumDigitsBounds(n / 10);
    }
  }

  /** Ten times the value as the fraction `TenfoldNum / TenfoldDen`, the
      denominator a power of ten; the value is `t` tenths exactly when
      `TenfoldNum == t * TenfoldDen`. */
  function TenfoldNum(d: Decimal): int
  {
    if d.exponent + 1 >= 0 then d.coefficient * Pow10(d.exponent + 1) else d.coefficient
  }

  function TenfoldDen(d: Decimal): (r: nat)
    ensures r >= 1
  {
    if d.exponent + 1 >= 0 then 1 else Pow10(-(d.exponent + 1))
  }

  /** The value is at least (at most) `t` tenths of an hour. */
  predicate AtLeastTenths(d: Decimal, t: int)
  {
    TenfoldNum(d) >= t * TenfoldDen(d)
  }

  predicate AtMostTenths(d: Decimal, t: int)
  {
    TenfoldNum(d) <= t * TenfoldDen(d)
  }

  /** What the decimal validator measures: digits after the point, digits
      in all (a positive exponent adds trailing zeros; a negative one longer
      than the digit string adds leading zeros). */
  function DecimalPlaces(d: Decimal): nat
  {
    if d.exponent >= 0 then 0 else -d.exponent
  }

  function DigitCount(d: Decimal): nat
  {
    var n := NumDigits(Abs(d.coefficient));
    if d.exponent >= 0 then (if d.coefficient == 0 then n else n + d.exponent)
    else if -d.exponent > n then -d.exponent
    else n
  }

  /** Form field bounds: at least 0.5 hours, at most 24, one decimal place. */
  const MinHoursTenths: Tenths := 5
  const MaxHoursTenths: Tenths := 240
  const FormDecimalPlaces: nat := 1

  /** Column shape: at most four digits, one of them after the point. */
  const ColumnMaxDigits: nat := 4
  const ColumnDecimalPlaces: nat := 1

  datatype FormError =
    | DateMissing              // date absent or not a date: `clean_date` does not run
    | FutureDate               // "You cannot log work for future dates."
    | DuplicateLog             // "You have already logged work for this project on this date. ..."
    | DescriptionRequired
    | DescriptionNullChar      // "Null characters are not allowed."
    | HoursMissing             // absent or not a number
    | HoursBelowMin
    | HoursAboveMax
    | HoursTooManyPlaces
    | HoursTooManyDigits       // raised by the column validator
    | HoursTooManyWholeDigits  // raised by the column validator

  /** Errors of the form's hours field: every validator runs and reports. */
  function HoursFieldErrors(d: Decimal): set<FormError>
  {
    (if AtLeastTenths(d, MinHoursTenths) then {} else {HoursBelowMin})
    + (if AtMostTenths(d, MaxHoursTenths) then {} else {HoursAboveMax})
    + (if DecimalPlaces(d) <= FormDecimalPlaces then {} else {HoursTooManyPlaces})
  }

  /** The checks of the column's decimal validator (four digits, one place),
      collected together; Django's validator reports only the first that
      fails, which makes no difference here because no value the form field
      accepts fails any of them (`ColumnAcceptsFormHours`). */
  function ColumnErrors(d: Decimal): set<FormError>
  {
    (if DigitCount(d) <= ColumnMaxDigits then {} else {HoursTooManyDigits})
    + (if DecimalPlaces(d) <= ColumnDecimalPlaces then {} else {HoursTooManyPlaces})
    + (if DigitCount(d) - DecimalPlaces(d) <= ColumnMaxDigits - ColumnDecimalPlaces
       then {} else {HoursTooManyWholeDigits})
  }

  /** Hours the form accepts: a value in [0.5, 24] written with at most one
      decimal place. The half-hour step is only a widget hint. */
  lemma HoursFieldAccepts(d: Decimal)
    ensures HoursFieldErrors(d) == {} <==>
      DecimalPlaces(d) <= 1 && AtLeastTenths(d, 5) && AtMostTenths(d, 24 * 10)
  {
  }

  /** Every value the form accepts also fits the column (four digits, one
      place), so the column validator never reports anything. */
  lemma {:induction false} ColumnAcceptsFormHours(d: Decimal)
    requires HoursFieldErrors(d) == {}
    ensures ColumnErrors(d) == {}
  {
    var c := d.coefficient;
    assert c > 0 by {
      assert TenfoldNum(d) >= 5;
    }
    if d.exponent >= 0 {
      assert c * Pow10(d.exponent + 1) <= 240;
      WholeHoursFit(c, d.exponent);
    } else {
      assert d.exponent == -1;
      TenthsFit(c);
    }
  }

  /** A whole-number value of at most 24 hours: digits plus trailing zeros
      stay below three. */
  lemma WholeHoursFit(c: int, k: nat)
    requires c > 0 && c * Pow10(k + 1) <= 240
    ensures NumDigits(c) + k <= 2
  {
    var n := NumDigits(c);
    NumDigitsBounds(c);
    Pow10Add(n - 1, k + 1);
    MulMono(Pow10(n - 1), c, Pow10(k + 1));
    assert Pow10(n - 1 + k + 1) <= 240;
    if n + k >= 3 {
      Pow10Mono(3, n + k);
      assert false;
    }
  }

  /** At most 240 tenths: at most three digits. */
  lemma TenthsFit(c: int)
    requires 0 < c <= 240
    ensures NumDigits(c) <= 3
  {
    NumDigitsBounds(c);
    if NumDigits(c) > 3 {
      Pow10Mono(3, NumDigits(c) - 1);
      assert false;
    }
  }

  lemma {:induction false} Pow10Add(a: nat, b: nat)
    ensures Pow10(a + b) == Pow10(a) * Pow10(b)
  {
    if a > 0 {
      Pow10Add(a - 1, b);
    }
  }

  lemma {:induction false} Pow10Mono(a: nat, b: nat)
    requires a <= b
    ensures Pow10(a) <= Pow10(b)
  {
    if a < b {
      Pow10Mono(a, b - 1);
    }
  }

  lemma MulMono(a: int, b: int, k: nat)
    requires a <= b
    ensures a * k <= b * k
  {
  }

  /** The stored hours: the accepted value as whole tenths, exactly. */
  function CleanHours(d: Decimal): (t: Tenths)
    requires HoursFieldErrors(d) == {}
    ensures MinHoursTenths <= t <= MaxHoursTenths
    ensures t * TenfoldDen(d) == TenfoldNum(d)
  {
    TenfoldNum(d)
  }

  /** Concrete inputs: "8.3" is accepted although it is off the half-hour
      step, "8.50" has one decimal place too many, "0.4" is too small, "24.5"
      too large, and "2E1" (twenty) is accepted. */
  lemma HoursExamples()
    ensures HoursFieldErrors(Decimal(83, -1)) == {} && CleanHours(Decimal(83, -1)) == 83
    ensures HoursFieldErrors(Decimal(850, -2)) == {HoursTooManyPlaces}
    ensures HoursFieldErrors(Decimal(4, -1)) == {HoursBelowMin}
    ensures HoursFieldErrors(Decimal(245, -1)) == {HoursAboveMax}
    ensures HoursFieldErrors(Decimal(2, 1)) == {} && CleanHours(Decimal(2, 1)) == 200
  {
    assert Pow10(1) == 10;
    assert Pow10(2) == 100;
  }

  /** The form's `clean_date`: a future date is refused first; then, for a
      new log whose project and user are both known, an existing log on the
      same (project, user, date) is refused; otherwise the date comes back
      unchanged. */
  function CleanDate(date: Day, today: Day, logs: seq<WorkLog>,
                     project: Option<ProjectId>, user: Option<UserId>,
                     isNew: bool): (r: Result<Day, FormError>)
    ensures date > today ==> r == Err(FutureDate)
    ensures r == Err(DuplicateLog) <==>
      date <= today && isNew && project.Some? && user.Some?
      && HasLog(logs, LogKey(project.value, user.value, date))
    ensures r.Ok? <==>
      date <= today
      && !(isNew && project.Some? && user.Some?
           && HasLog(logs, LogKey(project.value, user.value, date)))
    ensures r.Ok? ==> r.value == date
  {
    if date > today then Err(FutureDate)
    else if project.Some? && user.Some? && isNew
            && HasLog(logs, LogKey(project.value, user.value, date)) then Err(DuplicateLog)
    else Ok(date)
  }

  /** What the client posted: the date and hours already parsed (`None` when
      absent or unparsable), the description as typed. */
  datatype WorkLogInput = WorkLogInput(date: Option<Day>, description: string, hours: Option<Decimal>)

  /** The cleaned values a valid form hands to the view. */
  datatype CleanedLog = CleanedLog(date: Day, description: string, hours: Tenths)

  function DateErrors(date: Option<Day>, today: Day, logs: seq<WorkLog>,
                      project: Option<ProjectId>, user: Option<UserId>, isNew: bool): set<FormError>
  {
    match date
    case None => {DateMissing}
    case Some(d) =>
      match CleanDate(d, today, logs, project, user, isNew)
      case Ok(_) => {}
      case Err(e) => {e}
  }

  /** The description field: stripped, then required, then the text field's
      null-character validator (which skips an empty value). */
  function DescriptionErrors(s: string): set<FormError>
  {
    if Strip(s) == [] then {DescriptionRequired}
    else if NullChar in Strip(s) then {DescriptionNullChar}
    else {}
  }

  /** The column validator runs only on a value the field accepted. */
  function HoursErrors(h: Option<Decimal>): set<FormError>
  {
    match h
    case None => {HoursMissing}
    case Some(d) => if HoursFieldErrors(d) == {} then ColumnErrors(d) else HoursFieldErrors(d)
  }

  function FormErrors(input: WorkLogInput, today: Day, logs: seq<WorkLog>,
                      project: Option<ProjectId>, user: Option<UserId>, isNew: bool): set<FormError>
  {
    DateErrors(input.date, today, logs, project, user, isNew)
    + DescriptionErrors(input.description)
    + HoursErrors(input.hours)
  }

  /** When a work log is admissible, stated directly: a date not after today
      that (for a new log with known project and user) is not taken yet, a
      description that is not all white space and holds no null character,
      and hours in [0.5, 24] with
      at most one decimal place. */
  ghost predicate Admissible(input: WorkLogInput, today: Day, logs: seq<WorkLog>,
                             project: Option<ProjectId>, user: Option<UserId>, isNew: bool)
  {
    && input.date.Some? && input.date.value <= today
    && !(isNew && project.Some? && user.Some?
         && HasLog(logs, LogKey(project.value, user.value, input.date.value)))
    && !AllSpace(input.description) && NullChar !in input.description
    && input.hours.Some? && DecimalPlaces(input.hours.value) <= 1
    && AtLeastTenths(input.hours.value, 5) && AtMostTenths(input.hours.value, 240)
  }

  lemma DateErrorsFacts(date: Option<Day>, today: Day, logs: seq<WorkLog>,
                        project: Option<ProjectId>, user: Option<UserId>, isNew: bool)
    ensures var es := DateErrors(date, today, logs, project, user, isNew);
      && (es == {} <==>
            date.Some? && date.value <= today
            && !(isNew && project.Some? && user.Some?
                 && HasLog(logs, LogKey(project.value, user.value, date.value))))
      && (FutureDate in es <==> date.Some? && date.value > today)
      && (DuplicateLog in es <==>
            date.Some? && date.value <= today && isNew && project.Some? && user.Some?
            && HasLog(logs, LogKey(project.value, user.value, date.value)))
      && DescriptionRequired !in es && DescriptionNullChar !in es
  {
  }

  lemma DescriptionErrorsFacts(s: string)
    ensures DescriptionErrors(s) == {} <==> !AllSpace(s) && NullChar !in s
    ensures DescriptionRequired in DescriptionErrors(s) <==> AllSpace(s)
    ensures DescriptionNullChar in DescriptionErrors(s) <==> !AllSpace(s) && NullChar in s
    ensures FutureDate !in DescriptionErrors(s) && DuplicateLog !in DescriptionErrors(s)
  {
    StripEmptyIffAllSpace(s);
    StripKeepsNullChar(s);
  }

  lemma HoursErrorsFacts(h: Option<Decimal>)
    ensures HoursErrors(h) == {} <==>
      h.Some? && DecimalPlaces(h.value) <= 1
      && AtLeastTenths(h.value, 5) && AtMostTenths(h.value, 240)
    ensures FutureDate !in HoursErrors(h) && DuplicateLog !in HoursErrors(h)
    ensures DescriptionRequired !in HoursErrors(h) && DescriptionNullChar !in HoursErrors(h)
  {
    if h.Some? && HoursFieldErrors(h.value) == {} {
      ColumnAcceptsFormHours(h.value);
    }
  }

  /** The form's errors field by field: none exactly when the log is
      admissible, and each date or description error exactly in its case. */
  lemma FormErrorsFacts(input: WorkLogInput, today: Day, logs: seq<WorkLog>,
                        project: Option<ProjectId>, user: Option<UserId>, isNew: bool)
    ensures var es := FormErrors(input, today, logs, project, user, isNew);
      && (es == {} <==> Admissible(input, today, logs, project, user, isNew))
      && (FutureDate in es <==> input.date.Some? && input.date.value > today)
      && (DuplicateLog in es <==>
            input.date.Some? && input.date.value <= today && isNew && project.Some? && user.Some?
            && HasLog(logs, LogKey(project.value, user.value, input.date.value)))
      && (DescriptionRequired in es <==> AllSpace(input.description))
      && (DescriptionNullChar in es <==>
            !AllSpace(input.description) && NullChar in input.description)
  {
    DateErrorsFacts(input.date, today, logs, project, user, isNew);
    DescriptionErrorsFacts(input.description);
    HoursErrorsFacts(input.hours);
  }

  /** The form's `is_valid` together with its cleaned data. */
  function ValidateWorkLog(input: WorkLogInput, today: Day, logs: seq<WorkLog>,
                           project: Option<ProjectId>, user: Option<UserId>,
                           isNew: bool): (r: Result<CleanedLog, set<FormError>>)
    ensures r.Ok? <==> Admissible(input, today, logs, project, user, isNew)
    ensures r.Ok? ==>
      && r.value.date == input.date.value
      && r.value.description == Strip(input.description) != []
      && MinHoursTenths <= r.value.hours <= MaxHoursTenths
      && r.value.hours * TenfoldDen(input.hours.value) == TenfoldNum(input.hours.value)
    ensures r.Err? ==> r.error != {}
    ensures r.Err? ==>
      (FutureDate in r.error <==> input.date.Some? && input.date.value > today)
    ensures r.Err? ==>
      (DuplicateLog in r.error <==>
         input.date.Some? && input.date.value <= today && isNew && project.Some? && user.Some?
         && HasLog(logs, LogKey(project.value, user.value, input.date.value)))
    ensures r.Err? ==>
      (DescriptionRequired in r.error <==> AllSpace(input.description))
    ensures r.Err? ==>
      (DescriptionNullChar in r.error <==>
         !AllSpace(input.description) && NullChar in input.description)
  {
    FormErrorsFacts(input, today, logs, project, user, isNew);
    var es := FormErrors(input, today, logs, project, user, isNew);
    if es == {} then
      HoursErrorsFacts(input.hours);
      StripEmptyIffAllSpace(input.description);
      assert HoursFieldErrors(input.hours.value) == {};
      Ok(CleanedLog(input.date.value, Strip(input.description), CleanHours(input.hours.value)))
    else
      Err(es)
  }

  /** Editing an existing log never hits the duplicate check. */
  lemma EditSkipsDuplicateCheck(input: WorkLogInput, today: Day, logs: seq<WorkLog>,
                                project: Option<ProjectId>, user: Option<UserId>)
    ensures var r := ValidateWorkLog(input, today, logs, project, user, false);
      r.Err? ==> DuplicateLog !in r.error
  {
  }

  /** How the create view answers. */
  datatype AddLogResponse =
    | ProjectNotFound                          // 404
    | Rejected(errors: set<FormError>, status: nat)
    | PermissionDenied                         // 403, or a redirect with a message
    | IntegrityError                           // the unique key refused the row
    | Added(log: WorkLog)

  /** The status of a rejected form: an AJAX client gets 409 for a date
      already logged and 400 otherwise; a plain request gets the page again. */
  function RejectionStatus(errors: set<FormError>, ajax: bool): (status: nat)
    ensures ajax && DuplicateLog in errors ==> status == 409
    ensures ajax && DuplicateLog !in errors ==> status == 400
    ensures !ajax ==> status == 200
  {
    if !ajax then 200 else if DuplicateLog in errors then 409 else 400
  }

  /** The database insert: the unique key refuses a second row with the
      same (project, user, date). */
  function InsertLog(logs: seq<WorkLog>, w: WorkLog): (r: Option<seq<WorkLog>>)
    ensures r.Some? <==> !HasLog(logs, KeyOf(w))
    ensures r.Some? ==> r.value == logs + [w]
    ensures r.Some? && UniqueLogs(logs) ==> UniqueLogs(r.value)
  {
    if HasLog(logs, KeyOf(w)) then None
    else
      assert UniqueLogs(logs) ==> UniqueLogs(logs + [w]) by {
        if UniqueLogs(logs) {
          AppendKeepsUnique(logs, w);
        }
      }
      Some(logs + [w])
  }

  /** The work-log create view on POST: the project must exist; the form
      (bound to the requesting user and the project, as a new log) must be
      valid; then owner or director may save, stamped with project and user. */
  function AddWorkLog(s: Store, actor: User, pid: ProjectId, input: WorkLogInput,
                      today: Day, ajax: bool): (r: (Store, AddLogResponse))
    ensures pid !in s.projects ==> r == (s, ProjectNotFound)
    ensures !r.1.Added? ==> r.0 == s
    ensures !r.1.IntegrityError?
    ensures r.1.Added? <==>
      pid in s.projects
      && Admissible(input, today, s.logs, Some(pid), Some(actor.id), true)
      && OwnerOrDirector(actor, s.projects[pid])
    ensures r.1.Added? ==>
      && r.1.log.project == pid && r.1.log.user == actor.id
      && r.1.log.date == input.date.value && r.1.log.date <= today
      && r.1.log.description == Strip(input.description)
      && MinHoursTenths <= r.1.log.hours <= MaxHoursTenths
      && r.1.log.hours * TenfoldDen(input.hours.value) == TenfoldNum(input.hours.value)
      && r.0 == s.(logs := s.logs + [r.1.log])
    ensures r.1.Rejected? <==>
      pid in s.projects && !Admissible(input, today, s.logs, Some(pid), Some(actor.id), true)
    ensures r.1 == PermissionDenied <==>
      pid in s.projects && Admissible(input, today, s.logs, Some(pid), Some(actor.id), true)
      && !OwnerOrDirector(actor, s.projects[pid])
    ensures r.1.Rejected? ==>
      r.1.errors == FormErrors(input, today, s.logs, Some(pid), Some(actor.id), true)
      && r.1.errors != {} && r.1.status == RejectionStatus(r.1.errors, ajax)
  {
    if pid !in s.projects then (s, ProjectNotFound)
    else
      match ValidateWorkLog(input, today, s.logs, Some(pid), Some(actor.id), true)
      case Err(es) => (s, Rejected(es, RejectionStatus(es, ajax)))
      case Ok(c) =>
        if !OwnerOrDirector(actor, s.projects[pid]) then (s, PermissionDenied)
        else
          var w := WorkLog(pid, actor.id, c.date, c.description, c.hours);
          match InsertLog(s.logs, w)
          case None => (s, IntegrityError)
          case Some(logs) => (s.(logs := logs), Added(w))
  }

  /** Adding a work log keeps every database constraint. */
  lemma AddWorkLogKeepsWellFormed(s: Store, actor: User, pid: ProjectId, input: WorkLogInput,
                                  today: Day, ajax: bool)
    requires WellFormed(s)
    ensures WellFormed(AddWorkLog(s, actor, pid, input, today, ajax).0)
  {
    var r := AddWorkLog(s, actor, pid, input, today, ajax);
    if r.1.Added? {
      AppendKeepsUnique(s.logs, r.1.log);
    }
  }

  /** Once a log is added, the same user posting again for the same project
      and date is refused as a duplicate, whatever the hours or description. */
  lemma {:induction false} SecondSubmissionIsDuplicate(s: Store, actor: User, pid: ProjectId,
                                                       first: WorkLogInput, second: WorkLogInput,
                                                       today: Day, ajax: bool)
    requires AddWorkLog(s, actor, pid, first, today, ajax).1.Added?
    requires second.date == first.date
    ensures var s1 := AddWorkLog(s, actor, pid, first, today, ajax).0;
      var r := AddWorkLog(s1, actor, pid, second, today, ajax);
      r.1.Rejected? && DuplicateLog in r.1.errors && r.0 == s1
      && (ajax ==> r.1.status == 409)
  {
    var r1 := AddWorkLog(s, actor, pid, first, today, ajax);
    var s1 := r1.0;
    assert s1.logs[|s.logs|] == r1.1.log;
    assert HasLog(s1.logs, LogKey(pid, actor.id, second.date.value));
  }
}
