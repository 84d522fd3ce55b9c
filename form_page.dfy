/** The form state of src/features/form/FormPage.tsx: the answers the user
    has typed (`formData`), the error messages shown next to them (`errors`),
    `handleInputChange`, which stores one answer and clears that answer's
    error, and `validateForm`, which range-checks the numeric answers. */
module FormPage {
  import opened Wrappers

  /** A JavaScript number as the form sees it: a finite value, or `NaN`,
      which here also stands for `null` and `undefined`. The range checks do
      not treat them alike (`null < 16` holds, `NaN < 16` does not), but each
      field's final message is the same for all three, because the later
      required-checks overwrite whatever the range checks left. */
  datatype Num = Finite(value: real) | NaN

  /** What `handleInputChange` stores: the text of a text or select input, or
      the result of `parseInt`/`parseFloat` on a numeric input. */
  datatype Value = Text(text: string) | Number(num: Num)

  /** The keys of `UserFormData`. */
  datatype Field =
    | Name | Email | Age | Gender | EducationLevel | SocialMediaUsage
    | MainPlatform | SleepHoursPerNight | RelationshipStatus
    | ConflictsOverSocialMedia | Country

  /** The four answers `validateForm` looks at. */
  const NumericFields: set<Field> := {Age, SocialMediaUsage, SleepHoursPerNight, ConflictsOverSocialMedia}

  const AgeRangeMessage: string := "Edad debe estar entre 16 y 65 años"
  const UsageRangeMessage: string := "Debe estar entre 1 y 10 horas"
  const RequiredMessage: string := "El campo es requerido"

  /** The number a numeric answer holds; a missing answer is `undefined`. A
      finite number is read back exactly as stored. */
  function NumberIn(data: map<Field, Value>, f: Field): (r: Num)
    ensures r.Finite? ==> f in data && data[f] == Number(r)
    ensures f !in data || data[f].Text? ==> r.NaN?
  {
    if f in data && data[f].Number? then data[f].num else NaN
  }

  /** `x < bound` in JavaScript: false when `x` is `NaN`. */
  predicate Below(x: Num, bound: real) {
    x.Finite? && x.value < bound
  }

  /** `x > bound` in JavaScript: false when `x` is `NaN`. */
  predicate Above(x: Num, bound: real) {
    x.Finite? && x.value > bound
  }

  /** `x < lo || x > hi`: false for `NaN`. */
  predicate OutOfRange(x: Num, lo: real, hi: real) {
    Below(x, lo) || Above(x, hi)
  }

  /** `x === null || x === undefined || isNaN(x) || x < lo || x > hi`. */
  predicate MissingOrOutside(x: Num, lo: real, hi: real) {
    x.NaN? || Below(x, lo) || Above(x, hi)
  }

  // ---------------------------------------------------------------------------
  // What the errors end up being, field by field

  /** The message that `validateForm` leaves for field `f`, if any, stated
      per field: an age that is missing or outside [1, 65] is required, an
      age in [1, 16) is out of range, and the other three numeric answers are
      required unless they lie in [1, 10], [1, 10] and [0, 5]. */
  function FieldError(f: Field, data: map<Field, Value>): (r: Option<string>)
    ensures r.Some? ==> f in NumericFields
    ensures r.Some? ==> r.value == RequiredMessage || (f == Age && r.value == AgeRangeMessage)
  {
    var x := NumberIn(data, f);
    match f
    case Age =>
      if MissingOrOutside(x, 1.0, 65.0) then Some(RequiredMessage)
      else if x.value < 16.0 then Some(AgeRangeMessage)
      else None
    case SocialMediaUsage => if MissingOrOutside(x, 1.0, 10.0) then Some(RequiredMessage) else None
    case SleepHoursPerNight => if MissingOrOutside(x, 1.0, 10.0) then Some(RequiredMessage) else None
    case ConflictsOverSocialMedia => if MissingOrOutside(x, 0.0, 5.0) then Some(RequiredMessage) else None
    case _ => None
  }

  /** The whole error map: one entry per field that has a message. */
  function Errors(data: map<Field, Value>): (r: map<Field, string>)
    ensures r.Keys <= NumericFields
    ensures forall f :: f in r <==> FieldError(f, data).Some?
    ensures forall f :: f in r ==> Some(r[f]) == FieldError(f, data)
  {
    map f | f in NumericFields && FieldError(f, data).Some? :: FieldError(f, data).value
  }

  /** `errors` after `delete newErrors[f]` when `errors[f]` is truthy: only
      `f`'s entry can go, and it goes when its message is not empty. */
  function ClearError(errors: map<Field, string>, f: Field): (r: map<Field, string>)
    ensures forall g :: g != f ==> (g in r <==> g in errors)
    ensures forall g :: g != f && g in r ==> r[g] == errors[g]
    ensures f in r <==> f in errors && errors[f] == ""
    ensures f in r ==> r[f] == ""
  {
    if f in errors && errors[f] != "" then errors - {f} else errors
  }

  /** The form as it first appears: every field has an answer, the four
      numeric fields hold numbers and every other answer is the empty text. */
  function InitialData(): (r: map<Field, Value>)
    ensures forall f :: f in r
    ensures forall f :: r[f].Number? <==> f in NumericFields
    ensures forall f :: r[f].Text? ==> r[f].text == ""
  {
    map f: Field :: InitialValue(f)
  }

  /** The initial answer of one field. */
  function InitialValue(f: Field): Value {
    match f
    case Name => Text("")
    case Email => Text("")
    case Age => Number(Finite(20.0))
    case Gender => Text("")
    case EducationLevel => Text("")
    case SocialMediaUsage => Number(Finite(5.0))
    case MainPlatform => Text("")
    case SleepHoursPerNight => Number(Finite(8.0))
    case RelationshipStatus => Text("")
    case ConflictsOverSocialMedia => Number(Finite(1.0))
    case Country => Text("")
  }

  // ---------------------------------------------------------------------------
  // The component's state

  class Form {
    /** `formData`. */
    var data: map<Field, Value>
    /** `errors`, keyed by field. */
    var errors: map<Field, string>

    /** `useState` with the initial answers and no errors. */
    constructor ()
      ensures data == InitialData() && errors == map[]
    {
      data := InitialData();
      errors := map[];
    }

    /** `handleInputChange(field, value)` (FormPage.tsx:32-42): stores the
        answer and drops that field's error, leaving every other answer and
        error as it was. */
    method HandleInputChange(field: Field, value: Value)
      modifies this
      ensures data == old(data)[field := value]
      ensures errors == ClearError(old(errors), field)
    {
      data := data[field := value];
      if field in errors && errors[field] != "" {
        var newErrors := errors;
        newErrors := newErrors - {field};
        errors := newErrors;
      }
    }

    /** `validateForm` (FormPage.tsx:44-107): stores the messages the checks
        leave and answers whether there are none. */
    method ValidateForm() returns (ok: bool)
      modifies this
      ensures data == old(data)
      ensures errors == Errors(data)
      ensures ok <==> errors == map[]
    {
      var newErrors := CollectErrors(data);
      errors := newErrors;
      ok := |newErrors.Keys| == 0;
    }
  }

  /** The checks of `validateForm` on a copy of the answers, in source order,
      each later message for a field replacing an earlier one. */
  method CollectErrors(formData: map<Field, Value>) returns (newErrors: map<Field, string>)
    ensures newErrors == Errors(formData)
  {
    var age := NumberIn(formData, Age);
    var usage := NumberIn(formData, SocialMediaUsage);
    var sleep := NumberIn(formData, SleepHoursPerNight);
    var conflicts := NumberIn(formData, ConflictsOverSocialMedia);

    newErrors := map[];
    if OutOfRange(age, 16.0, 65.0) {
      newErrors := newErrors[Age := AgeRangeMessage];
    }
    if OutOfRange(usage, 1.0, 10.0) {
      newErrors := newErrors[SocialMediaUsage := UsageRangeMessage];
    }
    if MissingOrOutside(age, 1.0, 65.0) {
      newErrors := newErrors[Age := RequiredMessage];
    }
    if MissingOrOutside(usage, 1.0, 10.0) {
      newErrors := newErrors[SocialMediaUsage := RequiredMessage];
    }
    if MissingOrOutside(sleep, 1.0, 10.0) {
      newErrors := newErrors[SleepHoursPerNight := RequiredMessage];
    }
    if MissingOrOutside(conflicts, 0.0, 5.0) {
      newErrors := newErrors[ConflictsOverSocialMedia := RequiredMessage];
    }

    assert newErrors == Checks(formData);
    ChecksGiveErrors(formData);
  }

  /** One check of `validateForm`: `if (failed) newErrors.f = message`. A
      failed check leaves `message` for `f`, a passed one changes nothing;
      `FlagLookup` adds that no other field's entry is touched. */
  function Flag(errors: map<Field, string>, f: Field, failed: bool, message: string): (r: map<Field, string>)
    ensures failed ==> f in r && r[f] == message
    ensures !failed ==> r == errors
  {
    if failed then errors[f := message] else errors
  }

  /** The six checks of `validateForm`, in source order, starting from no
      errors: only the four numeric fields can get a message, and every
      message is one of the three texts of the form (`Within`). */
  function Checks(data: map<Field, Value>): (r: map<Field, string>)
    ensures Within(r)
  {
    var age := NumberIn(data, Age);
    var usage := NumberIn(data, SocialMediaUsage);
    var sleep := NumberIn(data, SleepHoursPerNight);
    var conflicts := NumberIn(data, ConflictsOverSocialMedia);
    var e1 := Flag(map[], Age, OutOfRange(age, 16.0, 65.0), AgeRangeMessage);
    FlagWithin(map[], Age, OutOfRange(age, 16.0, 65.0), AgeRangeMessage);
    var e2 := Flag(e1, SocialMediaUsage, OutOfRange(usage, 1.0, 10.0), UsageRangeMessage);
    FlagWithin(e1, SocialMediaUsage, OutOfRange(usage, 1.0, 10.0), UsageRangeMessage);
    var e3 := Flag(e2, Age, MissingOrOutside(age, 1.0, 65.0), RequiredMessage);
    FlagWithin(e2, Age, MissingOrOutside(age, 1.0, 65.0), RequiredMessage);
    var e4 := Flag(e3, SocialMediaUsage, MissingOrOutside(usage, 1.0, 10.0), RequiredMessage);
    FlagWithin(e3, SocialMediaUsage, MissingOrOutside(usage, 1.0, 10.0), RequiredMessage);
    var e5 := Flag(e4, SleepHoursPerNight, MissingOrOutside(sleep, 1.0, 10.0), RequiredMessage);
    FlagWithin(e4, SleepHoursPerNight, MissingOrOutside(sleep, 1.0, 10.0), RequiredMessage);
    FlagWithin(e5, ConflictsOverSocialMedia, MissingOrOutside(conflicts, 0.0, 5.0), RequiredMessage);
    Flag(e5, ConflictsOverSocialMedia, MissingOrOutside(conflicts, 0.0, 5.0), RequiredMessage)
  }

  /** An error map that names only numeric fields and holds only the form's
      messages. */
  predicate Within(errors: map<Field, string>) {
    && errors.Keys <= NumericFields
    && forall f :: f in errors ==> errors[f] in {AgeRangeMessage, UsageRangeMessage, RequiredMessage}
  }

  /** A check on a numeric field with one of the form's messages keeps an
      error map within those fields and messages. */
  lemma FlagWithin(errors: map<Field, string>, f: Field, failed: bool, message: string)
    requires Within(errors) && f in NumericFields
    requires message in {AgeRangeMessage, UsageRangeMessage, RequiredMessage}
    ensures Within(Flag(errors, f, failed, message))
  {
  }

  /** The message a map holds for a field, if any. */
  function Lookup(errors: map<Field, string>, f: Field): Option<string> {
    if f in errors then Some(errors[f]) else None
  }

  /** A check sets the message of its own field when it fails and touches no
      other field. */
  lemma FlagLookup(errors: map<Field, string>, f: Field, failed: bool, message: string, g: Field)
    ensures Lookup(Flag(errors, f, failed, message), g) == if g == f && failed then Some(message) else Lookup(errors, g)
  {
  }

  /** Run in source order, the checks leave exactly the per-field messages:
      for the age, the required-check overrides the range check, and the
      second social-media check overrides the first. */
  lemma ChecksGiveErrors(data: map<Field, Value>)
    ensures Checks(data) == Errors(data)
  {
    var age := NumberIn(data, Age);
    var usage := NumberIn(data, SocialMediaUsage);
    var sleep := NumberIn(data, SleepHoursPerNight);
    var conflicts := NumberIn(data, ConflictsOverSocialMedia);
    var e1 := Flag(map[], Age, OutOfRange(age, 16.0, 65.0), AgeRangeMessage);
    var e2 := Flag(e1, SocialMediaUsage, OutOfRange(usage, 1.0, 10.0), UsageRangeMessage);
    var e3 := Flag(e2, Age, MissingOrOutside(age, 1.0, 65.0), RequiredMessage);
    var e4 := Flag(e3, SocialMediaUsage, MissingOrOutside(usage, 1.0, 10.0), RequiredMessage);
    var e5 := Flag(e4, SleepHoursPerNight, MissingOrOutside(sleep, 1.0, 10.0), RequiredMessage);
    var m := Flag(e5, ConflictsOverSocialMedia, MissingOrOutside(conflicts, 0.0, 5.0), RequiredMessage);
    forall g
      ensures Lookup(m, g) == FieldError(g, data)
    {
      FlagLookup(map[], Age, OutOfRange(age, 16.0, 65.0), AgeRangeMessage, g);
      FlagLookup(e1, SocialMediaUsage, OutOfRange(usage, 1.0, 10.0), UsageRangeMessage, g);
      FlagLookup(e2, Age, MissingOrOutside(age, 1.0, 65.0), RequiredMessage, g);
      FlagLookup(e3, SocialMediaUsage, MissingOrOutside(usage, 1.0, 10.0), RequiredMessage, g);
      FlagLookup(e4, SleepHoursPerNight, MissingOrOutside(sleep, 1.0, 10.0), RequiredMessage, g);
      FlagLookup(e5, ConflictsOverSocialMedia, MissingOrOutside(conflicts, 0.0, 5.0), RequiredMessage, g);
    }
    SameErrors(m, data);
  }

  /** Two error maps agree when they agree field by field. */
  lemma SameErrors(m: map<Field, string>, data: map<Field, Value>)
    requires forall f :: Lookup(m, f) == FieldError(f, data)
    ensures m == Errors(data)
  {
  }

  // ---------------------------------------------------------------------------
  // Properties of the checks

  /** The form passes exactly when every numeric answer lies in its range:
      age in [16, 65], social media use and sleep in [1, 10], conflicts in
      [0, 5]. */
  lemma PassesIffInRange(data: map<Field, Value>)
    ensures Errors(data) == map[] <==>
      && !MissingOrOutside(NumberIn(data, Age), 16.0, 65.0)
      && !MissingOrOutside(NumberIn(data, SocialMediaUsage), 1.0, 10.0)
      && !MissingOrOutside(NumberIn(data, SleepHoursPerNight), 1.0, 10.0)
      && !MissingOrOutside(NumberIn(data, ConflictsOverSocialMedia), 0.0, 5.0)
  {
    if Errors(data) == map[] {
      assert FieldError(Age, data).None?;
      assert FieldError(SocialMediaUsage, data).None?;
      assert FieldError(SleepHoursPerNight, data).None?;
      assert FieldError(ConflictsOverSocialMedia, data).None?;
    }
  }

  /** An age in [1, 16) gets the range message. */
  lemma YoungAgeMessage(data: map<Field, Value>)
    requires NumberIn(data, Age).Finite? && 1.0 <= NumberIn(data, Age).value < 16.0
    ensures Age in Errors(data) && Errors(data)[Age] == AgeRangeMessage
  {
  }

  /** A missing age, or one below 1 or above 65, gets "El campo es requerido":
      the later check replaces the range message. */
  lemma BadAgeIsRequired(data: map<Field, Value>)
    requires MissingOrOutside(NumberIn(data, Age), 1.0, 65.0)
    ensures Age in Errors(data) && Errors(data)[Age] == RequiredMessage
  {
  }

  /** The message "Debe estar entre 1 y 10 horas" never survives: both
      social-media checks use the same range, so the second always replaces
      the first. */
  lemma UsageRangeMessageNeverShown(data: map<Field, Value>, f: Field)
    requires f in Errors(data)
    ensures Errors(data)[f] != UsageRangeMessage
  {
  }

  /** Name, email and the multiple-choice answers never get an error. */
  lemma OnlyNumericFieldsChecked(data: map<Field, Value>, f: Field)
    requires f !in NumericFields
    ensures f !in Errors(data)
  {
  }

  /** One field's error depends on that field's answer alone. */
  lemma ChecksAreIndependent(d1: map<Field, Value>, d2: map<Field, Value>, f: Field)
    requires NumberIn(d1, f) == NumberIn(d2, f)
    ensures (f in Errors(d1)) == (f in Errors(d2))
    ensures f in Errors(d1) ==> Errors(d1)[f] == Errors(d2)[f]
  {
  }

  /** The form as first shown passes. */
  lemma InitialDataPasses()
    ensures Errors(InitialData()) == map[]
  {
    PassesIffInRange(InitialData());
  }

  /** Changing one answer and validating again changes at most that
      answer's error. */
  lemma ChangeAffectsOnlyItsField(data: map<Field, Value>, f: Field, v: Value, g: Field)
    requires g != f
    ensures (g in Errors(data[f := v])) == (g in Errors(data))
    ensures g in Errors(data) ==> Errors(data[f := v])[g] == Errors(data)[g]
  {
    ChecksAreIndependent(data, data[f := v], g);
  }
}
