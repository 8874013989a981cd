/** The diabetes questionnaire (frontend/components/DiabetesSurvey.js):
    the form state, its validation into a per-field error dictionary,
    per-field error clearing on input and the gated submission with the
    computed BMI and submission time. Messages are the i18n keys handed
    to `t(...)`; `parseFloat` is a parameter (`None` for NaN). */
module DiabetesSurvey {

  import opened Wrappers

  /** The names of the seventeen inputs the form renders. */
  datatype FieldName =
    | Age | Gender | Height | Weight
    | DiabetesType | DiagnosisYear | BloodSugar | Hba1c
    | Exercise | Diet | Smoking | Alcohol
    | Medication | Insulin | Complications
    | FamilyHistory | Notes

  /** The property name of the field in `formData`. */
  function NameOf(k: FieldName): string
  {
    match k
    case Age => "age" case Gender => "gender" case Height => "height" case Weight => "weight"
    case DiabetesType => "diabetesType" case DiagnosisYear => "diagnosisYear"
    case BloodSugar => "bloodSugar" case Hba1c => "hba1c"
    case Exercise => "exercise" case Diet => "diet" case Smoking => "smoking" case Alcohol => "alcohol"
    case Medication => "medication" case Insulin => "insulin" case Complications => "complications"
    case FamilyHistory => "familyHistory" case Notes => "notes"
  }

  /** The form state: the value of each field. */
  type FormData = map<FieldName, string>

  /** The error dictionary, keyed by field. */
  type Errors = map<FieldName, string>

  /** The fields that are required outright. */
  predicate Required(k: FieldName)
  {
    k in {Age, Gender, Height, Weight, DiabetesType, Exercise, Diet, Smoking, Alcohol, Insulin, FamilyHistory}
  }

  /** Every key validation may report. */
  predicate Checked(k: FieldName)
  {
    Required(k) || k == DiagnosisYear || k == BloodSugar
  }

  const ValidationPrefix: string := "diabetesSurvey.validation."

  /** `diabetesSurvey.validation.<field>Required`. */
  function RequiredMessage(k: FieldName): string
  {
    ValidationPrefix + NameOf(k) + "Required"
  }

  const BloodSugarInvalid: string := "diabetesSurvey.validation.bloodSugarInvalid"

  /** `formData.<k>`: `undefined` for a field the object does not have. */
  function Get(form: FormData, k: FieldName): (f: Field)
    ensures f.Text? <==> k in form
    ensures f.Text? ==> f.s == form[k]
  {
    if k in form then Text(form[k]) else Absent
  }

  /** `parseFloat(s) < 0`; NaN compares false. */
  predicate Negative(s: string, parseFloat: string -> Option<real>)
  {
    parseFloat(s).Some? && parseFloat(s).value < 0.0
  }

  /** Whether validation reports field `k`. */
  predicate Failing(form: FormData, k: FieldName, parseFloat: string -> Option<real>)
  {
    match k
    case DiagnosisYear => !Truthy(Get(form, k)) && Get(form, DiabetesType) != Text("none")
    case BloodSugar => !Truthy(Get(form, k)) || Negative(form[k], parseFloat)
    case _ => Required(k) && !Truthy(Get(form, k))
  }

  /** The message reported under `k` when it fails. */
  function Message(form: FormData, k: FieldName): string
  {
    if k == BloodSugar && Truthy(Get(form, k)) then BloodSugarInvalid else RequiredMessage(k)
  }

  const AllFields: set<FieldName> := {
    Age, Gender, Height, Weight, DiabetesType, DiagnosisYear, BloodSugar, Hba1c,
    Exercise, Diet, Smoking, Alcohol, Medication, Insulin, Complications, FamilyHistory, Notes}

  /** The fields `validateForm` checks, in its order. */
  const CheckOrder: seq<FieldName> := [
    Age, Gender, Height, Weight, DiabetesType, DiagnosisYear, BloodSugar,
    Exercise, Diet, Smoking, Alcohol, Insulin, FamilyHistory]

  /** One check: add the field's message when it fails. */
  function Check(errors: Errors, form: FormData, k: FieldName, parseFloat: string -> Option<real>): Errors
  {
    if Failing(form, k, parseFloat) then errors[k := Message(form, k)] else errors
  }

  /** The dictionary the checks of `order`, run in turn from `{}`, build. */
  function ErrorsAfter(form: FormData, order: seq<FieldName>, parseFloat: string -> Option<real>): Errors
  {
    if order == [] then map[]
    else Check(ErrorsAfter(form, order[..|order| - 1], parseFloat), form, order[|order| - 1], parseFloat)
  }

  /** The error dictionary `validateForm` builds for `form`. */
  function ErrorsOf(form: FormData, parseFloat: string -> Option<real>): Errors
  {
    ErrorsAfter(form, CheckOrder, parseFloat)
  }

  /** The body of `validateForm` up to `setErrors`: one check per field,
      in the source's order. */
  method BuildErrors(form: FormData, parseFloat: string -> Option<real>) returns (newErrors: Errors)
    ensures newErrors == ErrorsOf(form, parseFloat)
  {
    ghost var basic := [Age, Gender, Height, Weight];
    ghost var diabetes := basic + [DiabetesType, DiagnosisYear, BloodSugar];
    CheckOrderSplit(basic, diabetes);
    newErrors := BasicChecks(form, [], map[], parseFloat);
    newErrors := DiabetesChecks(form, basic, newErrors, parseFloat);
    newErrors := LifestyleChecks(form, diabetes, newErrors, parseFloat);
  }

  /** `CheckOrder` as the four groups of checks. */
  lemma CheckOrderSplit(basic: seq<FieldName>, diabetes: seq<FieldName>)
    requires basic == [Age, Gender, Height, Weight]
    requires diabetes == basic + [DiabetesType, DiagnosisYear, BloodSugar]
    ensures [] + basic == basic
    ensures diabetes + [Exercise, Diet, Smoking] + [Alcohol, Insulin, FamilyHistory] == CheckOrder
  {
  }

  /** The basic-information checks: age, gender, height, weight. */
  method BasicChecks(form: FormData, ghost done: seq<FieldName>, errors: Errors, parseFloat: string -> Option<real>)
    returns (newErrors: Errors)
    requires errors == ErrorsAfter(form, done, parseFloat)
    ensures newErrors == ErrorsAfter(form, done + [Age, Gender, Height, Weight], parseFloat)
  {
    newErrors := errors;
    if !Truthy(Get(form, Age)) { newErrors := newErrors[Age := RequiredMessage(Age)]; }
    AfterSnoc(form, done, Age, parseFloat);
    if !Truthy(Get(form, Gender)) { newErrors := newErrors[Gender := RequiredMessage(Gender)]; }
    AfterSnoc(form, done + [Age], Gender, parseFloat);
    if !Truthy(Get(form, Height)) { newErrors := newErrors[Height := RequiredMessage(Height)]; }
    AfterSnoc(form, done + [Age] + [Gender], Height, parseFloat);
    if !Truthy(Get(form, Weight)) { newErrors := newErrors[Weight := RequiredMessage(Weight)]; }
    AfterSnoc(form, done + [Age] + [Gender] + [Height], Weight, parseFloat);
    assert done + [Age] + [Gender] + [Height] + [Weight] == done + [Age, Gender, Height, Weight];
  }

  /** The diabetes-related checks: type, diagnosis year (not needed for
      type 'none'), blood sugar (missing or negative). */
  method DiabetesChecks(form: FormData, ghost done: seq<FieldName>, errors: Errors, parseFloat: string -> Option<real>)
    returns (newErrors: Errors)
    requires errors == ErrorsAfter(form, done, parseFloat)
    ensures newErrors == ErrorsAfter(form, done + [DiabetesType, DiagnosisYear, BloodSugar], parseFloat)
  {
    newErrors := errors;
    if !Truthy(Get(form, DiabetesType)) {
      newErrors := newErrors[DiabetesType := RequiredMessage(DiabetesType)];
    }
    AfterSnoc(form, done, DiabetesType, parseFloat);
    if !Truthy(Get(form, DiagnosisYear)) && Get(form, DiabetesType) != Text("none") {
      newErrors := newErrors[DiagnosisYear := RequiredMessage(DiagnosisYear)];
    }
    AfterSnoc(form, done + [DiabetesType], DiagnosisYear, parseFloat);
    if !Truthy(Get(form, BloodSugar)) {
      newErrors := newErrors[BloodSugar := RequiredMessage(BloodSugar)];
    } else if Negative(form[BloodSugar], parseFloat) {
      newErrors := newErrors[BloodSugar := BloodSugarInvalid];
    }
    AfterSnoc(form, done + [DiabetesType] + [DiagnosisYear], BloodSugar, parseFloat);
    assert done + [DiabetesType] + [DiagnosisYear] + [BloodSugar] == done + [DiabetesType, DiagnosisYear, BloodSugar];
  }

  /** The lifestyle and treatment checks. */
  method LifestyleChecks(form: FormData, ghost done: seq<FieldName>, errors: Errors, parseFloat: string -> Option<real>)
    returns (newErrors: Errors)
    requires errors == ErrorsAfter(form, done, parseFloat)
    ensures newErrors == ErrorsAfter(form, done + [Exercise, Diet, Smoking] + [Alcohol, Insulin, FamilyHistory], parseFloat)
  {
    newErrors := LifestyleHabits(form, done, errors, parseFloat);
    newErrors := TreatmentChecks(form, done + [Exercise, Diet, Smoking], newErrors, parseFloat);
  }

  /** Exercise, diet and smoking. */
  method LifestyleHabits(form: FormData, ghost done: seq<FieldName>, errors: Errors, parseFloat: string -> Option<real>)
    returns (newErrors: Errors)
    requires errors == ErrorsAfter(form, done, parseFloat)
    ensures newErrors == ErrorsAfter(form, done + [Exercise, Diet, Smoking], parseFloat)
  {
    newErrors := errors;
    if !Truthy(Get(form, Exercise)) { newErrors := newErrors[Exercise := RequiredMessage(Exercise)]; }
    AfterSnoc(form, done, Exercise, parseFloat);
    if !Truthy(Get(form, Diet)) { newErrors := newErrors[Diet := RequiredMessage(Diet)]; }
    AfterSnoc(form, done + [Exercise], Diet, parseFloat);
    if !Truthy(Get(form, Smoking)) { newErrors := newErrors[Smoking := RequiredMessage(Smoking)]; }
    AfterSnoc(form, done + [Exercise] + [Diet], Smoking, parseFloat);
    assert done + [Exercise] + [Diet] + [Smoking] == done + [Exercise, Diet, Smoking];
  }

  /** Alcohol, insulin and family history. */
  method TreatmentChecks(form: FormData, ghost done: seq<FieldName>, errors: Errors, parseFloat: string -> Option<real>)
    returns (newErrors: Errors)
    requires errors == ErrorsAfter(form, done, parseFloat)
    ensures newErrors == ErrorsAfter(form, done + [Alcohol, Insulin, FamilyHistory], parseFloat)
  {
    newErrors := errors;
    if !Truthy(Get(form, Alcohol)) { newErrors := newErrors[Alcohol := RequiredMessage(Alcohol)]; }
    AfterSnoc(form, done, Alcohol, parseFloat);
    if !Truthy(Get(form, Insulin)) { newErrors := newErrors[Insulin := RequiredMessage(Insulin)]; }
    AfterSnoc(form, done + [Alcohol], Insulin, parseFloat);
    if !Truthy(Get(form, FamilyHistory)) {
      newErrors := newErrors[FamilyHistory := RequiredMessage(FamilyHistory)];
    }
    AfterSnoc(form, done + [Alcohol] + [Insulin], FamilyHistory, parseFloat);
    assert done + [Alcohol] + [Insulin] + [FamilyHistory] == done + [Alcohol, Insulin, FamilyHistory];
  }

  /** Running one more check after those of `done`. */
  lemma AfterSnoc(form: FormData, done: seq<FieldName>, k: FieldName, parseFloat: string -> Option<real>)
    ensures ErrorsAfter(form, done + [k], parseFloat) == Check(ErrorsAfter(form, done, parseFloat), form, k, parseFloat)
  {
    assert (done + [k])[..|done|] == done;
  }

  /** Running the checks of `order` reports exactly the failing fields
      among them, each with its message. */
  lemma {:induction false} ErrorsAfterExact(form: FormData, order: seq<FieldName>, parseFloat: string -> Option<real>, k: FieldName)
    ensures k in ErrorsAfter(form, order, parseFloat) <==> k in order && Failing(form, k, parseFloat)
    ensures k in ErrorsAfter(form, order, parseFloat) ==> ErrorsAfter(form, order, parseFloat)[k] == Message(form, k)
    decreases |order|
  {
    if order != [] {
      var init := order[..|order| - 1];
      ErrorsAfterExact(form, init, parseFloat, k);
      assert order == init + [order[|order| - 1]];
      assert k in order <==> k in init || k == order[|order| - 1];
    }
  }

  /** What `handleSubmit` hands to `onSubmit`:
      `{...formData, bmi: bmi.toFixed(1), submittedAt: new Date().toISOString()}`. */
  datatype Submission = Submission(fields: FormData, bmi: string, submittedAt: string)

  /** The component's state: `formData` and `errors`. */
  class SurveyForm {
    var formData: FormData
    var errors: Errors

    /** The initial state: every field '' and no errors. */
    constructor()
      ensures formData == Initial() && errors == map[]
    {
      formData := Initial();
      errors := map[];
    }

    /** `handleInputChange`: sets one field; clears that field's error
        (to '') only when it is present and non-empty. */
    method HandleInputChange(name: FieldName, value: string)
      modifies this
      ensures formData == old(formData)[name := value]
      ensures errors == ClearedErrors(old(errors), name)
    {
      formData := formData[name := value];
      if name in errors && errors[name] != "" {
        errors := errors[name := ""];
      }
    }

    /** `validateForm`: replaces the errors with a fresh dictionary and
        reports whether it is empty. */
    method ValidateForm(parseFloat: string -> Option<real>) returns (valid: bool)
      modifies this
      ensures formData == old(formData)
      ensures errors == ErrorsOf(formData, parseFloat)
      ensures valid <==> errors == map[]
    {
      var newErrors := BuildErrors(formData, parseFloat);
      errors := newErrors;
      valid := |newErrors| == 0;
    }

    /** `handleSubmit`: nothing is submitted unless validation passes;
        otherwise every field together with `bmi` (the text of
        `bmi.toFixed(1)`) and `submittedAt` (the current ISO time). */
    method HandleSubmit(parseFloat: string -> Option<real>, bmi: string, submittedAt: string)
      returns (submitted: Option<Submission>)
      modifies this
      ensures formData == old(formData)
      ensures errors == ErrorsOf(formData, parseFloat)
      ensures submitted.Some? <==> errors == map[]
      ensures submitted.Some? ==> submitted.value == Submission(formData, bmi, submittedAt)
    {
      var valid := ValidateForm(parseFloat);
      if !valid {
        return None;
      }
      submitted := Some(Submission(formData, bmi, submittedAt));
    }
  }

  /** The error dictionary after `handleInputChange(name, ...)`: that
      entry blanked, every other entry kept. */
  function ClearedErrors(errors: Errors, name: FieldName): (r: Errors)
    ensures r.Keys == errors.Keys
    ensures name in r ==> r[name] == ""
    ensures forall k :: k in errors && k != name ==> r[k] == errors[k]
  {
    if name in errors && errors[name] != "" then errors[name := ""] else errors
  }

  /** The initial form: every one of the seventeen fields ''. */
  function Initial(): (form: FormData)
    ensures form.Keys == AllFields
    ensures forall k :: k in form ==> form[k] == ""
  {
    map k | k in AllFields :: ""
  }

  // ---------------------------------------------------------------------
  // What validation means
  // ---------------------------------------------------------------------

  /** A field is in the dictionary exactly when its check fails, and then
      with its message. */
  lemma ErrorsExact(form: FormData, parseFloat: string -> Option<real>, k: FieldName)
    ensures k in ErrorsOf(form, parseFloat) <==> Failing(form, k, parseFloat)
    ensures k in ErrorsOf(form, parseFloat) ==> ErrorsOf(form, parseFloat)[k] == Message(form, k)
  {
    ErrorsAfterExact(form, CheckOrder, parseFloat, k);
  }

  /** A required field is reported, with its 'required' message, exactly
      when it is empty or missing. */
  lemma RequiredFieldRule(form: FormData, parseFloat: string -> Option<real>, k: FieldName)
    requires Required(k)
    ensures k in ErrorsOf(form, parseFloat) <==> !Truthy(Get(form, k))
    ensures k in ErrorsOf(form, parseFloat) ==> ErrorsOf(form, parseFloat)[k] == RequiredMessage(k)
  {
    ErrorsExact(form, parseFloat, k);
  }

  /** The diagnosis year is required exactly when it is empty and the
      diabetes type is not 'none'. */
  lemma DiagnosisYearRule(form: FormData, parseFloat: string -> Option<real>)
    ensures DiagnosisYear in ErrorsOf(form, parseFloat) <==>
            !Truthy(Get(form, DiagnosisYear)) && Get(form, DiabetesType) != Text("none")
    ensures DiagnosisYear in ErrorsOf(form, parseFloat) ==>
            ErrorsOf(form, parseFloat)[DiagnosisYear] == RequiredMessage(DiagnosisYear)
  {
    ErrorsExact(form, parseFloat, DiagnosisYear);
  }

  /** An empty blood sugar is 'required', a negative one 'invalid',
      anything else (including text that parses to NaN) passes. */
  lemma BloodSugarRule(form: FormData, parseFloat: string -> Option<real>)
    ensures !Truthy(Get(form, BloodSugar)) ==>
            BloodSugar in ErrorsOf(form, parseFloat) &&
            ErrorsOf(form, parseFloat)[BloodSugar] == RequiredMessage(BloodSugar)
    ensures Truthy(Get(form, BloodSugar)) && Negative(form[BloodSugar], parseFloat) ==>
            BloodSugar in ErrorsOf(form, parseFloat) && ErrorsOf(form, parseFloat)[BloodSugar] == BloodSugarInvalid
    ensures Truthy(Get(form, BloodSugar)) && !Negative(form[BloodSugar], parseFloat) ==>
            BloodSugar !in ErrorsOf(form, parseFloat)
  {
    ErrorsExact(form, parseFloat, BloodSugar);
  }

  /** hba1c, medication, complications and notes are never reported. */
  lemma OptionalFieldsNeverReported(form: FormData, parseFloat: string -> Option<real>)
    ensures Medication !in ErrorsOf(form, parseFloat) && Complications !in ErrorsOf(form, parseFloat)
    ensures Hba1c !in ErrorsOf(form, parseFloat) && Notes !in ErrorsOf(form, parseFloat)
  {
    ErrorsExact(form, parseFloat, Medication);
    ErrorsExact(form, parseFloat, Complications);
    ErrorsExact(form, parseFloat, Hba1c);
    ErrorsExact(form, parseFloat, Notes);
  }

  /** The form is valid exactly when every required field is filled, the
      diagnosis year is filled or the type is 'none', and the blood sugar
      is filled and not negative. */
  lemma ValidIff(form: FormData, parseFloat: string -> Option<real>)
    ensures ErrorsOf(form, parseFloat) == map[] <==>
            (forall k :: Required(k) ==> Truthy(Get(form, k))) &&
            (Truthy(Get(form, DiagnosisYear)) || Get(form, DiabetesType) == Text("none")) &&
            Truthy(Get(form, BloodSugar)) && !Negative(form[BloodSugar], parseFloat)
  {
    var e := ErrorsOf(form, parseFloat);
    if e == map[] {
      forall k | Required(k)
        ensures Truthy(Get(form, k))
      {
        ErrorsExact(form, parseFloat, k);
      }
      ErrorsExact(form, parseFloat, DiagnosisYear);
      ErrorsExact(form, parseFloat, BloodSugar);
    } else {
      var k :| k in e;
      ErrorsExact(form, parseFloat, k);
    }
  }

  /** A fresh form fails validation on every checked field. */
  lemma FreshFormReportsEverything(parseFloat: string -> Option<real>)
    ensures forall k :: k in ErrorsOf(Initial(), parseFloat) <==> k in CheckOrder
  {
    var form := Initial();
    forall k
      ensures k in ErrorsOf(form, parseFloat) <==> k in CheckOrder
    {
      ErrorsExact(form, parseFloat, k);
      ErrorsAfterExact(form, CheckOrder, parseFloat, k);
      if k in CheckOrder {
        assert k in AllFields;
        assert Get(form, k) == Text("");
      }
    }
  }

  /** Editing one field changes the error of no other field, except that
      the diabetes type decides whether the diagnosis year is required. */
  lemma EditIsLocal(form: FormData, name: FieldName, value: string, parseFloat: string -> Option<real>, k: FieldName)
    requires k != name && !(name == DiabetesType && k == DiagnosisYear)
    ensures k in ErrorsOf(form[name := value], parseFloat) <==> k in ErrorsOf(form, parseFloat)
    ensures k in ErrorsOf(form, parseFloat) ==>
            ErrorsOf(form[name := value], parseFloat)[k] == ErrorsOf(form, parseFloat)[k]
  {
    assert Get(form[name := value], k) == Get(form, k);
    ErrorsExact(form, parseFloat, k);
    ErrorsExact(form[name := value], parseFloat, k);
  }

  /** Typing a value into a required field clears its error at the next
      validation. */
  lemma FillingFixesField(form: FormData, name: FieldName, value: string, parseFloat: string -> Option<real>)
    requires Required(name) && value != ""
    ensures name !in ErrorsOf(form[name := value], parseFloat)
  {
    RequiredFieldRule(form[name := value], parseFloat, name);
  }
}
