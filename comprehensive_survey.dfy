/** The four-module questionnaire (frontend/components/ComprehensiveSurvey.js):
    a module counter bounded to 1..4 with next/previous navigation, a form
    whose checkbox fields are arrays, the progress percentage and the
    submission of the form as it stands. */
module ComprehensiveSurvey {

  import opened Wrappers
  import opened Lists

  /** A form value: text for ordinary inputs, an array for checkbox groups. */
  datatype Value = Scalar(s: string) | Multi(items: seq<string>)

  type FormData = map<string, Value>

  const TotalModules: int := 4

  /** The text inputs and selects of the four modules. */
  const ScalarFields: seq<string> := [
    "age", "gender", "ethnicity", "education", "occupation", "maritalStatus",
    "householdSize", "income", "insurance", "location",
    "diabetesType", "diagnosisAge", "familyHistory", "allergies",
    "previousHospitalizations", "surgicalHistory", "painLevel", "functionalStatus",
    "smokingStatus", "smokingHistory", "alcoholConsumption", "physicalActivity",
    "exerciseFrequency", "dietType", "sleepHours", "sleepQuality", "stressLevel", "socialSupport",
    "currentMedications", "medicationAdherence", "bloodGlucoseMonitoring", "hba1cLevel",
    "bloodPressure", "cholesterolLevel", "bmi", "healthcareVisits"]

  /** The checkbox groups, which start as empty arrays. */
  const ListFields: seq<string> := ["comorbidities", "currentSymptoms", "complications", "selfCareActivities"]

  /** The initial `formData`. */
  function InitialForm(): (form: FormData)
    ensures forall k :: k in ScalarFields && k !in ListFields ==> k in form && form[k] == Scalar("")
    ensures forall k :: k in ListFields ==> k in form && form[k] == Multi([])
    ensures forall k :: k in form ==> k in ScalarFields || k in ListFields
  {
    (map k | k in ScalarFields :: Scalar("")) + (map k | k in ListFields :: Multi([]))
  }

  // ---------------------------------------------------------------------
  // Module navigation
  // ---------------------------------------------------------------------

  /** `nextModule`: one forward unless already on the last module. */
  function NextOf(m: int): (r: int)
    requires 1 <= m <= TotalModules
    ensures 1 <= r <= TotalModules
    ensures m < TotalModules ==> r == m + 1
    ensures m == TotalModules ==> r == m
  {
    if m < TotalModules then m + 1 else m
  }

  /** `prevModule`: one back unless already on the first module. */
  function PrevOf(m: int): (r: int)
    requires 1 <= m <= TotalModules
    ensures 1 <= r <= TotalModules
    ensures m > 1 ==> r == m - 1
    ensures m == 1 ==> r == m
  {
    if m > 1 then m - 1 else m
  }

  /** Going forward and back (or back and forward) away from the ends
      returns to the same module. */
  lemma NavigationInverse(m: int)
    requires 1 <= m <= TotalModules
    ensures m < TotalModules ==> PrevOf(NextOf(m)) == m
    ensures m > 1 ==> NextOf(PrevOf(m)) == m
  {
  }

  /** From any module, three steps forward reach the last one and three
      steps back the first. */
  lemma EndsReachable(m: int)
    requires 1 <= m <= TotalModules
    ensures NextOf(NextOf(NextOf(m))) == TotalModules
    ensures PrevOf(PrevOf(PrevOf(m))) == 1
  {
  }

  /** `Math.round((currentModule / totalModules) * 100)`. */
  function Progress(m: int): int
  {
    ((m as real / TotalModules as real) * 100.0 + 0.5).Floor
  }

  /** The progress label reads 25, 50, 75 or 100 percent. */
  lemma ProgressValues(m: int)
    requires 1 <= m <= TotalModules
    ensures Progress(m) == 25 * m
  {
    assert m as real / 4.0 * 100.0 == 25.0 * m as real;
    assert (25 * m) as real <= 25.0 * m as real + 0.5 < (25 * m + 1) as real;
  }

  /** The form has a submit button (instead of "next") only on the last
      module. */
  predicate ShowsSubmit(m: int)
  {
    !(m < TotalModules)
  }

  lemma SubmitOnlyOnLastModule(m: int)
    requires 1 <= m <= TotalModules
    ensures ShowsSubmit(m) <==> m == 4
  {
  }

  // ---------------------------------------------------------------------
  // Checkbox arrays
  // ---------------------------------------------------------------------

  /** Spreading a string gives its characters, each as a string. */
  function Characters(s: string): (r: seq<string>)
    ensures |r| == |s|
    ensures forall i :: 0 <= i < |s| ==> r[i] == [s[i]]
  {
    seq(|s|, i requires 0 <= i < |s| => [s[i]])
  }

  /** The new value of a checkbox group: `[...(prev || []), value]` when
      checked, `(prev || []).filter(item => item !== value)` when not.
      `None` is the TypeError thrown when a non-empty text value has no
      `filter`. */
  function CheckboxValue(prev: Option<Value>, value: string, checked: bool): (r: Option<Value>)
    ensures checked ==> r.Some? && r.value.Multi? && |r.value.items| >= 1 && r.value.items[|r.value.items| - 1] == value
    ensures !checked && r.Some? ==> r.value.Multi? && value !in r.value.items
    ensures r.None? <==> !checked && prev.Some? && prev.value.Scalar? && prev.value.s != ""
  {
    var current :=
      match prev
      case None => []
      case Some(Multi(items)) => items
      case Some(Scalar(s)) => Characters(s);
    if checked then Some(Multi(current + [value]))
    else if prev.Some? && prev.value.Scalar? && prev.value.s != "" then None
    else
      WithoutMembers(current, value, value);
      Some(Multi(Without(current, value)))
  }

  /** On an array, checking appends (duplicates allowed) and unchecking
      removes every occurrence and keeps the rest in order. */
  lemma CheckboxOnArray(items: seq<string>, value: string)
    ensures CheckboxValue(Some(Multi(items)), value, true) == Some(Multi(items + [value]))
    ensures CheckboxValue(Some(Multi(items)), value, false) == Some(Multi(Without(items, value)))
  {
  }

  /** Checking and then unchecking a box that was not yet checked restores
      the array. */
  lemma CheckThenUncheck(items: seq<string>, value: string)
    requires value !in items
    ensures var checked := CheckboxValue(Some(Multi(items)), value, true);
            checked.Some? && CheckboxValue(checked, value, false) == Some(Multi(items))
  {
    WithoutAppended(items, value);
  }

  // ---------------------------------------------------------------------
  // The component
  // ---------------------------------------------------------------------

  /** The component's state: `currentModule` and `formData`. */
  class Survey {
    var currentModule: int
    var formData: FormData

    ghost predicate Valid()
      reads this
    {
      1 <= currentModule <= TotalModules
    }

    constructor()
      ensures Valid()
      ensures currentModule == 1 && formData == InitialForm()
    {
      currentModule := 1;
      formData := InitialForm();
    }

    method NextModule()
      requires Valid()
      modifies this
      ensures Valid()
      ensures currentModule == NextOf(old(currentModule))
      ensures formData == old(formData)
    {
      if currentModule < TotalModules {
        currentModule := currentModule + 1;
      }
    }

    method PrevModule()
      requires Valid()
      modifies this
      ensures Valid()
      ensures currentModule == PrevOf(old(currentModule))
      ensures formData == old(formData)
    {
      if currentModule > 1 {
        currentModule := currentModule - 1;
      }
    }

    /** `handleInputChange` for an input that is not a checkbox: exactly
        one field changes. */
    method HandleInputChange(name: string, value: string)
      modifies this
      ensures formData == old(formData)[name := Scalar(value)]
      ensures currentModule == old(currentModule)
    {
      formData := formData[name := Scalar(value)];
    }

    /** `handleInputChange` for a checkbox; `thrown` when the update
        throws, leaving the form as it was. */
    method HandleCheckboxChange(name: string, value: string, checked: bool) returns (thrown: bool)
      modifies this
      ensures var next := CheckboxValue(if name in old(formData) then Some(old(formData)[name]) else None, value, checked);
              thrown == next.None? &&
              formData == if next.Some? then old(formData)[name := next.value] else old(formData)
      ensures currentModule == old(currentModule)
    {
      var prev := if name in formData then Some(formData[name]) else None;
      var next := CheckboxValue(prev, value, checked);
      thrown := next.None?;
      if next.Some? {
        formData := formData[name := next.value];
      }
    }

    /** `handleSubmit`: `onSubmit(formData)` with the form unchanged. */
    method HandleSubmit() returns (submitted: FormData)
      ensures submitted == formData
    {
      submitted := formData;
    }
  }
}
