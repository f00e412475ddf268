/**
 * The student profile form (src/pages/Student.tsx): nine text fields that
 * event handlers update one at a time, a preset and a free-text choice for
 * interest and for goal that exclude each other, the guard that enables the
 * submit button, and the record that `submitProfile` stores.
 */
module StudentForm {
  import opened JsText
  import opened FakeEngine

  const EducationLevels: seq<string> := ["school", "undergraduate", "graduate"]
  const PresetInterests: seq<string> := ["Technology", "Medical", "Business", "Arts"]
  const PresetGoals: seq<string> := ["Software Engineer", "Doctor", "Data Scientist"]

  /** The values of the form's `useState` fields. */
  datatype FormFields = FormFields(
    name: string,
    age: string,
    education: string,
    interest: string,
    customInterest: string,
    goal: string,
    customGoal: string,
    hobbies: string,
    location: string)

  const EmptyForm := FormFields("", "", "", "", "", "", "", "", "")

  /** What the form can hold: at most one of each preset/custom pair is set, and a known education level. */
  predicate Consistent(f: FormFields)
  {
    && (f.interest == "" || f.customInterest == "")
    && (f.goal == "" || f.customGoal == "")
    && (f.education == "" || f.education in EducationLevels)
  }

  /** The `disabled` test of the submit button, negated: hobbies are optional. */
  predicate CanSubmit(f: FormFields)
  {
    && f.name != ""
    && f.age != ""
    && f.education != ""
    && (f.interest != "" || f.customInterest != "")
    && (f.goal != "" || f.customGoal != "")
    && f.location != ""
  }

  /** `custom || preset`: a typed value wins over a chosen preset. */
  function Chosen(custom: string, preset: string): (r: string)
    ensures r == "" <==> custom == "" && preset == ""
    ensures r == custom || r == preset
    ensures custom != "" ==> r == custom
  {
    if custom != "" then custom else preset
  }

  /** The record `submitProfile` stores under "studentProfile". */
  function SavedProfile(f: FormFields): (p: Profile)
    ensures p.Keys == {"name", "age", "education", "interest", "goal", "hobbies", "location"}
    ensures Field(p, "interest") == Chosen(f.customInterest, f.interest)
    ensures Field(p, "goal") == Chosen(f.customGoal, f.goal)
    ensures Field(p, "name") == f.name && Field(p, "age") == f.age && Field(p, "education") == f.education
    ensures Field(p, "hobbies") == f.hobbies && Field(p, "location") == f.location
  {
    map[
      "name" := f.name,
      "age" := f.age,
      "education" := f.education,
      "interest" := Chosen(f.customInterest, f.interest),
      "goal" := Chosen(f.customGoal, f.goal),
      "hobbies" := f.hobbies,
      "location" := f.location]
  }

  /** Everything `submitProfile` writes: the profile and the two keys stored beside it. */
  datatype Submission = Submission(profile: Profile, studentAge: string, studentEducation: string)

  /**
   * The button is enabled exactly when the saved record has every field
   * but the hobbies filled in.
   */
  lemma SubmitEnabledIffRequiredSaved(f: FormFields)
    ensures var p := SavedProfile(f);
      CanSubmit(f) <==>
        && Field(p, "name") != "" && Field(p, "age") != "" && Field(p, "education") != ""
        && Field(p, "interest") != "" && Field(p, "goal") != "" && Field(p, "location") != ""
  {
  }

  /** Under the form's invariant no choice is lost: the saved interest is whichever of the two is set. */
  lemma SavedChoiceUnderExclusion(f: FormFields)
    requires Consistent(f)
    ensures Field(SavedProfile(f), "interest") == f.interest + f.customInterest
    ensures Field(SavedProfile(f), "goal") == f.goal + f.customGoal
  {
    if f.interest == "" { assert f.interest + f.customInterest == f.customInterest; }
    else { assert f.interest + f.customInterest == f.interest; }
    if f.goal == "" { assert f.goal + f.customGoal == f.customGoal; }
    else { assert f.goal + f.customGoal == f.goal; }
  }

  /** Choosing the "Technology" preset and submitting leads the engine to the Technology list. */
  lemma TechnologyPresetLeadsToTechnologyList(f: FormFields)
    requires f.interest == "Technology" && f.customInterest == ""
    ensures FakeCareerEngine(SavedProfile(f)).careers == TechnologyCareers
  {
    assert OccursAt("Technology", "Technology", 0);
  }

  /** The form, as React holds it: one field per `useState`. */
  class ProfileForm {
    var name: string
    var age: string
    var education: string
    var interest: string
    var customInterest: string
    var goal: string
    var customGoal: string
    var hobbies: string
    var location: string

    function Fields(): (f: FormFields)
      reads this
    {
      FormFields(name, age, education, interest, customInterest, goal, customGoal, hobbies, location)
    }

    predicate Valid()
      reads this
    {
      Consistent(Fields())
    }

    constructor ()
      ensures Fields() == EmptyForm
      ensures Valid()
    {
      name, age, education := "", "", "";
      interest, customInterest, goal, customGoal := "", "", "", "";
      hobbies, location := "", "";
    }

    method SetName(value: string)
      requires Valid()
      modifies this
      ensures Fields() == old(Fields()).(name := value)
      ensures Valid()
    {
      name := value;
    }

    method SetAge(value: string)
      requires Valid()
      modifies this
      ensures Fields() == old(Fields()).(age := value)
      ensures Valid()
    {
      age := value;
    }

    /** One of the three education buttons. */
    method ChooseEducation(level: string)
      requires Valid()
      requires level in EducationLevels
      modifies this
      ensures Fields() == old(Fields()).(education := level)
      ensures Valid()
    {
      education := level;
    }

    /** One of the preset interest buttons: it sets the interest and clears the typed one. */
    method ChoosePresetInterest(item: string)
      requires Valid()
      requires item in PresetInterests
      modifies this
      ensures Fields() == old(Fields()).(interest := item, customInterest := "")
      ensures Valid()
    {
      interest := item;
      customInterest := "";
    }

    /** Typing in the "Other Interest" box: it sets the typed interest and clears the preset. */
    method TypeCustomInterest(value: string)
      requires Valid()
      modifies this
      ensures Fields() == old(Fields()).(interest := "", customInterest := value)
      ensures Valid()
    {
      customInterest := value;
      interest := "";
    }

    method ChoosePresetGoal(item: string)
      requires Valid()
      requires item in PresetGoals
      modifies this
      ensures Fields() == old(Fields()).(goal := item, customGoal := "")
      ensures Valid()
    {
      goal := item;
      customGoal := "";
    }

    method TypeCustomGoal(value: string)
      requires Valid()
      modifies this
      ensures Fields() == old(Fields()).(goal := "", customGoal := value)
      ensures Valid()
    {
      customGoal := value;
      goal := "";
    }

    method SetHobbies(value: string)
      requires Valid()
      modifies this
      ensures Fields() == old(Fields()).(hobbies := value)
      ensures Valid()
    {
      hobbies := value;
    }

    method SetLocation(value: string)
      requires Valid()
      modifies this
      ensures Fields() == old(Fields()).(location := value)
      ensures Valid()
    {
      location := value;
    }

    /** `submitProfile`, reachable only through the enabled button; the storage writes become the result. */
    method SubmitProfile() returns (s: Submission)
      requires Valid()
      requires CanSubmit(Fields())
      ensures s.profile == SavedProfile(Fields())
      ensures Field(s.profile, "interest") == interest + customInterest && Field(s.profile, "interest") != ""
      ensures Field(s.profile, "goal") == goal + customGoal && Field(s.profile, "goal") != ""
      ensures s.studentAge == Field(s.profile, "age") && s.studentEducation == Field(s.profile, "education")
    {
      SavedChoiceUnderExclusion(Fields());
      var profile := map[
        "name" := name,
        "age" := age,
        "education" := education,
        "interest" := if customInterest != "" then customInterest else interest,
        "goal" := if customGoal != "" then customGoal else goal,
        "hobbies" := hobbies,
        "location" := location];
      s := Submission(profile, age, education);
    }
  }
}
