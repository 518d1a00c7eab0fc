/** The additional-information form: four text fields, one change handler
    and a submit that forwards the record only when every field is filled. */
module UserInfoForm {

  datatype UserInfo = UserInfo(gender: string, age: string, birthState: string, currentState: string)

  /** The four inputs, by their `name`. */
  datatype Field = Gender | Age | BirthState | CurrentState

  /** What a submit does: call `onSubmit` with the record, or show an alert. */
  datatype SubmitOutcome = Submitted(info: UserInfo) | Alerted(message: string)

  const MissingFieldsAlert: string := "Por favor, preencha todos os campos."

  function Get(u: UserInfo, f: Field): string {
    match f
    case Gender => u.gender
    case Age => u.age
    case BirthState => u.birthState
    case CurrentState => u.currentState
  }

  /** The form's state before any input: all four fields empty. */
  function InitialInfo(): (u: UserInfo)
    ensures forall f :: Get(u, f) == ""
  {
    UserInfo("", "", "", "")
  }

  /** `handleChange` and `handleSelectChange` (the same spread): the named
      field takes the value, the other three keep theirs. */
  function HandleChange(u: UserInfo, f: Field, value: string): (r: UserInfo)
    ensures Get(r, f) == value
    ensures forall g :: g != f ==> Get(r, g) == Get(u, g)
  {
    match f
    case Gender => u.(gender := value)
    case Age => u.(age := value)
    case BirthState => u.(birthState := value)
    case CurrentState => u.(currentState := value)
  }

  /** `handleSubmit`: `onSubmit` receives the record exactly when all four
      fields are non-empty; otherwise the user is alerted. */
  function HandleSubmit(u: UserInfo): (r: SubmitOutcome)
    ensures r.Submitted? <==> forall f :: Get(u, f) != ""
    ensures r.Submitted? ==> r.info == u
    ensures r.Alerted? ==> r.message == MissingFieldsAlert
  {
    if u.gender != "" && u.age != "" && u.birthState != "" && u.currentState != "" then
      Submitted(u)
    else
      assert !(Get(u, Gender) != "" && Get(u, Age) != "" && Get(u, BirthState) != "" && Get(u, CurrentState) != "");
      Alerted(MissingFieldsAlert)
  }

  /** Submitting the untouched form is rejected. */
  lemma InitialIsRejected()
    ensures HandleSubmit(InitialInfo()).Alerted?
  {
    assert Get(InitialInfo(), Gender) == "";
  }

  /** Filling the four fields with non-empty values, in any order of
      changes, makes the submit go through with exactly those values. */
  lemma FilledFormIsSubmitted(u: UserInfo, f1: Field, f2: Field, f3: Field, f4: Field)
    requires {f1, f2, f3, f4} == {Gender, Age, BirthState, CurrentState}
    requires forall f :: Get(u, f) != ""
    ensures var filled := HandleChange(HandleChange(HandleChange(HandleChange(
              InitialInfo(), f1, Get(u, f1)), f2, Get(u, f2)), f3, Get(u, f3)), f4, Get(u, f4));
            HandleSubmit(filled) == Submitted(u)
  {
    var a := HandleChange(InitialInfo(), f1, Get(u, f1));
    var b := HandleChange(a, f2, Get(u, f2));
    var c := HandleChange(b, f3, Get(u, f3));
    var d := HandleChange(c, f4, Get(u, f4));
    forall f ensures Get(d, f) == Get(u, f) {
      assert f in {f1, f2, f3, f4} by {
        match f
        case Gender => assert Gender in {Gender, Age, BirthState, CurrentState};
        case Age => assert Age in {Gender, Age, BirthState, CurrentState};
        case BirthState => assert BirthState in {Gender, Age, BirthState, CurrentState};
        case CurrentState => assert CurrentState in {Gender, Age, BirthState, CurrentState};
      }
    }
    assert d == UserInfo(Get(d, Gender), Get(d, Age), Get(d, BirthState), Get(d, CurrentState));
  }
}
