/**
 * The patient body (backend/src/api/schemas/patient.py): an age bounded by the field declaration
 * and again by `validate_age`, and enum fields given by their values with defaults.
 */
module PatientSchemas {
  import opened Wrappers
  import opened Errors
  import opened Consts
  import SessionSchemas

  /** A `PatientCreate` body as sent: `None` for an absent field. */
  datatype PatientCreateBody = PatientCreateBody(age: Option<int>, gender: Option<string>, language: Option<string>)

  datatype PatientCreate = PatientCreate(age: int, gender: Gender, language: Language)

  /** `validate_age`: the age itself when it is within 1..90, otherwise a ValueError (reported as 422). */
  function ValidateAge(v: int): (r: Result<int, HttpError>)
    ensures r.Success? <==> 1 <= v <= 90
    ensures r.Success? ==> r.value == v
    ensures r.Failure? ==> r.error.status == UnprocessableEntity
  {
    if v < 1 || v > 90 then Failure(HttpError(UnprocessableEntity, "Age must be between 1 adn 90"))
    else Success(v)
  }

  /** The field bounds `ge=1, le=90`, which are checked before the validator runs. */
  predicate WithinFieldBounds(v: int) {
    SessionSchemas.MinAge <= v <= SessionSchemas.MaxAge
  }

  /** The validator accepts exactly the ages the field bounds accept, so it never rejects on its own. */
  lemma BoundsAgreeWithValidator(v: int)
    ensures WithinFieldBounds(v) <==> ValidateAge(v).Success?
    ensures WithinFieldBounds(v) ==> ValidateAge(v) == Success(v)
  {
  }

  /** The gender whose value is exactly `s` (enum fields validate by value, case-sensitively). */
  function GenderOfValue(s: string): (r: Option<Gender>)
    ensures r.Some? ==> r.value.Value() == s
    ensures r.None? ==> forall g: Gender :: g.Value() != s
  {
    if s == Male.Value() then Some(Male)
    else if s == Female.Value() then Some(Female)
    else if s == Undisclosed.Value() then Some(Undisclosed)
    else None
  }

  /**
   * Validation of a `PatientCreate` body: the age is required and within the bounds, the gender
   * defaults to FEMALE and the language to ENGLISH, and a given value must name a member.
   */
  function ParsePatientCreate(body: PatientCreateBody): (r: Result<PatientCreate, HttpError>)
    ensures r.Success? <==>
              body.age.Some? && WithinFieldBounds(body.age.value)
              && (body.gender.Some? ==> GenderOfValue(body.gender.value).Some?)
              && (body.language.Some? ==> LanguageOfCode(body.language.value).Some?)
    ensures r.Failure? ==> r.error.status == UnprocessableEntity
    ensures r.Success? ==>
              r.value.age == body.age.value
              && r.value.gender.Value() == body.gender.GetOr(Female.Value())
              && r.value.language.Code() == body.language.GetOr(English.Code())
  {
    if body.age.None? || !WithinFieldBounds(body.age.value) then
      Failure(HttpError(UnprocessableEntity, "age: out of range"))
    else
      var gender := if body.gender.None? then Some(Female) else GenderOfValue(body.gender.value);
      var language := if body.language.None? then Some(English) else LanguageOfCode(body.language.value);
      if gender.None? then Failure(HttpError(UnprocessableEntity, "gender: not a member"))
      else if language.None? then Failure(HttpError(UnprocessableEntity, "language: not a member"))
      else match ValidateAge(body.age.value)
        case Failure(e) => Failure(e)
        case Success(age) => Success(PatientCreate(age, gender.value, language.value))
  }
}
