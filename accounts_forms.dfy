/** The sign-up form's own check on top of the framework's user-creation form. */
module AccountsForms {
  import opened Wrappers

  /** The form's cleaned data: field name to cleaned text. */
  type CleanedData = map<string, string>

  datatype FormError = NameMissing

  /** Python truthiness of `cleaned_data.get(field)`: present and not empty. */
  predicate Given(data: CleanedData, field: string) {
    field in data && data[field] != ""
  }

  /**
   * `MyUserCreationForm.clean`: a sign-up must give a first or a last name;
   * otherwise the form is rejected, and when it is accepted the cleaned data
   * is handed back untouched.
   */
  function CleanSignUp(data: CleanedData): (r: Result<CleanedData, FormError>)
    ensures r.Failure? <==> ("first_name" !in data || data["first_name"] == "")
                            && ("last_name" !in data || data["last_name"] == "")
    ensures r.Success? ==> r.value == data
  {
    if !(Given(data, "first_name") || Given(data, "last_name")) then Failure(NameMissing)
    else Success(data)
  }

  lemma AcceptsWithFirstName(data: CleanedData)
    requires "first_name" in data && data["first_name"] != ""
    ensures CleanSignUp(data) == Success(data)
  {
  }

  lemma AcceptsWithLastName(data: CleanedData)
    requires "last_name" in data && data["last_name"] != ""
    ensures CleanSignUp(data) == Success(data)
  {
  }
}
