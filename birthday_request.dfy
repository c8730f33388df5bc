/** The bean-validation rules of `BirthdayRequest`, the body of create and update calls. */
module BirthdayRequestRules {
  import opened Wrappers
  import opened Text
  import opened Dates

  /** A missing field is `None` (Java null). */
  datatype BirthdayRequest = BirthdayRequest(
    friendName: Option<string>,
    birthDate: Option<Date>,
    friendEmail: Option<string>,
    notes: Option<string>,
    categoryId: Option<int>,
    isActive: Option<bool>)

  /** A freshly deserialised request: every field absent except `isActive`, which starts as true. */
  function EmptyRequest(): (r: BirthdayRequest)
    ensures r.isActive == Some(true)
    ensures r.friendName.None? && r.birthDate.None? && r.friendEmail.None? && r.notes.None? && r.categoryId.None?
  {
    BirthdayRequest(None, None, None, None, None, Some(true))
  }

  /**
   * `@NotBlank @Size(min = 1, max = 100)` on the name, `@NotNull` on the date
   * (which `LocalDate` only holds when it is a real calendar date) and
   * `@Size(max = 500)` on the notes; the category id is unconstrained.
   */
  predicate ValidBirthdayRequest(r: BirthdayRequest) {
    && r.friendName.Some? && !IsBlank(r.friendName.value) && 1 <= |r.friendName.value| <= 100
    && r.birthDate.Some? && Dates.Valid(r.birthDate.value)
    && (r.notes.None? || |r.notes.value| <= 500)
  }

  /** The defaults alone never make a valid request: name and date are required. */
  lemma RequiredFields(r: BirthdayRequest)
    ensures r.friendName.None? || r.birthDate.None? ==> !ValidBirthdayRequest(r)
    ensures !ValidBirthdayRequest(EmptyRequest())
  {
  }

  /** The category id and the active flag never decide validity. */
  lemma CategoryAndActiveUnconstrained(r: BirthdayRequest, c: Option<int>, a: Option<bool>)
    ensures ValidBirthdayRequest(r) <==> ValidBirthdayRequest(r.(categoryId := c, isActive := a))
  {
  }

  /** A name `trim` does not empty, a real date and short notes make a valid request. */
  lemma AcceptedRequest(name: string, d: Date, notes: Option<string>)
    requires |name| <= 100 && Trim(name) != []
    requires Dates.Valid(d) && (notes.None? || |notes.value| <= 500)
    ensures ValidBirthdayRequest(EmptyRequest().(friendName := Some(name), birthDate := Some(d), notes := notes))
  {
    BlankIffTrimEmpty(name);
  }
}
