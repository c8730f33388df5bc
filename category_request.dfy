/** The bean-validation rules of `CategoryRequest`, the body of create and update calls. */
module CategoryRequestRules {
  import opened Wrappers
  import opened Text
  import opened CategoryEntity

  /** A missing field is `None` (Java null). */
  datatype CategoryRequest = CategoryRequest(name: Option<string>, color: Option<string>, icon: Option<string>)

  predicate IsHexDigit(c: char) {
    '0' <= c <= '9' || 'a' <= c <= 'f' || 'A' <= c <= 'F'
  }

  /** The pattern `^#[0-9A-Fa-f]{6}$`. */
  predicate IsHexColor(s: string) {
    |s| == 7 && s[0] == '#' && forall i :: 1 <= i < 7 ==> IsHexDigit(s[i])
  }

  /** `@NotBlank @Size(min = 1, max = 50)` */
  predicate ValidName(name: Option<string>) {
    name.Some? && !IsBlank(name.value) && 1 <= |name.value| <= 50
  }

  /** `@Pattern` and `@Size(max = 50)` accept null, so both fields are optional. */
  predicate ValidCategoryRequest(r: CategoryRequest) {
    && ValidName(r.name)
    && (r.color.None? || IsHexColor(r.color.value))
    && (r.icon.None? || |r.icon.value| <= 50)
  }

  /** Colour and icon are optional: only the name decides a request without them. */
  lemma OptionalFields(name: Option<string>)
    ensures ValidCategoryRequest(CategoryRequest(name, None, None)) <==> ValidName(name)
  {
  }

  /** A present name is accepted exactly when `trim` leaves something and it has at most 50 chars. */
  lemma NameRule(name: string)
    ensures ValidName(Some(name)) <==> Trim(name) != [] && |name| <= 50
  {
    BlankIffTrimEmpty(name);
  }

  /** The request a category's own fields would make. */
  function AsRequest(c: Category): CategoryRequest {
    CategoryRequest(Some(c.name), Some(c.color), Some(c.icon))
  }

  /** Every default category would also pass the request rules. */
  lemma DefaultsAreValidRequests(owner: int)
    ensures forall i :: 0 <= i < |CreateDefaults(owner)| ==> ValidCategoryRequest(AsRequest(CreateDefaults(owner)[i]))
  {
    var r := CreateDefaults(owner);
    forall i | 0 <= i < 4 ensures ValidCategoryRequest(AsRequest(r[i])) {
      assert !TrimmedChar(r[i].name[0]);
      assert IsHexColor(r[i].color);
    }
  }
}
