/** The input validators of `wakeonlan-cli`, which the prompts run on each
    answer: a text field must not be blank, and an address must parse. */
module CliValidators {
  import opened MacTypes

  /** The outcome a validator reports to the prompt. */
  datatype Validation = Valid | Invalid(message: string)

  /** The boxed error a validator may return instead of an outcome. */
  datatype ValidatorError = ValidatorError(message: string)

  const EMPTY_FIELD_MESSAGE: string := "Field cannot be empty"

  /** Rust's `char::is_whitespace`: the Unicode White_Space property. */
  predicate IsWhitespace(c: char) {
    ('\t' <= c <= '\r') || c == ' ' || c == '\U{85}' || c == '\U{A0}' || c == '\U{1680}'
    || ('\U{2000}' <= c <= '\U{200A}') || c == '\U{2028}' || c == '\U{2029}'
    || c == '\U{202F}' || c == '\U{205F}' || c == '\U{3000}'
  }

  predicate IsBlank(s: string) {
    forall i :: 0 <= i < |s| ==> IsWhitespace(s[i])
  }

  /** `trim_start`: drops leading whitespace only. */
  function TrimStart(s: string): (r: string)
    ensures |r| <= |s| && r == s[|s| - |r|..]
    ensures IsBlank(s[..|s| - |r|])
    ensures r != [] ==> !IsWhitespace(r[0])
  {
    if s != [] && IsWhitespace(s[0]) then TrimStart(s[1..]) else s
  }

  /** `trim_end`: drops trailing whitespace only. */
  function TrimEnd(s: string): (r: string)
    ensures |r| <= |s| && r == s[..|r|]
    ensures IsBlank(s[|r|..])
    ensures r != [] ==> !IsWhitespace(r[|r| - 1])
  {
    if s != [] && IsWhitespace(s[|s| - 1]) then
      var r := TrimEnd(s[..|s| - 1]);
      assert s[|r|..] == s[..|s| - 1][|r|..] + [s[|s| - 1]];
      r
    else s
  }

  /** `str::trim`. */
  function Trim(s: string): (r: string) {
    TrimEnd(TrimStart(s))
  }

  /** The trimmed text is empty exactly when every character is whitespace. */
  lemma TrimEmptyIffBlank(s: string)
    ensures Trim(s) == [] <==> IsBlank(s)
  {
    var t := TrimStart(s);
    if Trim(s) == [] {
      assert IsBlank(t[0..]);
      assert s == s[..|s| - |t|] + t;
    }
    if IsBlank(s) {
      assert t == [];
    }
  }

  /** `validate_text`: never fails; rejects blank input (empty or whitespace
      only) with "Field cannot be empty" and accepts any input holding a
      non-whitespace character. */
  function ValidateText(input: string): (r: Result<Validation, ValidatorError>)
    ensures r.Ok?
    ensures r.value == Invalid(EMPTY_FIELD_MESSAGE) <==> IsBlank(input)
    ensures r.value == Valid <==> exists i :: 0 <= i < |input| && !IsWhitespace(input[i])
  {
    TrimEmptyIffBlank(input);
    if Trim(input) == [] then Ok(Invalid(EMPTY_FIELD_MESSAGE)) else Ok(Valid)
  }

  /** `validate_mac`: never fails; accepts exactly the input the MAC parser
      accepts, and otherwise rejects it with the parse error's message, which
      determines that error. */
  function ValidateMac(input: string, parse: MacParser): (r: Result<Validation, ValidatorError>)
    ensures r.Ok?
    ensures r.value == Valid <==> parse(input).Ok?
    ensures r.value.Invalid? ==> parse(input).Err? && r.value.message == ErrorMessage(parse(input).error)
    ensures r.value.Invalid? ==> forall e :: r.value.message == ErrorMessage(e) ==> e == parse(input).error
  {
    match parse(input)
    case Ok(_) => Ok(Valid)
    case Err(e) =>
      var message := ErrorMessage(e);
      assert forall e' :: message == ErrorMessage(e') ==> e' == e by {
        forall e' | message == ErrorMessage(e') ensures e' == e {
          ErrorMessageInjective(e', e);
        }
      }
      Ok(Invalid(message))
  }
}
