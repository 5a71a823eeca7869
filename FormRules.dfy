/** The validation rules and the change handler of the course form. A rule
    answers `None` (JavaScript `null`) when the value is accepted and the
    message to show otherwise. */
module FormRules {
  import opened Wrappers
  import opened JsBuiltins

  const NameRequired := "Name is required"
  const InvalidEmail := "Invalid email"
  const CourseRequired := "Select at least one favorite course"

  predicate NoWhitespace(s: string) {
    forall i :: 0 <= i < |s| ==> !IsWhitespace(s[i])
  }

  /** `value.trim() ? null : 'Name is required'`. */
  function NameRule(value: string): (e: Option<string>)
    ensures e == None <==> exists i :: 0 <= i < |value| && !IsWhitespace(value[i])
    ensures e != None ==> e == Some(NameRequired)
  {
    if Trim(value) != "" then None else Some(NameRequired)
  }

  /** The language of /^\S+@\S+$/: one or more non-whitespace characters, an
      '@', one or more non-whitespace characters, and nothing else. */
  ghost predicate MatchesEmailPattern(s: string) {
    exists i :: 0 < i < |s| - 1 && s[i] == '@' && NoWhitespace(s[..i]) && NoWhitespace(s[i + 1..])
  }

  /** The test the rule performs: no whitespace at all, and an '@' that is
      neither the first nor the last character. */
  predicate LooksLikeEmail(s: string) {
    NoWhitespace(s) && |s| > 2 && '@' in s[1..|s| - 1]
  }

  lemma LooksLikeEmailMatches(s: string)
    ensures LooksLikeEmail(s) <==> MatchesEmailPattern(s)
  {
    if LooksLikeEmail(s) {
      var j :| 0 <= j < |s| - 2 && s[1..|s| - 1][j] == '@';
      var i := j + 1;
      assert s[i] == '@';
      assert NoWhitespace(s[..i]) && NoWhitespace(s[i + 1..]) by {
        forall k | 0 <= k < i ensures !IsWhitespace(s[..i][k]) { assert s[..i][k] == s[k]; }
        var rest := s[i + 1..];
        forall k | 0 <= k < |rest| ensures !IsWhitespace(rest[k]) { assert rest[k] == s[i + 1 + k]; }
      }
    }
    if MatchesEmailPattern(s) {
      var i :| 0 < i < |s| - 1 && s[i] == '@' && NoWhitespace(s[..i]) && NoWhitespace(s[i + 1..]);
      assert s[1..|s| - 1][i - 1] == '@';
      forall k | 0 <= k < |s| ensures !IsWhitespace(s[k]) {
        if k < i { assert s[k] == s[..i][k]; }
        else if k > i { assert s[k] == s[i + 1..][k - i - 1]; }
      }
    }
  }

  /** `/^\S+@\S+$/.test(value) ? null : 'Invalid email'`. */
  function EmailRule(value: string): (e: Option<string>)
    ensures e == None <==> MatchesEmailPattern(value)
    ensures e != None ==> e == Some(InvalidEmail)
  {
    LooksLikeEmailMatches(value);
    if LooksLikeEmail(value) then None else Some(InvalidEmail)
  }

  /** `value.length > 0 ? null : 'Select at least one favorite course'`. */
  function CoursesRule(value: seq<string>): (e: Option<string>)
    ensures e == None <==> |value| > 0
    ensures e != None ==> e == Some(CourseRequired)
  {
    if |value| > 0 then None else Some(CourseRequired)
  }

  /** The form's initial values fail all three rules. */
  lemma InitialValuesFailEveryRule()
    ensures NameRule("") == Some(NameRequired)
    ensures EmailRule("") == Some(InvalidEmail)
    ensures CoursesRule([]) == Some(CourseRequired)
  {
    assert !MatchesEmailPattern("");
  }

  /** The fields of the input element that fired the change event. */
  datatype InputTarget = InputTarget(name: string, value: string, inputType: string, checked: bool)

  /** A form field's new value: a checkbox's state, or the input's text. */
  datatype FieldValue = Flag(on: bool) | Entry(text: string)

  /** `handleChange`: the field name and the value passed to `setFieldValue`. */
  function HandleChange(target: InputTarget): (update: (string, FieldValue))
    ensures update.0 == target.name
    ensures update.1.Flag? <==> target.inputType == "checkbox"
    ensures update.1.Flag? ==> update.1.on == target.checked
    ensures update.1.Entry? ==> update.1.text == target.value
  {
    (target.name, if target.inputType == "checkbox" then Flag(target.checked) else Entry(target.value))
  }
}
