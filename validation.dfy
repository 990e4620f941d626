/**
 * Form validation: each field's rules are tried in a fixed order and the first failing rule names the
 * error; a form's errors are collected per ruled field, then the password confirmation is compared.
 * Regular expressions and custom checks are opaque predicates on the value.
 */
module Validation {
  import opened Common

  /** A field's rules. An absent length bound is `None`; the source treats a bound of 0 as absent too. */
  datatype Rule = Rule(
    required: bool,
    minLength: Option<int>,
    maxLength: Option<int>,
    pattern: Option<string -> bool>,
    custom: Option<string -> bool>)

  /** The checks of `validateField`, in the order they are tried. */
  datatype Check = RequiredCheck | MinLengthCheck | MaxLengthCheck | PatternCheck | CustomCheck

  const CheckOrder: seq<Check> := [RequiredCheck, MinLengthCheck, MaxLengthCheck, PatternCheck, CustomCheck]

  /** A length bound that takes part in validation: present and non-zero. */
  predicate ActiveBound(bound: Option<int>) {
    bound.Some? && bound.value != 0
  }

  /** Whether one check, taken on its own, rejects the value. All but `required` skip an empty value. */
  predicate Fails(c: Check, value: string, rules: Rule) {
    match c
    case RequiredCheck => rules.required && IsBlank(value)
    case MinLengthCheck => value != "" && ActiveBound(rules.minLength) && |value| < rules.minLength.value
    case MaxLengthCheck => value != "" && ActiveBound(rules.maxLength) && |value| > rules.maxLength.value
    case PatternCheck => value != "" && rules.pattern.Some? && !rules.pattern.value(value)
    case CustomCheck => value != "" && rules.custom.Some? && !rules.custom.value(value)
  }

  /** The message reported for a failing check; some are translated through `t`, some depend on the field's name. */
  function MessageFor(c: Check, rules: Rule, fieldName: string, t: string -> string): string {
    match c
    case RequiredCheck => t("required")
    case MinLengthCheck =>
      if fieldName == "password" then t("passwordTooShort")
      else "Minimum " + DecimalString(if rules.minLength.Some? then rules.minLength.value else 0) + " characters required"
    case MaxLengthCheck =>
      "Maximum " + DecimalString(if rules.maxLength.Some? then rules.maxLength.value else 0) + " characters allowed"
    case PatternCheck =>
      if fieldName == "email" then t("invalidEmail")
      else if fieldName == "phoneNumber" then t("invalidPhone")
      else "Invalid format"
    case CustomCheck => "Invalid value"
  }

  /** The position of the first check of `checks` that fails; `|checks|` when none does. */
  function FirstFailingIndex(checks: seq<Check>, value: string, rules: Rule): (k: nat)
    ensures k <= |checks|
    ensures forall j :: 0 <= j < k ==> !Fails(checks[j], value, rules)
    ensures k < |checks| ==> Fails(checks[k], value, rules)
  {
    if checks == [] || Fails(checks[0], value, rules) then 0
    else 1 + FirstFailingIndex(checks[1..], value, rules)
  }

  /** The first check, in source order, that rejects the value. */
  function FirstFailing(value: string, rules: Rule): Option<Check> {
    var k := FirstFailingIndex(CheckOrder, value, rules);
    if k < |CheckOrder| then Some(CheckOrder[k]) else None
  }

  /** The first failing check, spelled out along the fixed order. */
  lemma FirstFailingUnrolled(value: string, rules: Rule)
    ensures FirstFailing(value, rules) ==
      if Fails(RequiredCheck, value, rules) then Some(RequiredCheck)
      else if Fails(MinLengthCheck, value, rules) then Some(MinLengthCheck)
      else if Fails(MaxLengthCheck, value, rules) then Some(MaxLengthCheck)
      else if Fails(PatternCheck, value, rules) then Some(PatternCheck)
      else if Fails(CustomCheck, value, rules) then Some(CustomCheck)
      else None
  {
    var k := FirstFailingIndex(CheckOrder, value, rules);
    assert CheckOrder[0] == RequiredCheck && CheckOrder[1] == MinLengthCheck && CheckOrder[2] == MaxLengthCheck;
    assert CheckOrder[3] == PatternCheck && CheckOrder[4] == CustomCheck;
    assert k < 1 || !Fails(CheckOrder[0], value, rules);
    assert k < 2 || !Fails(CheckOrder[1], value, rules);
    assert k < 3 || !Fails(CheckOrder[2], value, rules);
    assert k < 4 || !Fails(CheckOrder[3], value, rules);
    assert k < 5 || !Fails(CheckOrder[4], value, rules);
  }

  /** `validateField`: the chain of early returns, in source order. */
  function ValidateField(value: string, rules: Rule, fieldName: string, t: string -> string): (r: Option<string>)
    ensures r.None? <==> FirstFailing(value, rules).None?
    ensures r.Some? ==> r.value == MessageFor(FirstFailing(value, rules).value, rules, fieldName, t)
  {
    FirstFailingUnrolled(value, rules);
    if rules.required && (value == "" || IsBlank(value)) then
      Some(t("required"))
    else if value != "" && ActiveBound(rules.minLength) && |value| < rules.minLength.value then
      if fieldName == "password" then Some(t("passwordTooShort"))
      else Some("Minimum " + DecimalString(rules.minLength.value) + " characters required")
    else if value != "" && ActiveBound(rules.maxLength) && |value| > rules.maxLength.value then
      Some("Maximum " + DecimalString(rules.maxLength.value) + " characters allowed")
    else if value != "" && rules.pattern.Some? && !rules.pattern.value(value) then
      if fieldName == "email" then Some(t("invalidEmail"))
      else if fieldName == "phoneNumber" then Some(t("invalidPhone"))
      else Some("Invalid format")
    else if value != "" && rules.custom.Some? && !rules.custom.value(value) then
      Some("Invalid value")
    else
      None
  }

  /** A required field holding nothing but white space reports the `required` message, whatever else its rules say. */
  lemma RequiredBlank(value: string, rules: Rule, fieldName: string, t: string -> string)
    requires rules.required && IsBlank(value)
    ensures ValidateField(value, rules, fieldName, t) == Some(t("required"))
  {
  }

  /** An empty value passes every rule set that does not demand it. */
  lemma EmptyPassesUnlessRequired(rules: Rule, fieldName: string, t: string -> string)
    requires !rules.required
    ensures ValidateField("", rules, fieldName, t).None?
  {
  }

  /** A bound of 0 validates exactly like an absent bound. */
  lemma ZeroBoundIgnored(value: string, rules: Rule, fieldName: string, t: string -> string)
    ensures ValidateField(value, rules.(minLength := Some(0)), fieldName, t)
         == ValidateField(value, rules.(minLength := None), fieldName, t)
    ensures ValidateField(value, rules.(maxLength := Some(0)), fieldName, t)
         == ValidateField(value, rules.(maxLength := None), fieldName, t)
  {
  }

  /** Only a password field gets the translated too-short message; other fields get the generic one. */
  lemma MinLengthMessage(value: string, rules: Rule, fieldName: string, t: string -> string)
    requires FirstFailing(value, rules) == Some(MinLengthCheck)
    ensures fieldName == "password" ==> ValidateField(value, rules, fieldName, t) == Some(t("passwordTooShort"))
    ensures fieldName != "password" ==>
      ValidateField(value, rules, fieldName, t) == Some("Minimum " + DecimalString(rules.minLength.value) + " characters required")
  {
  }

  /** The pattern message depends on the field's name: email, phone number, or a generic one. */
  lemma PatternMessage(value: string, rules: Rule, fieldName: string, t: string -> string)
    requires FirstFailing(value, rules) == Some(PatternCheck)
    ensures fieldName == "email" ==> ValidateField(value, rules, fieldName, t) == Some(t("invalidEmail"))
    ensures fieldName == "phoneNumber" ==> ValidateField(value, rules, fieldName, t) == Some(t("invalidPhone"))
    ensures fieldName != "email" && fieldName != "phoneNumber" ==>
      ValidateField(value, rules, fieldName, t) == Some("Invalid format")
  {
  }

  /** `formData[field] || ''`: a missing field is validated as the empty string. */
  function Lookup(formData: map<string, string>, field: string): string {
    if field in formData then formData[field] else ""
  }

  /** The error `validateForm` records for one ruled field: a message, when it is truthy. */
  function FieldError(formData: map<string, string>, rule: Rule, field: string, t: string -> string): (e: Option<string>)
    ensures e.Some? ==> e.value != "" && ValidateField(Lookup(formData, field), rule, field, t) == e
    ensures e.None? <==> FirstFailing(Lookup(formData, field), rule).None?
                         || MessageFor(FirstFailing(Lookup(formData, field), rule).value, rule, field, t) == ""
  {
    var e := ValidateField(Lookup(formData, field), rule, field, t);
    if e.Some? && e.value != "" then e else None
  }

  /** Both passwords were entered and they differ. */
  predicate PasswordsMismatch(formData: map<string, string>)
    ensures PasswordsMismatch(formData) ==> "password" in formData && "confirmPassword" in formData
    ensures PasswordsMismatch(formData) ==> formData["password"] != formData["confirmPassword"]
  {
    var p, c := Lookup(formData, "password"), Lookup(formData, "confirmPassword");
    p != "" && c != "" && p != c
  }

  /** The errors of the ruled fields in `fields`. */
  ghost function FieldErrors(formData: map<string, string>, rules: map<string, Rule>, fields: set<string>, t: string -> string)
    : map<string, string>
  {
    map f | f in fields && f in rules && FieldError(formData, rules[f], f, t).Some? :: FieldError(formData, rules[f], f, t).value
  }

  /** Taking one more ruled field into account records its error, when it has one, and nothing else. */
  lemma FieldErrorsStep(formData: map<string, string>, rules: map<string, Rule>, done: set<string>, f: string,
                        t: string -> string)
    requires f in rules
    ensures var e := FieldError(formData, rules[f], f, t);
      FieldErrors(formData, rules, done + {f}, t)
        == if e.Some? then FieldErrors(formData, rules, done, t)[f := e.value] else FieldErrors(formData, rules, done, t)
  {
  }

  /** `validateForm`: one pass over the ruled fields, then the confirmation patch. */
  method ValidateForm(formData: map<string, string>, rules: map<string, Rule>, t: string -> string)
    returns (errors: map<string, string>)
    ensures forall f {:trigger f in errors} :: f in errors <==>
      (f in rules && FieldError(formData, rules[f], f, t).Some?) || (f == "confirmPassword" && PasswordsMismatch(formData))
    ensures PasswordsMismatch(formData) ==> errors["confirmPassword"] == t("passwordsNotMatch")
    ensures forall f :: f in errors && !(f == "confirmPassword" && PasswordsMismatch(formData)) ==>
      errors[f] == FieldError(formData, rules[f], f, t).value
  {
    errors := map[];
    var remaining := rules.Keys;
    while remaining != {}
      invariant remaining <= rules.Keys
      invariant errors == FieldErrors(formData, rules, rules.Keys - remaining, t)
      decreases remaining
    {
      var f :| f in remaining;
      var e := FieldError(formData, rules[f], f, t);
      FieldErrorsStep(formData, rules, rules.Keys - remaining, f, t);
      if e.Some? {
        errors := errors[f := e.value];
      }
      assert rules.Keys - (remaining - {f}) == (rules.Keys - remaining) + {f};
      remaining := remaining - {f};
    }
    if PasswordsMismatch(formData) {
      errors := errors["confirmPassword" := t("passwordsNotMatch")];
    }
  }
}
