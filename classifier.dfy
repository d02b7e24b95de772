/**
 The login-error outcome classifier: the closed table from error type to the
 literal banner text the login form must show, and the comparison of an
 observed banner against it (`LoginPage.is_login_error_message` once the
 banner has appeared).
 */
module Classifier {
  import opened Wrappers
  import opened LoginErrors

  /** The error banner as the page renders it: whether it is displayed and
      its text. */
  datatype Banner = Banner(displayed: bool, text: string)

  const EmailOrPasswordError := "We don't recognize that email and/or password"
  const RequiredFieldsError := "Please fill in all of the required fields"

  /** The error-type table, in the insertion order of the dictionary it models. */
  const ExpectedErrorMessages: seq<(string, string)> := [
    ("email", EmailOrPasswordError),
    ("password", EmailOrPasswordError),
    ("empty", RequiredFieldsError)
  ]

  /** The three error types the table knows. */
  predicate IsKnownType(errorType: string)
  {
    errorType == "email" || errorType == "password" || errorType == "empty"
  }

  /** The keys of an ordered table, one per row, in order (`dict.keys()` of
      a dictionary whose keys are distinct, as `ExpectedErrorMessages`'s are). */
  function Keys(table: seq<(string, string)>): (ks: seq<string>)
    ensures |ks| == |table|
    ensures forall i :: 0 <= i < |table| ==> ks[i] == table[i].0
    decreases |table|
  {
    if table == [] then [] else [table[0].0] + Keys(table[1..])
  }

  /** `dict.get(key)`: the value in the first row of the table whose key is
      `key`, or nothing; `ExpectedErrorMessages` has one row per key. */
  function Get(table: seq<(string, string)>, key: string): (r: Option<string>)
    ensures r.Some? <==> exists i :: 0 <= i < |table| && table[i].0 == key
    ensures r.Some? ==> exists i :: 0 <= i < |table| && table[i] == (key, r.value) &&
                                    forall j :: 0 <= j < i ==> table[j].0 != key
    decreases |table|
  {
    if table == [] then None
    else if table[0].0 == key then Some(table[0].1)
    else Get(table[1..], key)
  }

  /** Python truthiness of the looked-up value: `None` and `""` are false. */
  predicate Truthy(s: Option<string>)
  {
    s.Some? && s.value != ""
  }

  /** Classify an observed banner against the literal expected for
      `errorType`.  Raises `ErrorTypeNotFound` for a type outside the table
      and `LoginErrorMessageMismatch` unless the banner is displayed and its
      text is exactly the expected literal; never answers false. */
  function Classify(errorType: string, banner: Banner): (r: Result<bool>)
    ensures r != Ok(false)
    ensures r.Ok? ==> banner.displayed
  {
    var expected := Get(ExpectedErrorMessages, errorType);
    if !Truthy(expected) then
      Err(ErrorTypeNotFound(errorType, Keys(ExpectedErrorMessages)))
    else if banner.displayed && banner.text == expected.value then
      Ok(true)
    else
      Err(LoginErrorMessageMismatch(banner.text, expected.value))
  }

  /** The lookup is total on exactly the three known tags: email and password
      share one literal, empty has its own, and every other string is missing. */
  lemma LookupIsTotalOnKnownTypes(errorType: string)
    ensures Get(ExpectedErrorMessages, errorType).Some? <==> IsKnownType(errorType)
    ensures errorType == "email" ==> Get(ExpectedErrorMessages, errorType) == Some(EmailOrPasswordError)
    ensures errorType == "password" ==> Get(ExpectedErrorMessages, errorType) == Some(EmailOrPasswordError)
    ensures errorType == "empty" ==> Get(ExpectedErrorMessages, errorType) == Some(RequiredFieldsError)
    ensures IsKnownType(errorType) ==> Truthy(Get(ExpectedErrorMessages, errorType))
  {
    var t := ExpectedErrorMessages;
    assert t[0].0 == "email" && t[1].0 == "password" && t[2].0 == "empty";
  }

  /** The falsiness test after the lookup rejects exactly the types outside
      the table. */
  lemma FalsinessRejectsExactlyUnknown(errorType: string)
    ensures !Truthy(Get(ExpectedErrorMessages, errorType)) <==> !IsKnownType(errorType)
  {
    LookupIsTotalOnKnownTypes(errorType);
  }

  /** The valid types, as `ErrorTypeNotFound` lists them: email, password,
      empty, in that order. */
  lemma KnownTypesInOrder()
    ensures Keys(ExpectedErrorMessages) == ["email", "password", "empty"]
    ensures Join(Keys(ExpectedErrorMessages), TypeSeparator) == "email, password, empty"
  {
    var t := ExpectedErrorMessages;
    assert Keys(t) == [t[0].0] + Keys(t[1..]);
    assert t[1..] == [t[1], t[2]] && t[1..][1..] == [t[2]];
    JoinOfThree("email", "password", "empty", TypeSeparator);
  }

  /** Joining three parts puts one separator between each neighbouring pair. */
  lemma JoinOfThree(a: string, b: string, c: string, sep: string)
    ensures Join([a, b, c], sep) == a + sep + b + sep + c
  {
    assert [a, b, c][1..] == [b, c];
    assert [b, c][1..] == [c];
    assert Join([c], sep) == c;
    assert Join([b, c], sep) == b + sep + c;
    assert Join([a, b, c], sep) == a + sep + (b + sep + c);
  }

  /** The literal a known type expects. */
  function ExpectedFor(errorType: string): string
    requires IsKnownType(errorType)
  {
    if errorType == "empty" then RequiredFieldsError else EmailOrPasswordError
  }

  /** The classifier accepts exactly a displayed banner whose text equals the
      type's literal: no prefix, substring or hidden-banner match. */
  lemma ClassifyAcceptsExactly(errorType: string, banner: Banner)
    ensures Classify(errorType, banner) == Ok(true) <==>
              IsKnownType(errorType) && banner.displayed && banner.text == ExpectedFor(errorType)
  {
    LookupIsTotalOnKnownTypes(errorType);
  }

  /** An unknown type is rejected with `ErrorTypeNotFound`, carrying that
      type and the valid types in table order. */
  lemma ClassifyRejectsUnknownType(errorType: string, banner: Banner)
    requires !IsKnownType(errorType)
    ensures Classify(errorType, banner) == Err(ErrorTypeNotFound(errorType, ["email", "password", "empty"]))
  {
    LookupIsTotalOnKnownTypes(errorType);
    KnownTypesInOrder();
  }

  /** The text of the exception raised for an unknown type lists the valid
      types as "email, password, empty." after the requested type. */
  lemma UnknownTypeMessage(errorType: string)
    ensures Message(ErrorTypeNotFound(errorType, Keys(ExpectedErrorMessages))) ==
              NotFoundPrefix + errorType + NotFoundInfix + "email, password, empty" + "."
  {
    KnownTypesInOrder();
  }

  /** A known type whose banner does not match yields a mismatch that carries
      the observed text and the expected literal, and no other failure. */
  lemma ClassifyReportsMismatch(errorType: string, banner: Banner)
    requires IsKnownType(errorType)
    requires !(banner.displayed && banner.text == ExpectedFor(errorType))
    ensures Classify(errorType, banner) == Err(LoginErrorMessageMismatch(banner.text, ExpectedFor(errorType)))
    ensures Message(Classify(errorType, banner).error) ==
              "The login error message is unrecognized: " + banner.text + ". Expected: " + ExpectedFor(errorType)
  {
    LookupIsTotalOnKnownTypes(errorType);
  }

  /** A banner that is not displayed never matches, even with the right text. */
  lemma HiddenBannerIsMismatch(errorType: string, text: string)
    requires IsKnownType(errorType)
    ensures Classify(errorType, Banner(false, text)) ==
              Err(LoginErrorMessageMismatch(text, ExpectedFor(errorType)))
  {
    ClassifyReportsMismatch(errorType, Banner(false, text));
  }

  /** A displayed banner showing only a proper prefix of the expected literal
      (a truncated or partly rendered message) is a mismatch. */
  lemma ProperPrefixIsMismatch(errorType: string, banner: Banner)
    requires IsKnownType(errorType)
    requires |banner.text| < |ExpectedFor(errorType)|
    requires banner.text == ExpectedFor(errorType)[..|banner.text|]
    ensures Classify(errorType, banner).Err?
    ensures Classify(errorType, banner).error.LoginErrorMessageMismatch?
  {
    ClassifyReportsMismatch(errorType, banner);
  }
}
