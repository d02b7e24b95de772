/**
 The failure taxonomy of the login test harness: the five exception classes it
 raises, the Selenium exceptions it catches, and the diagnostic text each
 exception's `__str__` produces.
 */
module LoginErrors {

  /** A Selenium exception caught or propagated by a page object.  `text`
      stands for the exception's own string form, which Selenium builds and
      which is not part of this model. */
  datatype Cause =
    | WebDriverException(text: string)
    | TimeoutException(text: string)

  /** The exceptions a page-object operation can end with.  `Uncaught` is a
      Selenium exception that reaches the caller unwrapped, because the
      operation that raised it has no handler. */
  datatype Failure =
    | LoginErrorMessageMismatch(errorMsg: string, expectedErrorMessage: string)
    | ErrorTypeNotFound(errorType: string, expectedErrorMessages: seq<string>)
    | CheckLoginStatusError(originalException: Cause)
    | LoginError(originalException: Cause)
    | LogoutError(originalException: Cause)
    | Uncaught(originalException: Cause)

  /** The value an operation returns, or the exception it raises. */
  datatype Result<T> = Ok(value: T) | Err(error: Failure)

  const MismatchPrefix := "The login error message is unrecognized: "
  const MismatchInfix := ". Expected: "
  const NotFoundPrefix := "The error message type is not found: "
  const NotFoundInfix := ". Use one of the following types: "
  const TypeSeparator := ", "
  const CheckStatusPrefix := "An error occurred while checking the login status: "
  const LoginPrefix := "An error occurred during login: "
  const LogoutPrefix := "An error occurred during logout: "

  /** Python's `sep.join(parts)`: as long as its parts plus one separator
      between each neighbouring pair. */
  function Join(parts: seq<string>, sep: string): (r: string)
    ensures parts != [] ==> |r| == TotalLength(parts) + (|parts| - 1) * |sep|
    decreases |parts|
  {
    if |parts| == 0 then ""
    else if |parts| == 1 then parts[0]
    else
      assert (|parts| - 1) * |sep| == |sep| + (|parts| - 2) * |sep|;
      parts[0] + sep + Join(parts[1..], sep)
  }

  /** Sum of the lengths of `parts`. */
  function TotalLength(parts: seq<string>): nat
    decreases |parts|
  {
    if parts == [] then 0 else |parts[0]| + TotalLength(parts[1..])
  }

  /** Where `parts[i]` starts inside `Join(parts, sep)`. */
  function JoinOffset(parts: seq<string>, sep: string, i: nat): nat
    requires i <= |parts|
  {
    TotalLength(parts[..i]) + i * |sep|
  }

  /** The string form of each exception (its `__str__`).  A Selenium
      exception that reaches the caller unwrapped shows its own text; each
      wrapper adds wording to its cause's text. */
  function Message(f: Failure): (r: string)
    ensures f.Uncaught? ==> r == f.originalException.text
    ensures (f.LoginError? || f.LogoutError? || f.CheckLoginStatusError?) ==>
              |f.originalException.text| < |r|
  {
    match f
    case LoginErrorMessageMismatch(observed, expected) =>
      MismatchPrefix + observed + MismatchInfix + expected
    case ErrorTypeNotFound(errorType, types) =>
      NotFoundPrefix + errorType + NotFoundInfix + Join(types, TypeSeparator) + "."
    case CheckLoginStatusError(cause) => CheckStatusPrefix + cause.text + "."
    case LoginError(cause) => LoginPrefix + cause.text
    case LogoutError(cause) => LogoutPrefix + cause.text
    case Uncaught(cause) => cause.text
  }

  /** Past the first part and separator, offsets into a join are offsets
      into the join of the remaining parts. */
  lemma JoinOffsetStep(parts: seq<string>, sep: string, i: nat)
    requires 0 < i <= |parts|
    ensures JoinOffset(parts, sep, i) == |parts[0]| + |sep| + JoinOffset(parts[1..], sep, i - 1)
  {
    assert parts[..i] == [parts[0]] + parts[1..][..i - 1];
    assert TotalLength(parts[..i]) == |parts[0]| + TotalLength(parts[1..][..i - 1]);
    assert i * |sep| == |sep| + (i - 1) * |sep|;
  }

  /** Every part appears, unchanged, at its offset in the joined string. */
  lemma {:induction false} JoinEmbedsParts(parts: seq<string>, sep: string, i: nat)
    requires i < |parts|
    ensures JoinOffset(parts, sep, i) + |parts[i]| <= |Join(parts, sep)|
    ensures Join(parts, sep)[JoinOffset(parts, sep, i)..JoinOffset(parts, sep, i) + |parts[i]|] == parts[i]
  {
    var j := Join(parts, sep);
    if i == 0 {
      assert parts[..0] == [];
      if |parts| > 1 {
        assert j == parts[0] + (sep + Join(parts[1..], sep));
      }
    } else {
      var rest := parts[1..];
      var head := parts[0] + sep;
      JoinEmbedsParts(rest, sep, i - 1);
      JoinOffsetStep(parts, sep, i);
      assert j == head + Join(rest, sep);
      var k := JoinOffset(rest, sep, i - 1);
      assert rest[i - 1] == parts[i];
      assert j[|head| + k..|head| + k + |parts[i]|] == Join(rest, sep)[k..k + |parts[i]|];
    }
  }

  /** Every part but the last is followed by the separator. */
  lemma {:induction false} JoinSeparatesParts(parts: seq<string>, sep: string, i: nat)
    requires i + 1 < |parts|
    ensures JoinOffset(parts, sep, i) + |parts[i]| + |sep| <= |Join(parts, sep)|
    ensures Join(parts, sep)[JoinOffset(parts, sep, i) + |parts[i]|..JoinOffset(parts, sep, i) + |parts[i]| + |sep|] == sep
  {
    var j := Join(parts, sep);
    var rest := parts[1..];
    var head := parts[0] + sep;
    assert j == head + Join(rest, sep);
    if i == 0 {
      assert parts[..0] == [];
      assert j[|parts[0]|..|parts[0]| + |sep|] == sep;
    } else {
      JoinSeparatesParts(rest, sep, i - 1);
      JoinOffsetStep(parts, sep, i);
      var e := JoinOffset(rest, sep, i - 1) + |parts[i]|;
      assert rest[i - 1] == parts[i];
      assert j[|head| + e..|head| + e + |sep|] == Join(rest, sep)[e..e + |sep|];
    }
  }

  /** The mismatch text can be taken apart again: the observed banner text and
      the expected literal sit at fixed offsets, between fixed wording. */
  lemma MismatchMessageDecodes(observed: string, expected: string)
    ensures var m := Message(LoginErrorMessageMismatch(observed, expected));
            var k := |MismatchPrefix| + |observed|;
            && |m| == k + |MismatchInfix| + |expected|
            && m[..|MismatchPrefix|] == MismatchPrefix
            && m[|MismatchPrefix|..k] == observed
            && m[k..k + |MismatchInfix|] == MismatchInfix
            && m[k + |MismatchInfix|..] == expected
  {
  }

  /** The type-not-found text names the requested type and then lists every
      valid type, each at its place in the comma-separated list. */
  lemma TypeNotFoundMessageListsTypes(errorType: string, types: seq<string>, i: nat)
    requires i < |types|
    ensures var m := Message(ErrorTypeNotFound(errorType, types));
            var start := |NotFoundPrefix| + |errorType| + |NotFoundInfix| + JoinOffset(types, TypeSeparator, i);
            && start + |types[i]| < |m|
            && m[|NotFoundPrefix|..|NotFoundPrefix| + |errorType|] == errorType
            && m[start..start + |types[i]|] == types[i]
            && m[|m| - 1] == '.'
  {
    var j := Join(types, TypeSeparator);
    assert Message(ErrorTypeNotFound(errorType, types)) == NotFoundPrefix + errorType + NotFoundInfix + j + ".";
    JoinEmbedsParts(types, TypeSeparator, i);
    var off := JoinOffset(types, TypeSeparator, i);
    Layout(NotFoundPrefix, errorType, NotFoundInfix, Join(types, TypeSeparator), off, off + |types[i]|);
  }

  /** Where the pieces of `p + t + q + j + "."` sit. */
  lemma Layout(p: string, t: string, q: string, j: string, lo: nat, hi: nat)
    requires lo <= hi <= |j|
    ensures var m := p + t + q + j + ".";
            && m[|p|..|p| + |t|] == t
            && |p| + |t| + |q| + hi < |m|
            && m[|p| + |t| + |q| + lo..|p| + |t| + |q| + hi] == j[lo..hi]
            && m[|m| - 1] == '.'
  {
  }

  /** A wrapper exception's text is a prefix fixed by the wrapper kind,
      followed by its cause's text (and, for the login-status check, a final
      full stop); the cause's text can be read back after the prefix. */
  lemma WrapperMessagesEmbedCause(cause: Cause)
    ensures var m := Message(LoginError(cause));
            && |m| == |LoginPrefix| + |cause.text|
            && m[..|LoginPrefix|] == LoginPrefix
            && m[|LoginPrefix|..] == cause.text
    ensures var m := Message(LogoutError(cause));
            && |m| == |LogoutPrefix| + |cause.text|
            && m[..|LogoutPrefix|] == LogoutPrefix
            && m[|LogoutPrefix|..] == cause.text
    ensures var m := Message(CheckLoginStatusError(cause));
            && |m| == |CheckStatusPrefix| + |cause.text| + 1
            && m[..|CheckStatusPrefix|] == CheckStatusPrefix
            && m[|CheckStatusPrefix|..|m| - 1] == cause.text
            && m[|m| - 1] == '.'
  {
  }

  /** The fixed wording of the type-not-found text: it opens with its
      prefix, the infix follows the requested type, and a separator follows
      every listed type but the last. */
  lemma TypeNotFoundMessageWording(errorType: string, types: seq<string>, i: nat)
    requires i + 1 < |types|
    ensures var m := Message(ErrorTypeNotFound(errorType, types));
            var b := |NotFoundPrefix| + |errorType|;
            var s := b + |NotFoundInfix| + JoinOffset(types, TypeSeparator, i) + |types[i]|;
            && s + |TypeSeparator| < |m|
            && m[..|NotFoundPrefix|] == NotFoundPrefix
            && m[b..b + |NotFoundInfix|] == NotFoundInfix
            && m[s..s + |TypeSeparator|] == TypeSeparator
  {
    var j := Join(types, TypeSeparator);
    assert Message(ErrorTypeNotFound(errorType, types)) == NotFoundPrefix + errorType + NotFoundInfix + j + ".";
    JoinSeparatesParts(types, TypeSeparator, i);
    var lo := JoinOffset(types, TypeSeparator, i) + |types[i]|;
    Wording(NotFoundPrefix, errorType, NotFoundInfix, j, lo, lo + |TypeSeparator|);
  }

  /** The fixed pieces of `p + t + q + j + "."`. */
  lemma Wording(p: string, t: string, q: string, j: string, lo: nat, hi: nat)
    requires lo <= hi <= |j|
    ensures var m := p + t + q + j + ".";
            && m[..|p|] == p
            && m[|p| + |t|..|p| + |t| + |q|] == q
            && |p| + |t| + |q| + hi < |m|
            && m[|p| + |t| + |q| + lo..|p| + |t| + |q| + hi] == j[lo..hi]
  {
  }

  /** The three wrapper kinds never produce the same text, whatever their
      causes: a reader can tell login, logout and login-status failures apart. */
  lemma WrapperKindsAreDistinguishable(c1: Cause, c2: Cause)
    ensures Message(LoginError(c1)) != Message(LogoutError(c2))
    ensures Message(CheckLoginStatusError(c1)) != Message(LoginError(c2))
    ensures Message(CheckLoginStatusError(c1)) != Message(LogoutError(c2))
  {
    // Index 28 is where "during login" and "during logout" first differ
    // ('i' against 'o'); index 18 is where "occurred while" and
    // "occurred during" first differ ('w' against 'd').
    assert Message(LoginError(c1))[28] == 'i';
    assert Message(LogoutError(c2))[28] == 'o';
    assert Message(CheckLoginStatusError(c1))[18] == 'w';
    assert Message(LoginError(c2))[18] == 'd';
    assert Message(LogoutError(c2))[18] == 'd';
  }
}
