/**
 What the page-object operations promise, stated on the functions that
 specify them: the fixed step order, that the first Selenium exception ends
 an operation, which exception kind it becomes, and that no operation
 answers false.
 */
module PageProperties {
  import opened LoginErrors
  import opened Classifier
  import opened Steps
  import opened Pages

  /** The prefix of the answers that a block of `n` steps succeeds on. */
  predicate FirstStepsSucceed(pending: seq<StepResult>, n: nat)
  {
    forall i :: 0 <= i < n ==> ResponseAt(pending, i).StepOk?
  }

  // ---------------------------------------------------------------------
  // LoginPage.login

  /** `login` always starts with the title wait and then performs a prefix
      of: title wait, enter email, enter password, click; one browser answer
      is consumed per step performed. */
  lemma LoginRunsStepsInOrder(email: string, password: string, pending: seq<StepResult>)
    ensures var e := LoginSpec(email, password, pending);
            && 1 <= |e.ran| <= 4
            && e.ran == LoginSteps(email, password)[..|e.ran|]
            && e.ran[0] == WaitTitleIs("Log In")
            && e.left == Drop(pending, |e.ran|)
  {
    RunStepsShape(LoginSteps(email, password), pending);
  }

  /** `login` completes (returning nothing) exactly when all four steps
      succeed, and then has performed all four. */
  lemma LoginSucceedsIff(email: string, password: string, pending: seq<StepResult>)
    ensures LoginSpec(email, password, pending).result == Ok(()) <==> FirstStepsSucceed(pending, 4)
    ensures LoginSpec(email, password, pending).result.Ok? ==>
              LoginSpec(email, password, pending).ran == LoginSteps(email, password)
  {
    RunStepsShape(LoginSteps(email, password), pending);
    RunStepsSucceedsIff(LoginSteps(email, password), pending);
  }

  /** If step `k` is the first to fail, `login` raises `LoginError` wrapping
      that step's exception, and no step after `k` runs. */
  lemma LoginStopsAtFirstFailure(email: string, password: string, pending: seq<StepResult>, k: nat)
    requires k < 4
    requires ResponseAt(pending, k).StepFail?
    requires FirstStepsSucceed(pending, k)
    ensures LoginSpec(email, password, pending).result == Err(LoginError(ResponseAt(pending, k).cause))
    ensures LoginSpec(email, password, pending).ran == LoginSteps(email, password)[..k + 1]
  {
    var steps := LoginSteps(email, password);
    var run := RunSteps(steps, pending);
    RunStepsShape(steps, pending);
  }

  /** Every exception `login` raises is a `LoginError`: a Selenium failure
      is never passed through unwrapped. */
  lemma LoginOnlyRaisesLoginError(email: string, password: string, pending: seq<StepResult>)
    ensures var r := LoginSpec(email, password, pending).result;
            r.Err? ==> r.error.LoginError? &&
                       exists i :: 0 <= i < 4 && ResponseAt(pending, i) == StepFail(r.error.originalException)
  {
    var e := LoginSpec(email, password, pending);
    RunStepsShape(LoginSteps(email, password), pending);
    if e.result.Err? {
      assert ResponseAt(pending, |e.ran| - 1) == StepFail(e.result.error.originalException);
    }
  }

  // ---------------------------------------------------------------------
  // LoginPage.is_login_error_message

  /** The classifier first waits for the banner, whatever the error type;
      a failed wait surfaces unwrapped, and once the banner has appeared
      the result is exactly the classification of the banner. */
  lemma CheckWaitsForBannerFirst(errorType: string, pending: seq<StepResult>, banner: Banner)
    ensures var e := IsLoginErrorMessageSpec(errorType, pending, banner);
            && e.ran == [WaitVisible(ErrorBanner)]
            && e.left == Rest(pending)
            && (Respond(pending).StepFail? ==> e.result == Err(Uncaught(Respond(pending).cause)))
            && (Respond(pending).StepOk? ==> e.result == Classify(errorType, banner))
  {
    RunSingle(WaitVisible(ErrorBanner), pending);
  }

  /** An unknown error type is reported only after the banner appeared; if
      the banner never appears the caller sees the wait's exception instead. */
  lemma UnknownTypeReportedAfterBanner(errorType: string, pending: seq<StepResult>, banner: Banner)
    requires !IsKnownType(errorType)
    ensures var r := IsLoginErrorMessageSpec(errorType, pending, banner).result;
            && (Respond(pending).StepOk? ==>
                  r == Err(ErrorTypeNotFound(errorType, ["email", "password", "empty"])))
            && (Respond(pending).StepFail? ==> r == Err(Uncaught(Respond(pending).cause)))
  {
    CheckWaitsForBannerFirst(errorType, pending, banner);
    ClassifyRejectsUnknownType(errorType, banner);
  }

  /** The classifier answers true or raises; it never answers false. */
  lemma CheckNeverAnswersFalse(errorType: string, pending: seq<StepResult>, banner: Banner)
    ensures IsLoginErrorMessageSpec(errorType, pending, banner).result != Ok(false)
    ensures IsLoginErrorMessageSpec(errorType, pending, banner).result == Ok(true) <==>
              Respond(pending).StepOk? && IsKnownType(errorType) && banner.displayed &&
              banner.text == ExpectedFor(errorType)
  {
    CheckWaitsForBannerFirst(errorType, pending, banner);
    ClassifyAcceptsExactly(errorType, banner);
  }

  // ---------------------------------------------------------------------
  // LoginPage.login_and_check_error

  /** `login_and_check_error` opens the login URL first; a failure there
      surfaces unwrapped and nothing else runs. */
  lemma LoginAndCheckErrorNavigatesFirst(config: Config, email: string, password: string,
                                         errorType: string, pending: seq<StepResult>, banner: Banner)
    ensures var e := LoginAndCheckErrorSpec(config, email, password, errorType, pending, banner);
            && |e.ran| >= 1 && e.ran[0] == Get(config.loginUrl)
            && (Respond(pending).StepFail? ==>
                  e.result == Err(Uncaught(Respond(pending).cause)) && e.ran == [Get(config.loginUrl)])
  {
  }

  /** A `LoginError` from `login` ends `login_and_check_error`: the banner
      is never waited for and the error reaches the caller as raised. */
  lemma LoginFailureSkipsClassifier(config: Config, email: string, password: string,
                                    errorType: string, pending: seq<StepResult>, banner: Banner)
    requires Respond(pending).StepOk?
    requires LoginSpec(email, password, Rest(pending)).result.Err?
    ensures var e := LoginAndCheckErrorSpec(config, email, password, errorType, pending, banner);
            && e.result == Err(LoginSpec(email, password, Rest(pending)).result.error)
            && e.result.error.LoginError?
            && WaitVisible(ErrorBanner) !in e.ran
  {
    RunSingle(Get(config.loginUrl), pending);
    LoginOnlyRaisesLoginError(email, password, Rest(pending));
    LoginRunsStepsInOrder(email, password, Rest(pending));
    var l := LoginSpec(email, password, Rest(pending));
    assert forall i :: 0 <= i < |l.ran| ==> l.ran[i] == LoginSteps(email, password)[i];
  }

  /** Once navigation and login have succeeded, the result is exactly the
      classifier's, and the steps performed are navigation, the four login
      steps and the banner wait, in that order. */
  lemma LoginAndCheckErrorReturnsClassifier(config: Config, email: string, password: string,
                                            errorType: string, pending: seq<StepResult>, banner: Banner)
    requires FirstStepsSucceed(pending, 5)
    ensures var e := LoginAndCheckErrorSpec(config, email, password, errorType, pending, banner);
            && e.result == IsLoginErrorMessageSpec(errorType, Drop(pending, 5), banner).result
            && e.ran == [Get(config.loginUrl)] + LoginSteps(email, password) + [WaitVisible(ErrorBanner)]
  {
    RunSingle(Get(config.loginUrl), pending);
    assert Respond(pending) == ResponseAt(pending, 0);
    var rest := Rest(pending);
    assert forall i: nat :: ResponseAt(rest, i) == ResponseAt(pending, i + 1);
    assert FirstStepsSucceed(rest, 4) by {
      forall i | 0 <= i < 4 ensures ResponseAt(rest, i).StepOk? {
        assert ResponseAt(pending, i + 1).StepOk?;
      }
    }
    LoginSucceedsIff(email, password, rest);
    LoginRunsStepsInOrder(email, password, rest);
    assert Drop(rest, 4) == Drop(pending, 5);
    var login := LoginSpec(email, password, rest);
    assert login.result == Ok(()) && login.ran == LoginSteps(email, password);
    assert login.left == Drop(pending, 5);
    CheckWaitsForBannerFirst(errorType, Drop(pending, 5), banner);
  }

  /** `login_and_check_error` answers true or raises; it never answers false. */
  lemma LoginAndCheckErrorNeverAnswersFalse(config: Config, email: string, password: string,
                                            errorType: string, pending: seq<StepResult>, banner: Banner)
    ensures LoginAndCheckErrorSpec(config, email, password, errorType, pending, banner).result != Ok(false)
  {
  }

  /** The empty-credentials scenario: when every step succeeds and the
      banner shows the required-fields literal, the check answers true. */
  lemma EmptyCredentialsScenario(config: Config)
    ensures LoginAndCheckErrorSpec(config, "", "", "empty", [], Banner(true, RequiredFieldsError)).result == Ok(true)
  {
    LoginAndCheckErrorReturnsClassifier(config, "", "", "empty", [], Banner(true, RequiredFieldsError));
    CheckNeverAnswersFalse("empty", Drop([], 5), Banner(true, RequiredFieldsError));
  }

  // ---------------------------------------------------------------------
  // HomePage.is_logged_in and HomePage.logout

  /** `is_logged_in` waits for the logout control; it answers true when the
      control appears and otherwise raises `CheckLoginStatusError` with the
      wait's exception; it never answers false. */
  lemma IsLoggedInNeverSwallowsFailure(pending: seq<StepResult>)
    ensures var e := IsLoggedInSpec(pending);
            && e.ran == [WaitPresent(LogoutControl)]
            && e.result != Ok(false)
            && (e.result == Ok(true) <==> Respond(pending).StepOk?)
            && (Respond(pending).StepFail? ==>
                  e.result == Err(CheckLoginStatusError(Respond(pending).cause)))
  {
    RunSingle(WaitPresent(LogoutControl), pending);
  }

  /** `logout` always opens the logout URL first and waits for the landing
      URL only if that succeeded; it answers true when both succeed, raises
      `LogoutError` wrapping the first exception otherwise, and never answers
      false. */
  lemma LogoutNeverSwallowsFailure(config: Config, pending: seq<StepResult>)
    ensures var e := LogoutSpec(config, pending);
            && 1 <= |e.ran| <= 2
            && e.ran == LogoutSteps(config)[..|e.ran|]
            && e.left == Drop(pending, |e.ran|)
            && e.ran[0] == Get(config.logoutUrl)
            && (WaitUrlMatches(config.landingUrl) in e.ran ==> ResponseAt(pending, 0).StepOk?)
            && e.result != Ok(false)
            && (e.result == Ok(true) <==> FirstStepsSucceed(pending, 2))
            && (e.result.Err? ==>
                  FirstStepsSucceed(pending, |e.ran| - 1) &&
                  ResponseAt(pending, |e.ran| - 1).StepFail? &&
                  e.result.error == LogoutError(ResponseAt(pending, |e.ran| - 1).cause))
            && (ResponseAt(pending, 0).StepFail? ==>
                  e.ran == [Get(config.logoutUrl)] &&
                  e.result == Err(LogoutError(ResponseAt(pending, 0).cause)))
  {
    var steps := LogoutSteps(config);
    RunStepsShape(steps, pending);
    RunStepsSucceedsIff(steps, pending);
    var e := LogoutSpec(config, pending);
    assert e.ran == steps[..|e.ran|];
  }
}
