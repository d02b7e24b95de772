/**
 The page objects of the login harness (`LoginPage`, `HomePage`) over an
 abstract browser (`Driver`).  Each operation runs a fixed block of steps;
 the operations that catch Selenium exceptions turn the first one into their
 own exception kind and skip the rest of the block.  For every operation a
 function gives what it returns, which steps it performs and which browser
 answers it consumes; the methods are proved to do exactly that, and the
 lemmas state what those functions promise.
 */
module Pages {
  import opened Wrappers
  import opened LoginErrors
  import opened Classifier
  import opened Steps

  /** The three URLs the harness reads from its configuration. */
  datatype Config = Config(landingUrl: string, loginUrl: string, logoutUrl: string)

  const LoginTitle := "Log In"
  const EmailField := ById("email")
  const PasswordField := ById("password")
  const LoginButton := ById("logIn")
  const ErrorBanner := ByCss("[data-qa-id='undefined-text']")
  const LogoutControl := ByCss("[data-qa-id='webnav-usermenu-logout']")

  /** What one operation does: its result or exception, the steps it
      performed, and the browser answers still to come. */
  datatype Effect<T> = Effect(result: Result<T>, ran: seq<Step>, left: seq<StepResult>)

  // ---------------------------------------------------------------------
  // Specification functions, one per operation

  /** The block `LoginPage.login` runs inside its `try`. */
  function LoginSteps(email: string, password: string): seq<Step>
  {
    [WaitTitleIs(LoginTitle), SendKeys(EmailField, email), SendKeys(PasswordField, password), Click(LoginButton)]
  }

  function LoginSpec(email: string, password: string, pending: seq<StepResult>): Effect<()>
  {
    var run := RunSteps(LoginSteps(email, password), pending);
    var result := if run.failure.Some? then Err(LoginError(run.failure.value)) else Ok(());
    Effect(result, run.ran, run.left)
  }

  /** `LoginPage.is_login_error_message`: the banner wait has no handler, so
      its exception reaches the caller unwrapped; the banner is classified
      only once it has appeared. */
  function IsLoginErrorMessageSpec(errorType: string, pending: seq<StepResult>, banner: Banner): Effect<bool>
  {
    var run := RunSteps([WaitVisible(ErrorBanner)], pending);
    var result := if run.failure.Some? then Err(Uncaught(run.failure.value)) else Classify(errorType, banner);
    Effect(result, run.ran, run.left)
  }

  /** `LoginPage.login_and_check_error`: open the login URL (unguarded), log
      in, then classify the banner. */
  function LoginAndCheckErrorSpec(config: Config, email: string, password: string, errorType: string,
                                  pending: seq<StepResult>, banner: Banner): Effect<bool>
  {
    var nav := RunSteps([Get(config.loginUrl)], pending);
    if nav.failure.Some? then
      Effect(Err(Uncaught(nav.failure.value)), nav.ran, nav.left)
    else
      var login := LoginSpec(email, password, nav.left);
      if login.result.Err? then
        Effect(Err(login.result.error), nav.ran + login.ran, login.left)
      else
        var check := IsLoginErrorMessageSpec(errorType, login.left, banner);
        Effect(check.result, nav.ran + login.ran + check.ran, check.left)
  }

  /** `HomePage.is_logged_in`: wait for the logout control. */
  function IsLoggedInSpec(pending: seq<StepResult>): Effect<bool>
  {
    var run := RunSteps([WaitPresent(LogoutControl)], pending);
    var result := if run.failure.Some? then Err(CheckLoginStatusError(run.failure.value)) else Ok(true);
    Effect(result, run.ran, run.left)
  }

  /** The block `HomePage.logout` runs inside its `try`. */
  function LogoutSteps(config: Config): seq<Step>
  {
    [Get(config.logoutUrl), WaitUrlMatches(config.landingUrl)]
  }

  function LogoutSpec(config: Config, pending: seq<StepResult>): Effect<bool>
  {
    var run := RunSteps(LogoutSteps(config), pending);
    var result := if run.failure.Some? then Err(LogoutError(run.failure.value)) else Ok(true);
    Effect(result, run.ran, run.left)
  }

  // ---------------------------------------------------------------------
  // The browser and the page objects

  /** The browser session.  `pending` holds the answers the browser will give
      to the coming steps, `banner` the error banner as the page renders it,
      and `trace` records every step performed so far. */
  class Driver {
    var pending: seq<StepResult>
    var banner: Banner
    ghost var trace: seq<Step>

    constructor (answers: seq<StepResult>, shown: Banner)
      ensures pending == answers && banner == shown && trace == []
    {
      pending := answers;
      banner := shown;
      trace := [];
    }

    /** Perform one step and receive the browser's answer to it. */
    method Perform(step: Step) returns (r: StepResult)
      modifies this
      ensures r == Respond(old(pending)) && pending == Rest(old(pending))
      ensures trace == old(trace) + [step] && banner == old(banner)
    {
      r := Respond(pending);
      pending := Rest(pending);
      trace := trace + [step];
    }
  }

  class LoginPage {
    const driver: Driver
    const config: Config

    constructor (driver: Driver, config: Config)
      ensures this.driver == driver && this.config == config
    {
      this.driver := driver;
      this.config := config;
    }

    method Login(email: string, password: string) returns (r: Result<()>)
      modifies driver
      ensures var e := LoginSpec(email, password, old(driver.pending));
              r == e.result && driver.pending == e.left && driver.trace == old(driver.trace) + e.ran
      ensures driver.banner == old(driver.banner)
    {
      ghost var steps := LoginSteps(email, password);
      ghost var p0 := driver.pending;
      var s := driver.Perform(WaitTitleIs(LoginTitle));
      if s.StepFail? {
        return Err(LoginError(s.cause));
      }
      ghost var p1 := driver.pending;
      assert RunSteps(steps, p0) == var t := RunSteps(steps[1..], p1); Run([steps[0]] + t.ran, t.failure, t.left);
      s := driver.Perform(SendKeys(EmailField, email));
      if s.StepFail? {
        return Err(LoginError(s.cause));
      }
      ghost var p2 := driver.pending;
      assert steps[1..][1..] == steps[2..];
      assert RunSteps(steps[1..], p1) == var t := RunSteps(steps[2..], p2); Run([steps[1]] + t.ran, t.failure, t.left);
      s := driver.Perform(SendKeys(PasswordField, password));
      if s.StepFail? {
        return Err(LoginError(s.cause));
      }
      ghost var p3 := driver.pending;
      assert steps[2..][1..] == steps[3..];
      assert RunSteps(steps[2..], p2) == var t := RunSteps(steps[3..], p3); Run([steps[2]] + t.ran, t.failure, t.left);
      s := driver.Perform(Click(LoginButton));
      if s.StepFail? {
        return Err(LoginError(s.cause));
      }
      RunSingle(steps[3], p3);
      assert steps[3..] == [steps[3]];
      return Ok(());
    }

    method IsLoginErrorMessage(errorType: string) returns (r: Result<bool>)
      modifies driver
      ensures var e := IsLoginErrorMessageSpec(errorType, old(driver.pending), old(driver.banner));
              r == e.result && driver.pending == e.left && driver.trace == old(driver.trace) + e.ran
      ensures driver.banner == old(driver.banner)
    {
      RunSingle(WaitVisible(ErrorBanner), driver.pending);
      var s := driver.Perform(WaitVisible(ErrorBanner));
      if s.StepFail? {
        return Err(Uncaught(s.cause));
      }
      r := Classify(errorType, driver.banner);
    }

    method LoginAndCheckError(email: string, password: string, errorType: string) returns (r: Result<bool>)
      modifies driver
      ensures var e := LoginAndCheckErrorSpec(config, email, password, errorType, old(driver.pending), old(driver.banner));
              r == e.result && driver.pending == e.left && driver.trace == old(driver.trace) + e.ran
      ensures driver.banner == old(driver.banner)
    {
      RunSingle(Get(config.loginUrl), driver.pending);
      var s := driver.Perform(Get(config.loginUrl));
      if s.StepFail? {
        return Err(Uncaught(s.cause));
      }
      ghost var t1 := driver.trace;
      var login := Login(email, password);
      if login.Err? {
        return Err(login.error);
      }
      ghost var t2 := driver.trace;
      r := IsLoginErrorMessage(errorType);
      assert driver.trace == t2 + (driver.trace[|t2|..]);
    }
  }

  class HomePage {
    const driver: Driver
    const config: Config

    constructor (driver: Driver, config: Config)
      ensures this.driver == driver && this.config == config
    {
      this.driver := driver;
      this.config := config;
    }

    method IsLoggedIn() returns (r: Result<bool>)
      modifies driver
      ensures var e := IsLoggedInSpec(old(driver.pending));
              r == e.result && driver.pending == e.left && driver.trace == old(driver.trace) + e.ran
      ensures driver.banner == old(driver.banner)
    {
      RunSingle(WaitPresent(LogoutControl), driver.pending);
      var s := driver.Perform(WaitPresent(LogoutControl));
      if s.StepFail? {
        return Err(CheckLoginStatusError(s.cause));
      }
      return Ok(true);
    }

    method Logout() returns (r: Result<bool>)
      modifies driver
      ensures var e := LogoutSpec(config, old(driver.pending));
              r == e.result && driver.pending == e.left && driver.trace == old(driver.trace) + e.ran
      ensures driver.banner == old(driver.banner)
    {
      ghost var steps := LogoutSteps(config);
      ghost var p0 := driver.pending;
      var s := driver.Perform(Get(config.logoutUrl));
      if s.StepFail? {
        return Err(LogoutError(s.cause));
      }
      ghost var p1 := driver.pending;
      assert RunSteps(steps, p0) == var t := RunSteps(steps[1..], p1); Run([steps[0]] + t.ran, t.failure, t.left);
      s := driver.Perform(WaitUrlMatches(config.landingUrl));
      if s.StepFail? {
        return Err(LogoutError(s.cause));
      }
      RunSingle(steps[1], p1);
      assert steps[1..] == [steps[1]];
      return Ok(true);
    }
  }
}
