/**
 The browser seen from the page objects: each interaction is one step, and
 the browser answers each step with success or a Selenium exception.  A
 page-object operation runs its steps in order inside one `try` block, so
 the first exception ends it; `RunSteps` is that discipline as a function.
 */
module Steps {
  import opened Wrappers
  import opened LoginErrors

  /** A selection strategy for one element (`By.ID` or `By.CSS_SELECTOR`). */
  datatype Locator = ById(id: string) | ByCss(selector: string)

  /** One browser interaction.  Waits are bounded by Selenium's timeout;
      a wait that expires answers with a `TimeoutException`. */
  datatype Step =
    | Get(url: string)                  // driver.get
    | WaitTitleIs(title: string)        // wait until the page title equals `title`
    | WaitVisible(target: Locator)      // wait until the element is visible
    | WaitPresent(target: Locator)      // wait until the element is in the DOM
    | WaitUrlMatches(pattern: string)   // wait until the URL matches `pattern`
    | SendKeys(target: Locator, keys: string)
    | Click(target: Locator)

  /** The browser's answer to one step. */
  datatype StepResult = StepOk | StepFail(cause: Cause)

  /** The answer to the next step, given the answers still to come; once the
      scripted answers run out, every step succeeds. */
  function Respond(pending: seq<StepResult>): StepResult
  {
    if pending == [] then StepOk else pending[0]
  }

  /** The answers left once the next step has been answered. */
  function Rest(pending: seq<StepResult>): seq<StepResult>
  {
    if pending == [] then [] else pending[1..]
  }

  /** The answer the `i`-th coming step will receive. */
  function ResponseAt(pending: seq<StepResult>, i: nat): StepResult
  {
    if i < |pending| then pending[i] else StepOk
  }

  /** The answers left once `n` more steps have been answered. */
  function Drop(pending: seq<StepResult>, n: nat): seq<StepResult>
  {
    if n <= |pending| then pending[n..] else []
  }

  /** What running a block of steps did: the steps that ran, the exception
      that ended the block (if any), and the answers still to come. */
  datatype Run = Run(ran: seq<Step>, failure: Option<Cause>, left: seq<StepResult>)

  /** Run `steps` in order; the first step answered with an exception ends
      the block and no later step runs.  A non-empty block runs at least one
      step and never more than it has; a block that did not fail ran them all. */
  function RunSteps(steps: seq<Step>, pending: seq<StepResult>): (r: Run)
    ensures |r.ran| <= |steps|
    ensures steps != [] ==> 1 <= |r.ran|
    ensures r.failure.None? ==> |r.ran| == |steps|
    decreases |steps|
  {
    if steps == [] then Run([], None, pending)
    else
      match Respond(pending)
      case StepFail(cause) => Run([steps[0]], Some(cause), Rest(pending))
      case StepOk =>
        var tail := RunSteps(steps[1..], Rest(pending));
        Run([steps[0]] + tail.ran, tail.failure, tail.left)
  }

  /** The steps that ran are a prefix of the block, in the block's order,
      at least one when the block is not empty, all of them when the block
      did not fail, and each consumed one answer. */
  lemma {:induction false} RunStepsPrefix(steps: seq<Step>, pending: seq<StepResult>)
    ensures var r := RunSteps(steps, pending);
            && |r.ran| <= |steps|
            && r.ran == steps[..|r.ran|]
            && (steps != [] ==> |r.ran| >= 1)
            && r.left == Drop(pending, |r.ran|)
            && (r.failure.None? ==> r.ran == steps)
    decreases |steps|
  {
    if steps != [] && Respond(pending).StepOk? {
      var rest := Rest(pending);
      RunStepsPrefix(steps[1..], rest);
      var tail := RunSteps(steps[1..], rest);
      assert steps == [steps[0]] + steps[1..];
      assert Drop(pending, 1 + |tail.ran|) == Drop(rest, |tail.ran|);
    }
  }

  /** Every step that ran succeeded except the one that ended the block, which
      received the block's exception; a block that did not fail had all its
      steps answered with success. */
  lemma {:induction false} RunStepsAnswers(steps: seq<Step>, pending: seq<StepResult>)
    ensures var r := RunSteps(steps, pending);
            && (r.failure.None? ==> forall i :: 0 <= i < |steps| ==> ResponseAt(pending, i) == StepOk)
            && (r.failure.Some? ==>
                  |r.ran| >= 1 &&
                  ResponseAt(pending, |r.ran| - 1) == StepFail(r.failure.value) &&
                  forall i :: 0 <= i < |r.ran| - 1 ==> ResponseAt(pending, i) == StepOk)
    decreases |steps|
  {
    if steps != [] {
      var rest := Rest(pending);
      assert ResponseAt(pending, 0) == Respond(pending);
      if Respond(pending).StepOk? {
        RunStepsAnswers(steps[1..], rest);
        var tail := RunSteps(steps[1..], rest);
        if tail.failure.None? {
          forall i | 0 <= i < |steps| ensures ResponseAt(pending, i) == StepOk {
            if i > 0 { assert ResponseAt(rest, i - 1) == ResponseAt(pending, i); }
          }
        } else {
          assert ResponseAt(rest, |tail.ran| - 1) == ResponseAt(pending, |tail.ran|);
          forall i | 0 <= i < |tail.ran| ensures ResponseAt(pending, i) == StepOk {
            if i > 0 { assert ResponseAt(rest, i - 1) == ResponseAt(pending, i); }
          }
        }
      }
    }
  }

  /** Both halves together: a block runs a prefix of its steps in order and
      fails exactly at its first failing step. */
  lemma RunStepsShape(steps: seq<Step>, pending: seq<StepResult>)
    ensures var r := RunSteps(steps, pending);
            && |r.ran| <= |steps|
            && r.ran == steps[..|r.ran|]
            && (steps != [] ==> |r.ran| >= 1)
            && r.left == Drop(pending, |r.ran|)
            && (r.failure.None? ==> r.ran == steps)
            && (r.failure.None? ==> forall i :: 0 <= i < |steps| ==> ResponseAt(pending, i) == StepOk)
            && (r.failure.Some? ==>
                  |r.ran| >= 1 &&
                  ResponseAt(pending, |r.ran| - 1) == StepFail(r.failure.value) &&
                  forall i :: 0 <= i < |r.ran| - 1 ==> ResponseAt(pending, i) == StepOk)
  {
    RunStepsPrefix(steps, pending);
    RunStepsAnswers(steps, pending);
  }

  /** A block completes exactly when every one of its steps is answered
      with success. */
  lemma RunStepsSucceedsIff(steps: seq<Step>, pending: seq<StepResult>)
    ensures RunSteps(steps, pending).failure.None? <==>
              forall i :: 0 <= i < |steps| ==> ResponseAt(pending, i).StepOk?
  {
    RunStepsShape(steps, pending);
  }

  /** A one-step block runs its step and ends with that step's answer. */
  lemma RunSingle(step: Step, pending: seq<StepResult>)
    ensures RunSteps([step], pending) ==
              Run([step], if Respond(pending).StepFail? then Some(Respond(pending).cause) else None, Rest(pending))
  {
  }
}
