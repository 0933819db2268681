/** The registration tutorial: a cursor over the five steps with Previous/Next buttons and an
    accordion of step cards whose open card follows the cursor. */
module Tutorial {
  import opened Options
  import Accordion

  /** The tutorial has this many steps, numbered from 1. */
  const StepCount := 5

  /** `prev ? prev + d : null`: the open card moves by `d`; none, or card 0 (falsy), gives none. */
  function Shift(expanded: Option<int>, d: int): (r: Option<int>)
    ensures r.Some? <==> expanded.Some? && expanded.value != 0
    ensures r.Some? ==> r.value - d == expanded.value
  {
    if expanded.Some? && expanded.value != 0 then Some(expanded.value + d) else None
  }

  class Cursor {
    var currentStep: int
    var expandedStep: Option<int>
    /** How many times the page was asked to scroll to the top. */
    var scrollRequests: nat

    /** The cursor stays on an existing step. */
    predicate Valid()
      reads this
    {
      1 <= currentStep <= StepCount
    }

    /** First render: step 1, its card open. */
    constructor ()
      ensures Valid()
      ensures currentStep == 1 && expandedStep == Some(1) && scrollRequests == 0
    {
      currentStep := 1;
      expandedStep := Some(1);
      scrollRequests := 0;
    }

    /** "Anterior" is disabled on the first step; otherwise there is a step to go back to. */
    predicate PrevDisabled(): (r: bool)
      reads this
      ensures Valid() && !r ==> 1 <= currentStep - 1 < StepCount
      ensures r ==> currentStep == 1
    {
      currentStep == 1
    }

    /** "Siguiente" is disabled on the last step; otherwise there is a step to advance to. */
    predicate NextDisabled(): (r: bool)
      reads this
      ensures Valid() && !r ==> 1 < currentStep + 1 <= StepCount
      ensures r ==> currentStep == StepCount
    {
      currentStep == StepCount
    }

    /** A step's number circle is filled when its card is open or the cursor has passed it. */
    function CircleMarked(stepId: int): (r: bool)
      reads this
      ensures stepId < currentStep ==> r
      ensures stepId >= currentStep ==> (r <==> expandedStep == Some(stepId))
    {
      expandedStep == Some(stepId) || currentStep > stepId
    }

    /** "Siguiente": below the last step, advance, move the open card along and scroll to the top;
        otherwise nothing. It does nothing exactly when the button is disabled. */
    method HandleNext()
      requires Valid()
      modifies this
      ensures Valid()
      ensures old(NextDisabled()) <==> currentStep == old(currentStep)
      ensures old(currentStep) < StepCount ==>
                && currentStep == old(currentStep) + 1
                && expandedStep == Shift(old(expandedStep), 1)
                && scrollRequests == old(scrollRequests) + 1
      ensures old(currentStep) == StepCount ==>
                expandedStep == old(expandedStep) && scrollRequests == old(scrollRequests)
      ensures old(expandedStep) == Some(old(currentStep)) ==> expandedStep == Some(currentStep)
    {
      if currentStep < StepCount {
        currentStep := currentStep + 1;
        expandedStep := Shift(expandedStep, 1);
        scrollRequests := scrollRequests + 1;
      }
    }

    /** "Anterior": above the first step, go back and move the open card along; otherwise nothing.
        It does nothing exactly when the button is disabled. */
    method HandlePrev()
      requires Valid()
      modifies this
      ensures Valid()
      ensures old(PrevDisabled()) <==> currentStep == old(currentStep)
      ensures old(currentStep) > 1 ==>
                currentStep == old(currentStep) - 1 && expandedStep == Shift(old(expandedStep), -1)
      ensures old(currentStep) == 1 ==> expandedStep == old(expandedStep)
      ensures scrollRequests == old(scrollRequests)
      ensures old(expandedStep) == Some(old(currentStep)) ==> expandedStep == Some(currentStep)
    {
      if currentStep > 1 {
        currentStep := currentStep - 1;
        expandedStep := Shift(expandedStep, -1);
      }
    }

    /** Clicking a step card's header toggles it, closing any other; the cursor stays. */
    method ClickStep(stepId: int)
      requires Valid() && 1 <= stepId <= StepCount
      modifies this
      ensures Valid()
      ensures expandedStep == Accordion.Click(old(expandedStep), stepId)
      ensures currentStep == old(currentStep) && scrollRequests == old(scrollRequests)
    {
      expandedStep := Accordion.Click(expandedStep, stepId);
    }
  }

  /** Stepping back from step 1's card opened on step 2 leaves card 0, which is falsy, so the
      next step forward closes every card instead of reopening card 1. */
  method FalsyCardScenario() returns (step: int, expanded: Option<int>)
    ensures step == 2 && expanded == None
  {
    var c := new Cursor();
    c.HandleNext();
    assert c.currentStep == 2 && c.expandedStep == Some(2);
    c.ClickStep(1);
    assert c.expandedStep == Some(1);
    c.HandlePrev();
    assert c.currentStep == 1 && c.expandedStep == Some(0);
    c.HandleNext();
    step, expanded := c.currentStep, c.expandedStep;
  }
}
