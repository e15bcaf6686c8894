/** The `useStepper` hook: a single counter `activeStep` over `0..|steps|`,
    where `|steps|` is the "completed" pseudo-step. */
module StepperHook {
  import opened Wrappers

  /** One step descriptor; `optional` is absent unless the caller set it. */
  datatype StepConfig = StepConfig(caption: string, optional: Option<bool>)

  /** The updater passed to `setActiveStep` by `nextStep`. */
  function Next(s: int, n: nat): (r: int)
    ensures s < n ==> r == s + 1
    ensures s >= n ==> r == s
    ensures 0 <= s <= n ==> 0 <= r <= n
    ensures 0 <= s < n ==> Prev(r) == s
  {
    if s < n then s + 1 else s
  }

  /** The updater passed to `setActiveStep` by `prevStep`. */
  function Prev(s: int): (r: int)
    ensures s > 0 ==> r == s - 1
    ensures s <= 0 ==> r == s
    ensures s >= 0 ==> 0 <= r <= s
  {
    if s > 0 then s - 1 else s
  }

  /** The new value of `activeStep` after `setStep(index)`. */
  function Jump(s: int, index: int, n: nat): (r: int)
    ensures 0 <= index <= n ==> r == index
    ensures (index < 0 || index > n) ==> r == s
    ensures 0 <= s <= n ==> 0 <= r <= n
  {
    if index < 0 then s
    else if index <= n then index
    else s
  }

  /** `prevStep` undoes `nextStep` below completion, and `nextStep` undoes
      `prevStep` above the first step. */
  lemma PrevNextRoundTrip(s: int, n: nat)
    requires 0 < s <= n
    ensures Next(Prev(s), n) == s
  {
  }

  class Stepper {
    var activeStep: int
    const steps: seq<StepConfig>

    /** The bound the hook keeps once the initial step is in range. */
    ghost predicate Valid() reads this { 0 <= activeStep <= |steps| }

    /** `useStepper({ initialStep, steps })`: the initial step is taken as
        given, without a range check. */
    constructor (initialStep: int, steps: seq<StepConfig>)
      ensures this.activeStep == initialStep && this.steps == steps
      ensures (0 <= initialStep <= |steps|) == Valid()
    {
      this.activeStep := initialStep;
      this.steps := steps;
    }

    function IsCompleted(): bool reads this { activeStep == |steps| }
    function IsFirstStep(): bool reads this { activeStep == 0 }
    function IsLastStep(): bool reads this { activeStep == |steps| - 1 }
    function IsDisabledStep(): bool reads this { IsFirstStep() }

    /** `!isCompleted && (steps[activeStep]?.optional ?? false)`. */
    function IsOptionalStep(): (b: bool)
      reads this
      ensures b <==> !IsCompleted() && 0 <= activeStep < |steps| && steps[activeStep].optional == Some(true)
    {
      !IsCompleted() && 0 <= activeStep < |steps| && steps[activeStep].optional.GetOr(false)
    }

    method NextStep()
      modifies this
      ensures activeStep == Next(old(activeStep), |steps|)
      ensures old(Valid()) ==> Valid()
    {
      activeStep := Next(activeStep, |steps|);
    }

    method PrevStep()
      modifies this
      ensures activeStep == Prev(old(activeStep))
      ensures old(Valid()) ==> Valid()
    {
      activeStep := Prev(activeStep);
    }

    method SetStep(index: int)
      modifies this
      ensures activeStep == Jump(old(activeStep), index, |steps|)
      ensures old(Valid()) ==> Valid()
    {
      if index < 0 {
        return;
      }
      if index <= |steps| {
        activeStep := index;
      }
    }

    method ResetSteps()
      modifies this
      ensures activeStep == 0 && Valid()
    {
      activeStep := 0;
    }
  }

  /** What the derived flags say about a stepper that keeps its bound: the
      completed pseudo-step is neither optional nor a last step, and the "Prev"
      control is disabled exactly at the first step. */
  lemma FlagsAgree(st: Stepper)
    requires st.Valid()
    ensures st.IsCompleted() <==> !(st.activeStep < |st.steps|)
    ensures st.IsCompleted() ==> !st.IsLastStep() && !st.IsOptionalStep()
    ensures st.IsDisabledStep() <==> st.activeStep == 0
    ensures st.IsLastStep() ==> st.activeStep < |st.steps| && !st.IsCompleted()
    ensures st.IsFirstStep() && st.IsCompleted() ==> |st.steps| == 0
  {
  }
}
