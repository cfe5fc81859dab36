/** The class-component version of the onboarding form
    (ui/components/OnboardingForm.jsx). Its state lives in fields that the
    handlers update in place, as `this.setState` merges do; each handler is
    proved to make the same transition as the function component's. */
module OnboardingFormClass {
  import opened OnboardingForm

  class OnboardingFormComponent {
    /** `this.state[name]` for each text field */
    var values: map<Field, string>
    var logoUploaded: bool
    var colorScheme: map<ColorKey, string>
    var currentStep: int
    var totalSteps: int
    var fieldStatus: map<Field, Status>

    /** The fields read as one form state. */
    function State(): FormState
      reads this
    {
      FormState(values, logoUploaded, colorScheme, currentStep, totalSteps, fieldStatus)
    }

    constructor ()
      ensures State() == Initial()
      ensures currentStep == 1 && totalSteps == 3
      ensures forall f | f in AllFields :: f in fieldStatus && fieldStatus[f] == InProgress
    {
      values := map f | f in AllFields :: "";
      logoUploaded := false;
      colorScheme := map[Primary := "#3498db", Secondary := "#2c3e50", Accent := "#e74c3c"];
      currentStep := 1;
      totalSteps := 3;
      fieldStatus := map f | f in AllFields :: InProgress;
    }

    method HandleChange(name: Field, value: string)
      modifies this
      ensures State() == OnboardingForm.HandleChange(old(State()), name, value)
    {
      values := values[name := value];
      fieldStatus := fieldStatus[name := InProgress];
    }

    method HandleFinalizeField(name: Field)
      modifies this
      ensures State() == OnboardingForm.HandleFinalizeField(old(State()), name)
    {
      fieldStatus := fieldStatus[name := Finalized];
    }

    method HandleColorChange(key: ColorKey, color: string)
      modifies this
      ensures State() == OnboardingForm.HandleColorChange(old(State()), key, color)
    {
      colorScheme := colorScheme[key := color];
    }

    method HandleFileUpload()
      modifies this
      ensures State() == OnboardingForm.HandleFileUpload(old(State()))
    {
      logoUploaded := true;
    }

    method NextStep()
      modifies this
      ensures State() == OnboardingForm.NextStep(old(State()))
      ensures 1 <= old(currentStep) <= old(totalSteps) ==> 1 <= currentStep <= totalSteps
    {
      if currentStep < totalSteps {
        currentStep := currentStep + 1;
      }
    }

    method PrevStep()
      modifies this
      ensures State() == OnboardingForm.PrevStep(old(State()))
      ensures 1 <= old(currentStep) <= old(totalSteps) ==> 1 <= currentStep <= totalSteps
    {
      if currentStep > 1 {
        currentStep := currentStep - 1;
      }
    }

    /** `disabled` on a field's input. */
    predicate InputDisabled(name: Field)
      reads this
      requires name in fieldStatus
      ensures WellFormed(State()) && Shown(State(), name) ==> (InputDisabled(name) <==> !InputEnabled(State(), name))
    {
      fieldStatus[name] == Finalized
    }

    /** `disabled` on a field's Finalize button: an empty field cannot be
        finalized, and a finalized one cannot be finalized again. */
    predicate FinalizeDisabled(name: Field)
      reads this
      requires name in values && name in fieldStatus
      ensures InputDisabled(name) ==> FinalizeDisabled(name)
      ensures !FinalizeDisabled(name) ==> values[name] != ""
    {
      values[name] == "" || fieldStatus[name] == Finalized
    }

    /** One user action on a rendered, enabled control. It keeps the form's
        invariant and never alters a finalized field. */
    method Handle(e: Event)
      requires Inv(State()) && Enabled(State(), e)
      modifies this
      ensures State() == Apply(old(State()), e)
      ensures Inv(State())
      ensures forall f | f in old(fieldStatus) && old(fieldStatus)[f] == Finalized ::
        f in values && values[f] == old(values)[f] && f in fieldStatus && fieldStatus[f] == Finalized
    {
      ghost var before := State();
      match e {
        case Change(name, value) => HandleChange(name, value);
        case Finalize(name) => HandleFinalizeField(name);
        case ColorChange(key, color) => HandleColorChange(key, color);
        case FileUpload => HandleFileUpload();
        case Next => NextStep();
        case Back => PrevStep();
      }
      assert State() == Apply(before, e);
      EnabledEventKeepsInv(before, e);
      forall f | f in before.fieldStatus && before.fieldStatus[f] == Finalized
        ensures f in values && values[f] == before.values[f] && f in fieldStatus && fieldStatus[f] == Finalized
      {
        EnabledEventKeepsFinalized(before, e, f);
      }
    }
  }
}
