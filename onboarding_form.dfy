/** The onboarding form's state machine (src/components/Onboarding/OnboardingForm.tsx):
    a three-step wizard whose text fields are each edited, then finalized.
    Every handler builds the next state as a record spread; the component
    holds the one state cell that `setFormState` replaces. Only the handlers
    and the enabling guards the render puts on inputs and buttons are modelled. */
module OnboardingForm {

  datatype Field = CompanyName | Industry | BusinessPlan | Website | ContactEmail | ContactPhone

  datatype Status = InProgress | Finalized

  datatype ColorKey = Primary | Secondary | Accent

  const AllFields: set<Field> := {CompanyName, Industry, BusinessPlan, Website, ContactEmail, ContactPhone}
  const AllColorKeys: set<ColorKey> := {Primary, Secondary, Accent}

  /** The form state; field values, statuses and colours are keyed objects,
      updated with a computed key as the source does (`[name]: value`). */
  datatype FormState = FormState(
    values: map<Field, string>,
    logoUploaded: bool,
    colorScheme: map<ColorKey, string>,
    currentStep: int,
    totalSteps: int,
    fieldStatus: map<Field, Status>)

  /** Every field has a value and a status, every colour key a colour. */
  predicate WellFormed(s: FormState) {
    s.values.Keys == AllFields && s.fieldStatus.Keys == AllFields && s.colorScheme.Keys == AllColorKeys
  }

  function Initial(): (s: FormState)
    ensures WellFormed(s)
    ensures s.currentStep == 1 && s.totalSteps == 3 && !s.logoUploaded
    ensures forall f | f in AllFields :: s.values[f] == "" && s.fieldStatus[f] == InProgress
  {
    FormState(
      map f | f in AllFields :: "",
      false,
      map[Primary := "#3498db", Secondary := "#2c3e50", Accent := "#e74c3c"],
      1,
      3,
      map f | f in AllFields :: InProgress)
  }

  // ---------------------------------------------------------------------
  // Handlers

  /** handleChange: the edited field takes the new value and goes back to
      in-progress; nothing else changes. */
  function HandleChange(s: FormState, name: Field, value: string): (r: FormState)
    ensures name in r.values && r.values[name] == value
    ensures name in r.fieldStatus && r.fieldStatus[name] == InProgress
    ensures forall f | f in s.values && f != name :: f in r.values && r.values[f] == s.values[f]
    ensures forall f | f in s.fieldStatus && f != name :: f in r.fieldStatus && r.fieldStatus[f] == s.fieldStatus[f]
    ensures r.colorScheme == s.colorScheme && r.logoUploaded == s.logoUploaded
    ensures r.currentStep == s.currentStep && r.totalSteps == s.totalSteps
  {
    s.(values := s.values[name := value], fieldStatus := s.fieldStatus[name := InProgress])
  }

  /** handleFinalizeField: only the given field's status becomes finalized. */
  function HandleFinalizeField(s: FormState, name: Field): (r: FormState)
    ensures name in r.fieldStatus && r.fieldStatus[name] == Finalized
    ensures forall f | f in s.fieldStatus && f != name :: f in r.fieldStatus && r.fieldStatus[f] == s.fieldStatus[f]
    ensures r.values == s.values && r.colorScheme == s.colorScheme && r.logoUploaded == s.logoUploaded
    ensures r.currentStep == s.currentStep && r.totalSteps == s.totalSteps
  {
    s.(fieldStatus := s.fieldStatus[name := Finalized])
  }

  /** handleColorChange: only the given colour key changes. */
  function HandleColorChange(s: FormState, key: ColorKey, color: string): (r: FormState)
    ensures key in r.colorScheme && r.colorScheme[key] == color
    ensures forall k | k in s.colorScheme && k != key :: k in r.colorScheme && r.colorScheme[k] == s.colorScheme[k]
    ensures r.values == s.values && r.fieldStatus == s.fieldStatus && r.logoUploaded == s.logoUploaded
    ensures r.currentStep == s.currentStep && r.totalSteps == s.totalSteps
  {
    s.(colorScheme := s.colorScheme[key := color])
  }

  /** handleFileUpload: records that a logo was chosen. */
  function HandleFileUpload(s: FormState): (r: FormState)
    ensures r.logoUploaded
    ensures r == s.(logoUploaded := true)
  {
    s.(logoUploaded := true)
  }

  /** nextStep: advances unless already on the last step. */
  function NextStep(s: FormState): (r: FormState)
    ensures s.currentStep < s.totalSteps ==> r == s.(currentStep := s.currentStep + 1)
    ensures s.currentStep >= s.totalSteps ==> r == s
  {
    if s.currentStep < s.totalSteps then s.(currentStep := s.currentStep + 1) else s
  }

  /** prevStep: goes back unless already on the first step. */
  function PrevStep(s: FormState): (r: FormState)
    ensures s.currentStep > 1 ==> r == s.(currentStep := s.currentStep - 1)
    ensures s.currentStep <= 1 ==> r == s
  {
    if s.currentStep > 1 then s.(currentStep := s.currentStep - 1) else s
  }

  // ---------------------------------------------------------------------
  // Render guards

  /** The step whose page shows the field's input and Finalize button;
      the contact phone has a status but no input on any page. */
  function StepOf(f: Field): (n: int)
    ensures 1 <= n <= 3 <==> f != ContactPhone
    ensures n == 3 <==> f == ContactEmail
  {
    match f
    case CompanyName => 1
    case Industry => 1
    case BusinessPlan => 2
    case Website => 2
    case ContactEmail => 3
    case ContactPhone => 0
  }

  /** Only pages 1 to 3 are rendered, and the contact phone is on none. */
  predicate Shown(s: FormState, f: Field)
    ensures Shown(s, f) ==> 1 <= s.currentStep <= 3
    ensures s.currentStep == 1 ==> (Shown(s, f) <==> f == CompanyName || f == Industry)
    ensures s.currentStep == 2 ==> (Shown(s, f) <==> f == BusinessPlan || f == Website)
    ensures s.currentStep == 3 ==> (Shown(s, f) <==> f == ContactEmail)
  {
    f != ContactPhone && StepOf(f) == s.currentStep
  }

  /** The input is shown and not disabled: not yet finalized. */
  predicate InputEnabled(s: FormState, f: Field)
    requires WellFormed(s)
    ensures InputEnabled(s, f) ==> f != ContactPhone && f in s.fieldStatus && s.fieldStatus[f] == InProgress
  {
    Shown(s, f) && s.fieldStatus[f] != Finalized
  }

  /** The Finalize button is shown and not disabled: the value is non-empty
      and the field not yet finalized. */
  predicate FinalizeEnabled(s: FormState, f: Field)
    requires WellFormed(s)
    ensures FinalizeEnabled(s, f) <==> InputEnabled(s, f) && s.values[f] != ""
  {
    Shown(s, f) && s.values[f] != "" && s.fieldStatus[f] != Finalized
  }

  /** The logo input and the colour pickers live on the third page. */
  predicate BrandInputsShown(s: FormState)
    ensures BrandInputsShown(s) && s.totalSteps == 3 ==> !NextShown(s) && BackShown(s)
  {
    s.currentStep == 3
  }

  predicate BackShown(s: FormState)
    ensures BackShown(s) <==> PrevStep(s) != s
  {
    s.currentStep > 1
  }

  predicate NextShown(s: FormState)
    ensures NextShown(s) <==> NextStep(s) != s
  {
    s.currentStep < s.totalSteps
  }

  /** "Complete Onboarding" replaces Next once the last step is reached. */
  predicate SubmitShown(s: FormState)
    ensures SubmitShown(s) <==> !NextShown(s)
  {
    !(s.currentStep < s.totalSteps)
  }

  // ---------------------------------------------------------------------
  // The form as a state machine driven by the user

  datatype Event =
    | Change(name: Field, value: string)
    | Finalize(name: Field)
    | ColorChange(key: ColorKey, color: string)
    | FileUpload
    | Next
    | Back

  /** The user can raise the event: its control is rendered and enabled. */
  predicate Enabled(s: FormState, e: Event)
    requires WellFormed(s)
    ensures Enabled(s, e) && (e.Change? || e.Finalize?) ==> InputEnabled(s, e.name)
    ensures Enabled(s, e) && e.Finalize? ==> e.name in s.values && s.values[e.name] != ""
    ensures Enabled(s, e) && (e.Next? || e.Back?) ==> Apply(s, e) != s
  {
    match e
    case Change(name, _) => InputEnabled(s, name)
    case Finalize(name) => FinalizeEnabled(s, name)
    case ColorChange(_, _) => BrandInputsShown(s)
    case FileUpload => BrandInputsShown(s)
    case Next => NextShown(s)
    case Back => BackShown(s)
  }

  function Apply(s: FormState, e: Event): FormState {
    match e
    case Change(name, value) => HandleChange(s, name, value)
    case Finalize(name) => HandleFinalizeField(s, name)
    case ColorChange(key, color) => HandleColorChange(s, key, color)
    case FileUpload => HandleFileUpload(s)
    case Next => NextStep(s)
    case Back => PrevStep(s)
  }

  /** The invariant of every state the user can reach: the maps stay total,
      the step stays within 1..3, a finalized field is never empty, and the
      contact phone, which has no input, is never finalized. */
  predicate Inv(s: FormState) {
    && WellFormed(s)
    && s.totalSteps == 3
    && 1 <= s.currentStep <= s.totalSteps
    && (forall f | f in AllFields :: s.fieldStatus[f] == Finalized ==> s.values[f] != "")
    && s.fieldStatus[ContactPhone] == InProgress
  }

  /** Every enabled event on a run of events. */
  predicate AllEnabled(s: FormState, events: seq<Event>)
    decreases |events|
  {
    events == [] || (WellFormed(s) && Enabled(s, events[0]) && AllEnabled(Apply(s, events[0]), events[1..]))
  }

  function Run(s: FormState, events: seq<Event>): FormState
    decreases |events|
  {
    if events == [] then s else Run(Apply(s, events[0]), events[1..])
  }

  lemma InitialSatisfiesInv()
    ensures Inv(Initial())
  {
  }

  /** nextStep and prevStep keep 1 <= currentStep <= totalSteps, whether or
      not their button is shown. */
  lemma StepStaysInRange(s: FormState)
    requires 1 <= s.currentStep <= s.totalSteps
    ensures 1 <= NextStep(s).currentStep <= NextStep(s).totalSteps
    ensures 1 <= PrevStep(s).currentStep <= PrevStep(s).totalSteps
  {
  }

  /** Next then Back, and Back then Next, return to the same page. */
  lemma NextAndBackAreInverse(s: FormState)
    ensures 1 <= s.currentStep < s.totalSteps ==> PrevStep(NextStep(s)) == s
    ensures s.currentStep > 1 && s.currentStep <= s.totalSteps ==> NextStep(PrevStep(s)) == s
  {
  }

  /** On the last step Next is a no-op, on the first Back is. */
  lemma StepsSaturate(s: FormState)
    ensures s.currentStep >= s.totalSteps ==> NextStep(s) == s
    ensures s.currentStep <= 1 ==> PrevStep(s) == s
  {
  }

  /** Exactly one of Next and Submit is offered; under the invariant Submit
      is offered exactly on the third step. */
  lemma SubmitExactlyOnLastStep(s: FormState)
    requires Inv(s)
    ensures SubmitShown(s) != NextShown(s)
    ensures SubmitShown(s) <==> s.currentStep == 3
  {
  }

  /** Finalizing twice is finalizing once; so is uploading the logo. */
  lemma HandlersIdempotent(s: FormState, name: Field)
    ensures HandleFinalizeField(HandleFinalizeField(s, name), name) == HandleFinalizeField(s, name)
    ensures HandleFileUpload(HandleFileUpload(s)) == HandleFileUpload(s)
  {
  }

  /** An edit after finalizing takes the field back to in-progress, and two
      edits in a row leave only the second value. */
  lemma ChangeResetsFinalize(s: FormState, name: Field, v1: string, v2: string)
    ensures HandleChange(HandleFinalizeField(s, name), name, v1).fieldStatus[name] == InProgress
    ensures HandleChange(HandleChange(s, name, v1), name, v2) == HandleChange(s, name, v2)
  {
  }

  /** Once finalized, a field offers neither its input nor its button. */
  lemma FinalizedFieldLocked(s: FormState, name: Field)
    requires WellFormed(s)
    ensures var r := HandleFinalizeField(s, name);
      WellFormed(r) && !InputEnabled(r, name) && !FinalizeEnabled(r, name)
  {
  }

  /** An edit through an enabled input keeps the invariant. */
  lemma ChangeKeepsInv(s: FormState, name: Field, value: string)
    requires Inv(s) && InputEnabled(s, name)
    ensures Inv(HandleChange(s, name, value))
  {
    assert name != ContactPhone;
  }

  /** Finalizing through an enabled button keeps the invariant. */
  lemma FinalizeKeepsInv(s: FormState, name: Field)
    requires Inv(s) && FinalizeEnabled(s, name)
    ensures Inv(HandleFinalizeField(s, name))
  {
    assert name != ContactPhone;
  }

  /** Any enabled event keeps the invariant. */
  lemma EnabledEventKeepsInv(s: FormState, e: Event)
    requires Inv(s) && Enabled(s, e)
    ensures Inv(Apply(s, e))
  {
    match e
    case Change(name, value) => ChangeKeepsInv(s, name, value);
    case Finalize(name) => FinalizeKeepsInv(s, name);
    case ColorChange(key, color) =>
    case FileUpload =>
    case Next =>
    case Back =>
  }

  /** Every state reachable through enabled events satisfies the invariant. */
  lemma {:induction false} RunKeepsInv(s: FormState, events: seq<Event>)
    requires Inv(s) && AllEnabled(s, events)
    ensures Inv(Run(s, events))
    decreases |events|
  {
    if events != [] {
      EnabledEventKeepsInv(s, events[0]);
      RunKeepsInv(Apply(s, events[0]), events[1..]);
    }
  }

  /** An enabled event never touches a finalized field: its value and its
      status stay. */
  lemma EnabledEventKeepsFinalized(s: FormState, e: Event, f: Field)
    requires Inv(s) && Enabled(s, e) && s.fieldStatus[f] == Finalized
    ensures var r := Apply(s, e);
      f in r.values && f in r.fieldStatus && r.values[f] == s.values[f] && r.fieldStatus[f] == Finalized
  {
    match e
    case Change(name, value) =>
      assert name != f;
    case Finalize(name) =>
    case ColorChange(key, color) =>
    case FileUpload =>
    case Next =>
    case Back =>
  }

  /** The point of finalizing: whatever the user does afterwards through the
      rendered controls, a finalized field keeps its value and its status. */
  lemma {:induction false} FinalizedValueFrozen(s: FormState, events: seq<Event>, f: Field)
    requires Inv(s) && AllEnabled(s, events) && s.fieldStatus[f] == Finalized
    ensures var r := Run(s, events);
      f in r.values && f in r.fieldStatus && r.values[f] == s.values[f] && r.fieldStatus[f] == Finalized
    decreases |events|
  {
    RunKeepsInv(s, events);
    if events != [] {
      EnabledEventKeepsInv(s, events[0]);
      EnabledEventKeepsFinalized(s, events[0], f);
      FinalizedValueFrozen(Apply(s, events[0]), events[1..], f);
    }
  }

}

/** The function component of OnboardingForm.tsx: one state cell that each
    handler replaces with `setFormState`. */
module OnboardingComponent {
  import opened OnboardingForm

  class Component {
    var formState: FormState

    constructor ()
      ensures formState == Initial()
    {
      formState := Initial();
    }

    method HandleChange(name: Field, value: string)
      modifies this
      ensures formState == OnboardingForm.HandleChange(old(formState), name, value)
    {
      formState := OnboardingForm.HandleChange(formState, name, value);
    }

    method HandleFinalizeField(name: Field)
      modifies this
      ensures formState == OnboardingForm.HandleFinalizeField(old(formState), name)
    {
      formState := OnboardingForm.HandleFinalizeField(formState, name);
    }

    method HandleColorChange(key: ColorKey, color: string)
      modifies this
      ensures formState == OnboardingForm.HandleColorChange(old(formState), key, color)
    {
      formState := OnboardingForm.HandleColorChange(formState, key, color);
    }

    method HandleFileUpload()
      modifies this
      ensures formState == OnboardingForm.HandleFileUpload(old(formState))
    {
      formState := OnboardingForm.HandleFileUpload(formState);
    }

    method NextStep()
      modifies this
      ensures formState == OnboardingForm.NextStep(old(formState))
    {
      if formState.currentStep < formState.totalSteps {
        formState := formState.(currentStep := formState.currentStep + 1);
      }
    }

    method PrevStep()
      modifies this
      ensures formState == OnboardingForm.PrevStep(old(formState))
    {
      if formState.currentStep > 1 {
        formState := formState.(currentStep := formState.currentStep - 1);
      }
    }
  }
}
