/** The four-step setup wizard (src/components/setup-wizard.tsx): a step
    counter bounded by the step list, a partial portfolio draft edited by
    shallow merges, and the completion that turns the draft into a whole
    portfolio. */
module SetupWizard {
  import opened Wrappers
  import opened Types
  import opened LocalStorage
  import opened PortfolioData

  /** Personal Info, Contact, Preferences, Complete. */
  const StepCount: nat := 4

  /** `steps.length - 1`, the Complete step. */
  const LastStep: nat := StepCount - 1

  /** `Partial<Portfolio>`: the two records are always set by the wizard;
      the four collections are optional. */
  datatype Draft = Draft(
    personalInfo: PersonalInfo,
    contact: Contact,
    projects: Option<seq<Project>>,
    skills: Option<seq<Skill>>,
    experience: Option<seq<Experience>>,
    education: Option<seq<Education>>)

  datatype Wizard = Wizard(step: nat, draft: Draft)

  const BlankPersonalInfo := PersonalInfo("", "", "", "", "", "", 0)

  const BlankContact := Contact("", None, "", None, None, None, None, None)

  /** The state on mount. */
  const Initial := Wizard(0, Draft(BlankPersonalInfo, BlankContact, Some([]), Some([]), Some([]), Some([])))

  predicate InRange(w: Wizard)
  {
    w.step <= LastStep
  }

  /** `nextStep`: a no-op on the last step. */
  function NextStep(w: Wizard): (r: Wizard)
    ensures r.draft == w.draft
    ensures w.step < LastStep ==> r.step == w.step + 1
    ensures w.step >= LastStep ==> r == w
  {
    if w.step < LastStep then w.(step := w.step + 1) else w
  }

  /** `prevStep`: a no-op on the first step. */
  function PrevStep(w: Wizard): (r: Wizard)
    ensures r.draft == w.draft
    ensures w.step > 0 ==> r.step == w.step - 1
    ensures w.step == 0 ==> r == w
  {
    if w.step > 0 then w.(step := w.step - 1) else w
  }

  /** Previous undoes Next wherever Next moves, and the other way round. */
  lemma {:induction false} PrevUndoesNext(w: Wizard)
    ensures w.step < LastStep ==> PrevStep(NextStep(w)) == w
    ensures 0 < w.step <= LastStep ==> NextStep(PrevStep(w)) == w
  {
  }

  /** `updatePersonalInfo(updates)`: `{ ...prev.personalInfo, ...updates }`. */
  function UpdatePersonalInfo(w: Wizard, p: PersonalInfoPatch): (r: Wizard)
    ensures r.step == w.step
    ensures r.draft == w.draft.(personalInfo := r.draft.personalInfo)
    ensures p.name.Some? ==> r.draft.personalInfo.name == p.name.value
    ensures p.name.None? ==> r.draft.personalInfo.name == w.draft.personalInfo.name
    ensures p.title.Some? ==> r.draft.personalInfo.title == p.title.value
    ensures p.title.None? ==> r.draft.personalInfo.title == w.draft.personalInfo.title
    ensures p.bio.Some? ==> r.draft.personalInfo.bio == p.bio.value
    ensures p.bio.None? ==> r.draft.personalInfo.bio == w.draft.personalInfo.bio
    ensures p.tagline.Some? ==> r.draft.personalInfo.tagline == p.tagline.value
    ensures p.tagline.None? ==> r.draft.personalInfo.tagline == w.draft.personalInfo.tagline
    ensures p.yearsOfExperience.Some? ==> r.draft.personalInfo.yearsOfExperience == p.yearsOfExperience.value
    ensures p.yearsOfExperience.None? ==> r.draft.personalInfo.yearsOfExperience == w.draft.personalInfo.yearsOfExperience
    ensures p.avatar.Some? ==> r.draft.personalInfo.avatar == p.avatar.value
    ensures p.avatar.None? ==> r.draft.personalInfo.avatar == w.draft.personalInfo.avatar
    ensures p.resume.Some? ==> r.draft.personalInfo.resume == p.resume.value
    ensures p.resume.None? ==> r.draft.personalInfo.resume == w.draft.personalInfo.resume
  {
    w.(draft := w.draft.(personalInfo := MergePersonalInfo(w.draft.personalInfo, p)))
  }

  /** `updateContact(updates)`: `{ ...prev.contact, ...updates }`. */
  function UpdateContact(w: Wizard, p: ContactPatch): (r: Wizard)
    ensures r.step == w.step
    ensures r.draft == w.draft.(contact := r.draft.contact)
    ensures p.email.Some? ==> r.draft.contact.email == p.email.value
    ensures p.email.None? ==> r.draft.contact.email == w.draft.contact.email
    ensures p.location.Some? ==> r.draft.contact.location == p.location.value
    ensures p.location.None? ==> r.draft.contact.location == w.draft.contact.location
    ensures p.phone.Some? ==> r.draft.contact.phone == p.phone
    ensures p.phone.None? ==> r.draft.contact.phone == w.draft.contact.phone
    ensures p.linkedin.Some? ==> r.draft.contact.linkedin == p.linkedin
    ensures p.linkedin.None? ==> r.draft.contact.linkedin == w.draft.contact.linkedin
    ensures p.github.Some? ==> r.draft.contact.github == p.github
    ensures p.github.None? ==> r.draft.contact.github == w.draft.contact.github
    ensures p.website.Some? ==> r.draft.contact.website == p.website
    ensures p.website.None? ==> r.draft.contact.website == w.draft.contact.website
    ensures p.twitter.Some? ==> r.draft.contact.twitter == p.twitter
    ensures p.twitter.None? ==> r.draft.contact.twitter == w.draft.contact.twitter
    ensures p.instagram.Some? ==> r.draft.contact.instagram == p.instagram
    ensures p.instagram.None? ==> r.draft.contact.instagram == w.draft.contact.instagram
  {
    w.(draft := w.draft.(contact := MergeContact(w.draft.contact, p)))
  }

  /** The patch that applies `p` and then `q`: `q` wins where both speak. */
  function ThenPersonal(p: PersonalInfoPatch, q: PersonalInfoPatch): PersonalInfoPatch
  {
    PersonalInfoPatch(
      q.name.Or(p.name), q.title.Or(p.title), q.bio.Or(p.bio), q.avatar.Or(p.avatar),
      q.resume.Or(p.resume), q.tagline.Or(p.tagline), q.yearsOfExperience.Or(p.yearsOfExperience))
  }

  function ThenContact(p: ContactPatch, q: ContactPatch): ContactPatch
  {
    ContactPatch(
      q.email.Or(p.email), q.phone.Or(p.phone), q.location.Or(p.location), q.linkedin.Or(p.linkedin),
      q.github.Or(p.github), q.website.Or(p.website), q.twitter.Or(p.twitter), q.instagram.Or(p.instagram))
  }

  /** Two successive personal-info updates are one merged update, and
      repeating an update changes nothing. */
  lemma {:induction false} PersonalUpdatesCompose(w: Wizard, p: PersonalInfoPatch, q: PersonalInfoPatch)
    ensures UpdatePersonalInfo(UpdatePersonalInfo(w, p), q) == UpdatePersonalInfo(w, ThenPersonal(p, q))
    ensures UpdatePersonalInfo(UpdatePersonalInfo(w, p), p) == UpdatePersonalInfo(w, p)
  {
  }

  /** Two successive contact updates are one merged update, and repeating
      an update changes nothing. */
  lemma {:induction false} ContactUpdatesCompose(w: Wizard, p: ContactPatch, q: ContactPatch)
    ensures UpdateContact(UpdateContact(w, p), q) == UpdateContact(w, ThenContact(p, q))
    ensures UpdateContact(UpdateContact(w, p), p) == UpdateContact(w, p)
  {
  }

  /** `handleComplete`: the two records pass through as they are, and an
      absent collection becomes `[]`. */
  function HandleComplete(d: Draft): (r: Portfolio)
    ensures r.personalInfo == d.personalInfo && r.contact == d.contact
    ensures d.projects.Some? ==> r.projects == d.projects.value
    ensures d.projects.None? ==> r.projects == []
    ensures d.skills.Some? ==> r.skills == d.skills.value
    ensures d.skills.None? ==> r.skills == []
    ensures d.experience.Some? ==> r.experience == d.experience.value
    ensures d.experience.None? ==> r.experience == []
    ensures d.education.Some? ==> r.education == d.education.value
    ensures d.education.None? ==> r.education == []
  {
    Portfolio(
      d.personalInfo, d.projects.GetOr([]), d.skills.GetOr([]),
      d.experience.GetOr([]), d.education.GetOr([]), d.contact)
  }

  /** What the user can do while the wizard is open. */
  datatype Action =
    | Next
    | Previous
    | EditPersonal(personal: PersonalInfoPatch)
    | EditContact(contactPatch: ContactPatch)

  function Apply(w: Wizard, a: Action): (r: Wizard)
    ensures r.draft.projects == w.draft.projects && r.draft.skills == w.draft.skills
    ensures r.draft.experience == w.draft.experience && r.draft.education == w.draft.education
  {
    match a
    case Next => NextStep(w)
    case Previous => PrevStep(w)
    case EditPersonal(p) => UpdatePersonalInfo(w, p)
    case EditContact(p) => UpdateContact(w, p)
  }

  function Run(w: Wizard, acts: seq<Action>): Wizard
    decreases |acts|
  {
    if acts == [] then w else Run(Apply(w, acts[0]), acts[1..])
  }

  /** The step stays within 0..3 under any sequence of actions. */
  lemma {:induction false} StepStaysInRange(w: Wizard, acts: seq<Action>)
    requires InRange(w)
    ensures InRange(Run(w, acts))
    decreases |acts|
  {
    if acts != [] {
      StepStaysInRange(Apply(w, acts[0]), acts[1..]);
    }
  }

  /** No action touches the draft's collections. */
  lemma {:induction false} RunKeepsCollections(w: Wizard, acts: seq<Action>)
    ensures var r := Run(w, acts);
      r.draft.projects == w.draft.projects && r.draft.skills == w.draft.skills
      && r.draft.experience == w.draft.experience && r.draft.education == w.draft.education
    decreases |acts|
  {
    if acts != [] {
      RunKeepsCollections(Apply(w, acts[0]), acts[1..]);
    }
  }

  /** However the wizard was used, completing it yields a portfolio with no
      projects, skills, experience or education. */
  lemma {:induction false} CompletedPortfolioIsEmpty(acts: seq<Action>)
    ensures var p := HandleComplete(Run(Initial, acts).draft);
      p.projects == [] && p.skills == [] && p.experience == [] && p.education == []
  {
    RunKeepsCollections(Initial, acts);
  }

  /** Completing without any edit yields the blank records. */
  lemma {:induction false} CompleteAtOnce()
    ensures var p := HandleComplete(Initial.draft);
      p.personalInfo.name == "" && p.personalInfo.yearsOfExperience == 0
      && p.contact.email == "" && p.contact.location == "" && p.contact.phone.None?
  {
  }

  /** The buttons rendered for a step: the navigation row while step < 3
      (Previous only past the first step, Next labelled "Finish" on step 2),
      and Complete Setup on the last step. */
  datatype Controls = Controls(previous: bool, skip: bool, next: Option<string>, complete: bool)

  function ControlsOf(w: Wizard): (r: Controls)
    ensures r.next.Some? <==> w.step < LastStep
    ensures r.skip <==> w.step < LastStep
    ensures r.previous <==> 0 < w.step < LastStep
    ensures r.complete <==> w.step == LastStep
  {
    var nav := w.step < 3;
    Controls(
      nav && w.step > 0,
      nav,
      if nav then Some(if w.step == 2 then "Finish" else "Next") else None,
      w.step == 3)
  }

  /** On every reachable step exactly one of Next and Complete is shown, a
      shown Next or Previous button always moves, and Finish leads to the
      Complete step. */
  lemma {:induction false} VisibleButtonsMove(w: Wizard)
    requires InRange(w)
    ensures ControlsOf(w).next.Some? != ControlsOf(w).complete
    ensures ControlsOf(w).next.Some? ==> NextStep(w).step == w.step + 1
    ensures ControlsOf(w).previous ==> PrevStep(w).step + 1 == w.step
    ensures ControlsOf(w).next == Some("Finish") ==> ControlsOf(NextStep(w)).complete
  {
  }

  /** Three clicks on Next from the start reach the Complete step. */
  lemma {:induction false} ThreeNextsComplete()
    ensures ControlsOf(Run(Initial, [Next, Next, Next])).complete
  {
    var acts := [Next, Next, Next];
    assert acts[1..] == [Next, Next] && acts[1..][1..] == [Next] && acts[1..][1..][1..] == [];
  }
}
