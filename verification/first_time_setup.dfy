/** The first-visit welcome dialog (src/components/first-time-setup.tsx): a
    gate read from storage on mount, three pages stepped through with
    Previous/Next, and Skip or Open Admin Panel, both of which remember the
    visit. */
module FirstTimeSetup {
  import opened Wrappers
  import opened Types
  import opened LocalStorage
  import PortfolioData

  const VisitedKey := "portfolio-visited"

  /** Read by the gate; nothing in the program ever writes it. */
  const CustomizedKey := "portfolio-customized"

  const VisitedFlag := Text("true")

  const AdminRoute := "/admin"

  /** The welcome, editing-options and ready pages. */
  const PageTitles := ["Welcome to Your Portfolio!", "Easy Editing Options", "Ready to Customize?"]

  /** `step` counts pages from 1. */
  datatype Gate = Gate(showSetup: bool, step: nat)

  const Initial := Gate(false, 1)

  predicate InRange(g: Gate)
  {
    1 <= g.step <= |PageTitles|
  }

  /** The mount effect: open the dialog when neither flag is stored (a
      stored empty string is falsy and counts as absent). */
  function Mount(st: Storage): (r: Gate)
    ensures InRange(r)
    ensures r.showSetup <==> !Present(st, VisitedKey) && !Present(st, CustomizedKey)
  {
    if !Present(st, VisitedKey) && !Present(st, CustomizedKey) then Initial.(showSetup := true) else Initial
  }

  /** The page title shown for the current step (`steps[step - 1]`). */
  function CurrentTitle(g: Gate): (r: string)
    requires InRange(g)
    ensures r in PageTitles
  {
    PageTitles[g.step - 1]
  }

  /** The gate after a click, the storage after it, and where the router
      was sent, if anywhere. */
  datatype Outcome = Outcome(gate: Gate, storage: Storage, route: Option<string>)

  /** `handleSkip`. The flag write throws for a key in `failing`, and then
      the dialog stays open. */
  function HandleSkip(g: Gate, st: Storage, failing: set<string>): (r: Outcome)
    ensures r.route.None? && r.gate.step == g.step
    ensures VisitedKey !in failing ==>
      !r.gate.showSetup && VisitedKey in r.storage && r.storage[VisitedKey] == VisitedFlag
    ensures VisitedKey !in failing ==> forall k :: k != VisitedKey ==> (k in r.storage <==> k in st)
    ensures VisitedKey !in failing ==> forall k :: k != VisitedKey && k in st ==> r.storage[k] == st[k]
    ensures VisitedKey in failing ==> r.gate == g && r.storage == st
  {
    match SetItem(st, VisitedKey, VisitedFlag, failing)
    case None => Outcome(g, st, None)
    case Some(st') => Outcome(g.(showSetup := false), st', None)
  }

  /** `handleComplete`: as Skip, and then off to the admin panel. */
  function HandleComplete(g: Gate, st: Storage, failing: set<string>): (r: Outcome)
    ensures r.gate.step == g.step
    ensures VisitedKey !in failing ==>
      !r.gate.showSetup && VisitedKey in r.storage && r.storage[VisitedKey] == VisitedFlag
      && r.route == Some(AdminRoute)
    ensures VisitedKey !in failing ==> forall k :: k != VisitedKey ==> (k in r.storage <==> k in st)
    ensures VisitedKey !in failing ==> forall k :: k != VisitedKey && k in st ==> r.storage[k] == st[k]
    ensures VisitedKey in failing ==> r.gate == g && r.storage == st && r.route.None?
  {
    match SetItem(st, VisitedKey, VisitedFlag, failing)
    case None => Outcome(g, st, None)
    case Some(st') => Outcome(g.(showSetup := false), st', Some(AdminRoute))
  }

  /** Once Skip or Complete has stored the flag, a later mount keeps the
      dialog closed. */
  lemma {:induction false} FinishedSetupStaysClosed(g: Gate, st: Storage, failing: set<string>)
    requires VisitedKey !in failing
    ensures !Mount(HandleSkip(g, st, failing).storage).showSetup
    ensures !Mount(HandleComplete(g, st, failing).storage).showSetup
  {
    assert Present(HandleSkip(g, st, failing).storage, VisitedKey);
    assert Present(HandleComplete(g, st, failing).storage, VisitedKey);
  }

  /** Resetting the portfolio data to the defaults does not bring the dialog
      back: the flag is not one of the section keys. */
  lemma {:induction false} ResetKeepsSetupClosed(baseline: Portfolio, s: PortfolioData.Store, st: Storage)
    requires Present(st, VisitedKey)
    ensures !Mount(PortfolioData.ClearAllData(baseline, s, st).1).showSetup
  {
    var st' := PortfolioData.ClearAllData(baseline, s, st).1;
    assert VisitedKey !in PortfolioData.SectionKeys;
    assert VisitedKey in st' && st'[VisitedKey] == st[VisitedKey];
  }

  datatype Button = PreviousButton | SkipButton | NextButton | CompleteButton

  /** The buttons on screen: none while the dialog is closed; otherwise Skip,
      Previous past the first page, and Next before the last page or Open
      Admin Panel on it. */
  function Buttons(g: Gate): (r: set<Button>)
    ensures !g.showSetup ==> r == {}
    ensures g.showSetup ==> SkipButton in r
    ensures PreviousButton in r <==> g.showSetup && g.step > 1
    ensures NextButton in r <==> g.showSetup && g.step < |PageTitles|
    ensures CompleteButton in r <==> g.showSetup && g.step >= |PageTitles|
  {
    if !g.showSetup then {}
    else
      {SkipButton}
      + (if g.step > 1 then {PreviousButton} else {})
      + (if g.step < 3 then {NextButton} else {CompleteButton})
  }

  /** A click on a button; a button that is not on screen cannot be
      clicked, so the click changes nothing. */
  function Click(g: Gate, st: Storage, failing: set<string>, b: Button): (r: Outcome)
    ensures b !in Buttons(g) ==> r == Outcome(g, st, None)
  {
    if b !in Buttons(g) then Outcome(g, st, None)
    else match b
      case PreviousButton => Outcome(g.(step := g.step - 1), st, None)
      case NextButton => Outcome(g.(step := g.step + 1), st, None)
      case SkipButton => HandleSkip(g, st, failing)
      case CompleteButton => HandleComplete(g, st, failing)
  }

  /** The dialog after a sequence of clicks (the route is dropped: a
      navigation unmounts nothing here). */
  function Clicks(g: Gate, st: Storage, failing: set<string>, bs: seq<Button>): (r: (Gate, Storage))
    decreases |bs|
  {
    if bs == [] then (g, st)
    else
      var o := Click(g, st, failing, bs[0]);
      Clicks(o.gate, o.storage, failing, bs[1..])
  }

  /** A single click keeps the page number within 1..3. */
  lemma {:induction false} ClickStaysInRange(g: Gate, st: Storage, failing: set<string>, b: Button)
    requires InRange(g)
    ensures InRange(Click(g, st, failing, b).gate)
  {
  }

  /** Any sequence of clicks keeps the page number within 1..3, so
      `steps[step - 1]` always names a page. */
  lemma {:induction false} StepStaysInRange(g: Gate, st: Storage, failing: set<string>, bs: seq<Button>)
    requires InRange(g)
    ensures InRange(Clicks(g, st, failing, bs).0)
    decreases |bs|
  {
    if bs != [] {
      var o := Click(g, st, failing, bs[0]);
      ClickStaysInRange(g, st, failing, bs[0]);
      StepStaysInRange(o.gate, o.storage, failing, bs[1..]);
    }
  }

  /** Once the dialog is closed no click reaches it: state and storage stay
      as they are. */
  lemma {:induction false} ClosedDialogIgnoresClicks(g: Gate, st: Storage, failing: set<string>, bs: seq<Button>)
    requires !g.showSetup
    ensures Clicks(g, st, failing, bs) == (g, st)
    decreases |bs|
  {
    if bs != [] {
      ClosedDialogIgnoresClicks(g, st, failing, bs[1..]);
    }
  }

  /** Two Nexts from the first page reach the Open Admin Panel button. */
  lemma {:induction false} TwoNextsReachComplete(st: Storage, failing: set<string>)
    requires !Present(st, VisitedKey) && !Present(st, CustomizedKey)
    ensures var g := Clicks(Mount(st), st, failing, [NextButton, NextButton]).0;
      CompleteButton in Buttons(g) && CurrentTitle(g) == "Ready to Customize?"
  {
    var bs := [NextButton, NextButton];
    assert bs[1..] == [NextButton] && bs[1..][1..] == [];
    var g1 := Click(Mount(st), st, failing, NextButton).gate;
    assert g1 == Gate(true, 2);
    assert Click(g1, st, failing, NextButton).gate == Gate(true, 3);
  }
}
