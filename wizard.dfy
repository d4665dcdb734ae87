/** The three-step task creation wizard: the draft it accumulates, the
    guarded Continue and unguarded Back transitions between its panels, the
    off-day checkboxes, and the validation that turns a draft into a task. */
module Wizard {
  import opened Text
  import opened Lists
  import opened Tasks
  import opened Notices

  /** The category a fresh draft starts with. */
  const RampCheck: string := "Ramp Check"

  /** The select value that asks for a typed-in category. */
  const Custom: string := "__custom__"

  /** Fewest off days a task may be created with. */
  const MinOffDays: nat := 3

  /** Panel 1 asks for the name, panel 2 for the category, panel 3 for the
      off days. */
  type Step = s: int | 1 <= s <= 3 witness 1

  /** The fields the wizard collects before it creates a task. */
  datatype Draft = Draft(candName: string, category: string, customCat: string, selectedDays: seq<string>)

  /** The draft on first render and after every successful creation. */
  const EmptyDraft: Draft := Draft("", RampCheck, "", [])

  /** The category a draft resolves to: the typed-in one, trimmed, for the
      custom choice, otherwise the chosen one. It is missing exactly when the
      custom choice has nothing but whitespace typed in, or when the chosen
      value itself is empty. */
  function ResolvedCategory(category: string, customCat: string): (r: string)
    ensures r == [] <==> (category == Custom && Blank(customCat)) || category == []
    ensures category == Custom ==> Trimmed(r) && |r| <= |customCat|
  {
    TrimEmptyIffBlank(customCat);
    if category == Custom then Trim(customCat) else category
  }

  /** Continue on the name panel (step 1) and on the category panel
      (step 2). It advances one panel when the panel's guard holds and
      otherwise stays with a notice: the name must not be all whitespace;
      the custom category, when chosen, must not be all whitespace. */
  function Continue(step: Step, d: Draft): (r: (Step, Notice))
    requires step == 1 || step == 2
    ensures r.0 == step || r.0 == step + 1
    ensures step == 1 ==> (r.0 == 2 <==> !Blank(d.candName))
    ensures step == 2 ==> (r.0 == 3 <==> !(d.category == Custom && Blank(d.customCat)))
    ensures r.0 == step + 1 ==> r.1 == Silent
    ensures r.0 == step ==> r.1 == if step == 1 then PleaseEnterCandidateName else PleaseEnterCustomCategory
  {
    TrimEmptyIffBlank(d.candName);
    TrimEmptyIffBlank(d.customCat);
    if step == 1 then
      if Trim(d.candName) == [] then (1, PleaseEnterCandidateName) else (2, Silent)
    else
      if d.category == Custom && Trim(d.customCat) == [] then (2, PleaseEnterCustomCategory) else (3, Silent)
  }

  /** Back on any panel: to the previous panel, and on the first panel to
      itself. It never moves forward and stays put only on the first panel. */
  function Back(step: Step): (r: Step)
    ensures 1 <= r <= step
    ensures r == step <==> step == 1
    ensures step > 1 ==> r == step - 1
  {
    if step == 3 then 2 else 1
  }

  /** Back undoes a Continue that advanced. */
  lemma BackAfterContinue(step: Step, d: Draft)
    requires step == 1 || step == 2
    requires Continue(step, d).0 != step
    ensures Back(Continue(step, d).0) == step
  {
  }

  /** What Create Task does with a draft: a new task, or the reason it is
      refused. */
  datatype Submission = Created(task: Task) | Rejected(notice: Notice)

  /** The checks and the record of createTask, given the id the page draws
      from the clock and the weekday code of today. A created task carries
      the trimmed name and the off days in selection order, is off today
      exactly when today is among them, and has no category; SubmitChecks
      states when and why a draft is refused. */
  function Submit(d: Draft, newId: string, today: string): (r: Submission)
    ensures r.Created? ==> r.task.id == newId && r.task.candidateName == Trim(d.candName) &&
                           r.task.offDays == d.selectedDays && r.task.isOffToday == (today in d.selectedDays)
    ensures r.Created? ==> WellFormed(r.task, today)
  {
    var name := Trim(d.candName);
    var cat := ResolvedCategory(d.category, d.customCat);
    if name == [] then Rejected(EnterCandidateName)
    else if cat == [] then Rejected(SelectCategory)
    else if |d.selectedDays| < MinOffDays then Rejected(PickOffDays)
    else Created(Task(newId, name, d.selectedDays, today in d.selectedDays))
  }

  /** The checks of createTask come in a fixed order, the first failing one
      naming the notice: a name that is all whitespace, then a missing
      category, then fewer than three off days; a draft passing all three is
      accepted. */
  lemma SubmitChecks(d: Draft, newId: string, today: string)
    ensures var r := Submit(d, newId, today);
            && (r == Rejected(EnterCandidateName) <==> Blank(d.candName))
            && (r == Rejected(SelectCategory) <==>
                !Blank(d.candName) && ((d.category == Custom && Blank(d.customCat)) || d.category == []))
            && (r == Rejected(PickOffDays) <==>
                !Blank(d.candName) && !((d.category == Custom && Blank(d.customCat)) || d.category == []) &&
                |d.selectedDays| < MinOffDays)
            && (r.Rejected? ==> r.notice in {EnterCandidateName, SelectCategory, PickOffDays})
  {
    TrimEmptyIffBlank(d.candName);
  }

  /** The checkbox filter `d => d !== value`. */
  function DayIsNot(value: string): string -> bool {
    (d: string) => d != value
  }

  /** A day checkbox changing to `checked`: on appends the day at the end of
      the selection, off removes every occurrence of it and keeps the others
      in order (the filter, whose order and counts `FilterConcat` and
      `FilterCount` state). */
  function ToggleDay(days: seq<string>, value: string, checked: bool): (r: seq<string>)
    ensures checked ==> r == days + [value]
    ensures !checked ==> r == Filter(days, DayIsNot(value))
    ensures !checked ==> value !in r && forall x :: x in days && x != value ==> x in r
    ensures !checked ==> forall x :: x in r ==> x in days
  {
    if checked then days + [value]
    else
      var r := Filter(days, DayIsNot(value));
      forall x ensures x in r <==> x in days && x != value {
        FilterMember(days, DayIsNot(value), x);
      }
      r
  }

  /** The checkbox shows `selectedDays.includes(value)`, so it turns on only
      for an absent day; toggled that way, the selection never holds a day
      twice. */
  lemma ToggleKeepsNoDuplicates(days: seq<string>, value: string, checked: bool)
    requires NoDuplicates(days)
    requires checked ==> value !in days
    ensures NoDuplicates(ToggleDay(days, value, checked))
  {
    if checked {
      var r := days + [value];
      forall i, j | 0 <= i < j < |r| ensures r[i] != r[j] {
        if j == |days| { assert r[i] == days[i]; } else { assert r[i] == days[i] && r[j] == days[j]; }
      }
    } else {
      FilterNoDuplicates(days, DayIsNot(value));
    }
  }

  /** Ticking an absent day and unticking it again gives back the selection. */
  lemma ToggleOnThenOff(days: seq<string>, value: string)
    requires value !in days
    ensures ToggleDay(ToggleDay(days, value, true), value, false) == days
  {
    FilterConcat(days, [value], DayIsNot(value));
    forall j | 0 <= j < |days| ensures DayIsNot(value)(days[j]) {
      assert days[j] in days;
    }
    FilterKeepsAll(days, DayIsNot(value));
    assert Filter([value], DayIsNot(value)) == [];
  }

  /** A two-day selection: Jane with the default
      category and two off days is refused for the off days. */
  lemma TwoDaysRefused(newId: string, today: string)
    ensures Submit(Draft("Jane", RampCheck, "", ["MON", "WED"]), newId, today) == Rejected(PickOffDays)
  {
    var d := Draft("Jane", RampCheck, "", ["MON", "WED"]);
    assert !IsSpace(d.candName[0]);
    assert d.category != Custom && d.category != [];
  }

  /** And Jane with the custom choice and nothing typed in cannot leave the
      category panel. */
  lemma BlankCustomStays()
    ensures Continue(2, Draft("Jane", Custom, "", [])) == (2, PleaseEnterCustomCategory)
  {
  }
}
