/** The page's component state and its event handlers. Each React state
    variable is a field; each handler is a method that updates the fields it
    sets and returns the notification it shows. */
module TaskManager {
  import opened Text
  import opened Tasks
  import opened Notices
  import opened Wizard
  import AdminGate
  import Lists

  /** The whole state at one moment, for stating what a handler changes. */
  datatype State = State(open: seq<Task>, done: seq<Task>, isAdmin: bool, adminPass: string,
                         step: Step, draft: Draft)

  class App {
    var openTasks: seq<Task>
    var doneTasks: seq<Task>
    var isAdmin: bool
    var adminPass: string
    var step: Step
    var candName: string
    var category: string
    var customCat: string
    var selectedDays: seq<string>

    /** The weekday code of the day the page was mounted; computed once. */
    const todayDay: string

    function CurrentDraft(): Draft
      reads this
    {
      Draft(candName, category, customCat, selectedDays)
    }

    ghost function Snapshot(): State
      reads this
    {
      State(openTasks, doneTasks, isAdmin, adminPass, step, CurrentDraft())
    }

    /** Every stored task is as the page produces it on `todayDay`. */
    ghost predicate Valid()
      reads this
    {
      AllWellFormed(openTasks, todayDay) && AllWellFormed(doneTasks, todayDay)
    }

    /** Each task, by its id, is in exactly one of the two lists, once. */
    ghost predicate IdsSeparate()
      reads this
    {
      Separate(openTasks, doneTasks)
    }

    /** First render, `weekday` being `new Date().getDay()`: both lists empty
        (they are still loading), not an admin, the wizard on its first panel
        with an empty draft. */
    constructor (weekday: nat)
      requires weekday < |DayMap|
      ensures todayDay == DayMap[weekday]
      ensures Snapshot() == State([], [], false, "", 1, EmptyDraft)
      ensures Valid() && IdsSeparate()
    {
      todayDay := DayMap[weekday];
      openTasks, doneTasks := [], [];
      isAdmin, adminPass := false, "";
      step := 1;
      candName, category, customCat, selectedDays := "", RampCheck, "", [];
    }

    /** The first seeding timer: the open list becomes the open demo records. */
    method SeedOpen()
      requires Valid()
      modifies this
      ensures Valid()
      ensures Snapshot() == old(Snapshot()).(open := DemoOpen(todayDay))
      ensures old(DistinctIds(doneTasks)) && "T_001" !in old(Ids(doneTasks)) && "T_002" !in old(Ids(doneTasks))
              ==> IdsSeparate()
    {
      DemoWellFormed(todayDay);
      openTasks := DemoOpen(todayDay);
      DemoIdsSeparate(openTasks, doneTasks);
    }

    /** The second seeding timer: the completed list becomes the completed
        demo record. */
    method SeedDone()
      requires Valid()
      modifies this
      ensures Valid()
      ensures Snapshot() == old(Snapshot()).(done := DemoDone(todayDay))
      ensures old(DistinctIds(openTasks)) && "T_003" !in old(Ids(openTasks)) ==> IdsSeparate()
    {
      DemoWellFormed(todayDay);
      doneTasks := DemoDone(todayDay);
      if DistinctIds(openTasks) && "T_003" !in Ids(openTasks) {
        assert Ids(doneTasks) == {"T_003"} by {
          assert doneTasks[0] in doneTasks;
        }
      }
    }

    /** The second seeding timer as it would keep what happened before it
        fires, `setDoneTasks(prev => [...demoDone, ...prev])`: the completed
        demo record goes in front of the completed list instead of replacing
        it, so no task is lost. */
    method SeedDoneKeeping()
      requires Valid()
      modifies this
      ensures Valid()
      ensures Snapshot() == old(Snapshot()).(done := DemoDone(todayDay) + old(doneTasks))
      ensures forall t :: t in old(openTasks) || t in old(doneTasks) ==> t in openTasks || t in doneTasks
      ensures old(IdsSeparate()) && "T_003" !in old(Ids(openTasks)) && "T_003" !in old(Ids(doneTasks))
              ==> IdsSeparate()
    {
      var c := Chris(todayDay);
      AddKeepsWellFormed(c, doneTasks, todayDay);
      CreateKeepsSeparate(c, doneTasks, openTasks);
      doneTasks := [c] + doneTasks;
    }

    /** completeTask: the first open task with the id moves to the head of
        the completed list; with no such task nothing changes. The count of
        all tasks is kept, and so is the separation of the lists. */
    method CompleteTask(id: string) returns (n: Notice)
      requires Valid()
      modifies this
      ensures Valid()
      ensures Snapshot() == old(Snapshot()).(open := Move(old(openTasks), old(doneTasks), id).0,
                                             done := Move(old(openTasks), old(doneTasks), id).1)
      ensures |openTasks| + |doneTasks| == old(|openTasks| + |doneTasks|)
      ensures old(IdsSeparate()) ==> IdsSeparate()
      ensures n == TaskCompleted
    {
      var r := Move(openTasks, doneTasks, id);
      MoveKeepsWellFormed(openTasks, doneTasks, id, todayDay);
      if Separate(openTasks, doneTasks) {
        MovePreservesSeparate(openTasks, doneTasks, id);
      }
      openTasks, doneTasks := r.0, r.1;
      n := TaskCompleted;
    }

    /** undoTask: the first completed task with the id moves back to the
        head of the open list; with no such task nothing changes. */
    method UndoTask(id: string) returns (n: Notice)
      requires Valid()
      modifies this
      ensures Valid()
      ensures Snapshot() == old(Snapshot()).(open := Move(old(doneTasks), old(openTasks), id).1,
                                             done := Move(old(doneTasks), old(openTasks), id).0)
      ensures |openTasks| + |doneTasks| == old(|openTasks| + |doneTasks|)
      ensures old(IdsSeparate()) ==> IdsSeparate()
      ensures n == TaskMovedBack
    {
      var r := Move(doneTasks, openTasks, id);
      MoveKeepsWellFormed(doneTasks, openTasks, id, todayDay);
      if Separate(openTasks, doneTasks) {
        MovePreservesSeparate(doneTasks, openTasks, id);
      }
      doneTasks, openTasks := r.0, r.1;
      n := TaskMovedBack;
    }

    /** The admin Delete button: every open task with the id is dropped,
        the completed list is untouched. */
    method DeleteTask(id: string) returns (n: Notice)
      requires Valid()
      modifies this
      ensures Valid()
      ensures Snapshot() == old(Snapshot()).(open := DeleteById(old(openTasks), id))
      ensures id !in Ids(openTasks)
      ensures old(IdsSeparate()) ==> IdsSeparate()
      ensures n == TaskDeleted
    {
      if Separate(openTasks, doneTasks) {
        DeletePreservesSeparate(openTasks, doneTasks, id);
      }
      openTasks := DeleteById(openTasks, id);
      n := TaskDeleted;
    }

    /** Typing in the password field. */
    method EditPassword(text: string)
      modifies this
      ensures Snapshot() == old(Snapshot()).(adminPass := text)
    {
      adminPass := text;
    }

    /** onAdminLogin: admin exactly when the trimmed entry is the password;
        a wrong entry changes nothing, and nothing ever revokes admin. */
    method Login() returns (n: Notice)
      modifies this
      ensures AdminGate.Accepts(old(adminPass)) ==> Snapshot() == old(Snapshot()).(isAdmin := true) && n == WelcomeAdmin
      ensures !AdminGate.Accepts(old(adminPass)) ==> Snapshot() == old(Snapshot()) && n == IncorrectPassword
    {
      if AdminGate.Accepts(adminPass) {
        isAdmin := true;
        n := WelcomeAdmin;
      } else {
        n := IncorrectPassword;
      }
    }

    /** Typing in the candidate name field. */
    method EditCandName(text: string)
      modifies this
      ensures Snapshot() == old(Snapshot()).(draft := old(CurrentDraft()).(candName := text))
    {
      candName := text;
    }

    /** Choosing from the category select. */
    method ChooseCategory(value: string)
      modifies this
      ensures Snapshot() == old(Snapshot()).(draft := old(CurrentDraft()).(category := value))
    {
      category := value;
    }

    /** Typing in the custom category field. */
    method EditCustomCat(text: string)
      modifies this
      ensures Snapshot() == old(Snapshot()).(draft := old(CurrentDraft()).(customCat := text))
    {
      customCat := text;
    }

    /** The Continue button of the name or the category panel (the
        off-days panel has Create Task instead). */
    method ContinueStep() returns (n: Notice)
      requires step == 1 || step == 2
      modifies this
      ensures Snapshot() == old(Snapshot()).(step := Continue(old(step), old(CurrentDraft())).0)
      ensures n == Continue(old(step), old(CurrentDraft())).1
    {
      if step == 1 {
        if Trim(candName) == [] {
          n := PleaseEnterCandidateName;
          return;
        }
        step := 2;
      } else {
        if category == Custom && Trim(customCat) == [] {
          n := PleaseEnterCustomCategory;
          return;
        }
        step := 3;
      }
      n := Silent;
    }

    /** The Back button of the panel shown. */
    method BackStep()
      modifies this
      ensures Snapshot() == old(Snapshot()).(step := Back(old(step)))
    {
      if step == 3 {
        step := 2;
      } else {
        step := 1;
      }
    }

    /** A day checkbox changing to `checked`. Only the selection changes;
        ticking only absent days keeps it free of repeats. */
    method CheckDay(value: string, checked: bool)
      modifies this
      ensures Snapshot() == old(Snapshot()).(draft := old(CurrentDraft()).(selectedDays := ToggleDay(old(selectedDays), value, checked)))
      ensures old(Lists.NoDuplicates(selectedDays)) && (checked ==> value !in old(selectedDays))
              ==> Lists.NoDuplicates(selectedDays)
    {
      if Lists.NoDuplicates(selectedDays) && (checked ==> value !in selectedDays) {
        ToggleKeepsNoDuplicates(selectedDays, value, checked);
      }
      selectedDays := ToggleDay(selectedDays, value, checked);
    }

    /** createTask with `newId` for `T_${Date.now()}`. A refused draft
        changes nothing and names the first failed check; an accepted one
        puts the new task at the head of the open list, leaves the completed
        list alone and resets the wizard to its first panel and an empty
        draft. A fresh id keeps the lists separate. */
    method CreateTask(newId: string) returns (n: Notice)
      requires Valid()
      modifies this
      ensures Valid()
      ensures var s := Submit(old(CurrentDraft()), newId, todayDay);
              s.Rejected? ==> n == s.notice && Snapshot() == old(Snapshot())
      ensures var s := Submit(old(CurrentDraft()), newId, todayDay);
              s.Created? ==> n == TaskCreated &&
                             Snapshot() == old(Snapshot()).(open := [s.task] + old(openTasks), step := 1, draft := EmptyDraft)
      ensures old(IdsSeparate()) && newId !in old(Ids(openTasks)) && newId !in old(Ids(doneTasks)) ==> IdsSeparate()
    {
      var s := Submit(CurrentDraft(), newId, todayDay);
      if s.Rejected? {
        n := s.notice;
      } else {
        AddAndReset(s.task);
        n := TaskCreated;
      }
    }

    /** The state updates of an accepted createTask, in the order the page
        makes them: the task goes to the head of the open list, then the
        wizard goes back to its first panel with an empty draft. */
    method AddAndReset(t: Task)
      requires Valid() && WellFormed(t, todayDay)
      modifies this
      ensures Valid()
      ensures Snapshot() == old(Snapshot()).(open := [t] + old(openTasks), step := 1, draft := EmptyDraft)
      ensures old(IdsSeparate()) && t.id !in old(Ids(openTasks)) && t.id !in old(Ids(doneTasks)) ==> IdsSeparate()
    {
      CreateKeepsSeparate(t, openTasks, doneTasks);
      AddKeepsWellFormed(t, openTasks, todayDay);
      openTasks := [t] + openTasks;
      step := 1;
      candName, category, customCat, selectedDays := "", RampCheck, "", [];
    }
  }

  /** A move keeps every task of the two lists well formed. */
  lemma MoveKeepsWellFormed(source: seq<Task>, target: seq<Task>, id: string, today: string)
    requires AllWellFormed(source, today) && AllWellFormed(target, today)
    ensures var r := Move(source, target, id); AllWellFormed(r.0, today) && AllWellFormed(r.1, today)
  {
    var r := Move(source, target, id);
    forall t | t in r.0 || t in r.1 ensures WellFormed(t, today) {
      MoveMembers(source, target, id, t);
    }
  }

  lemma AddKeepsWellFormed(t: Task, s: seq<Task>, today: string)
    requires WellFormed(t, today) && AllWellFormed(s, today)
    ensures AllWellFormed([t] + s, today)
  {
  }

  /** A new task with an id in neither list keeps the lists separate. */
  lemma CreateKeepsSeparate(t: Task, open: seq<Task>, done: seq<Task>)
    ensures Separate(open, done) && t.id !in Ids(open) && t.id !in Ids(done) ==> Separate([t] + open, done)
  {
    if Separate(open, done) && t.id !in Ids(open) && t.id !in Ids(done) {
      DistinctIdsCons(t, open);
      assert Ids([t] + open) == {t.id} + Ids(open) by {
        forall x ensures x in Ids([t] + open) <==> x == t.id || x in Ids(open) {
          if x in Ids(open) {
            var u :| u in open && u.id == x;
            assert u in [t] + open;
          }
        }
      }
    }
  }

  /** The demo open records beside a completed list that holds neither of
      their ids keep the lists separate. */
  lemma DemoIdsSeparate(open: seq<Task>, done: seq<Task>)
    requires |open| == 2 && open[0].id == "T_001" && open[1].id == "T_002"
    ensures DistinctIds(done) && "T_001" !in Ids(done) && "T_002" !in Ids(done) ==> Separate(open, done)
  {
    assert Ids(open) == {"T_001", "T_002"} by {
      forall x ensures x in Ids(open) <==> x == "T_001" || x == "T_002" {
        if x == "T_001" { assert open[0] in open; }
        if x == "T_002" { assert open[1] in open; }
      }
    }
  }

  /** A task has exactly its own id. */
  lemma IdsSingleton(t: Task)
    ensures Ids([t]) == {t.id}
  {
    assert t in [t];
  }

  /** Completing Alex's task once the open list is seeded, whatever the
      completed list holds: Maya is left open and Alex heads the completed
      list. */
  lemma CompleteAfterOpenSeeded(today: string, done: seq<Task>)
    ensures Move(DemoOpen(today), done, "T_001") == ([Maya(today)], [Alex(today)] + done)
  {
    assert [Alex(today), Maya(today)] == [Alex(today)] + [Maya(today)];
    CompleteUndoHead(Alex(today), [Maya(today)], done);
  }

  /** The page as written: open seeded at 500 ms, Complete on Alex, done
      seeded at 700 ms. The second timer overwrites the completed list, so
      Alex's task is in neither list afterwards. */
  method SeedRace(weekday: nat) returns (open: seq<Task>, done: seq<Task>)
    requires weekday < |DayMap|
    ensures Alex(DayMap[weekday]) !in open && Alex(DayMap[weekday]) !in done
  {
    var app := new App(weekday);
    app.SeedOpen();
    CompleteAfterOpenSeeded(app.todayDay, app.doneTasks);
    var n := app.CompleteTask("T_001");
    app.SeedDone();
    open, done := app.openTasks, app.doneTasks;
    assert open == [Maya(app.todayDay)] && done == [Chris(app.todayDay)];
  }

  /** The same events with the keeping second timer: Alex's task is in the
      completed list and every id is still in exactly one list. */
  method SeedRaceKept(weekday: nat) returns (open: seq<Task>, done: seq<Task>)
    requires weekday < |DayMap|
    ensures Alex(DayMap[weekday]) in done
    ensures Separate(open, done)
  {
    var app := new App(weekday);
    app.SeedOpen();
    CompleteAfterOpenSeeded(app.todayDay, app.doneTasks);
    var n := app.CompleteTask("T_001");
    assert [Alex(app.todayDay)] + [] == [Alex(app.todayDay)];
    IdsSingleton(Maya(app.todayDay));
    IdsSingleton(Alex(app.todayDay));
    app.SeedDoneKeeping();
    open, done := app.openTasks, app.doneTasks;
    assert done == [Chris(app.todayDay), Alex(app.todayDay)];
  }
}
