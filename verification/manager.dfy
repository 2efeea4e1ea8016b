/** The task manager: the list of entries the page holds, the commands that
    change it, and the places where it is written to local storage and where
    the statistics and the "no tasks" message are brought up to date.
 */
module Manager {
  import opened ArrayOps
  import opened Tasks
  import opened Text

  class TaskManager {
    /** The entries, in insertion (= display) order. */
    var tasks: seq<Task>
    /** The numbers last written to the total, pending and completed counters. */
    var shownStats: Stats
    /** Whether the "no tasks" message is currently displayed. */
    var emptyShown: bool
    /** The list a load from local storage would return: the list last
        written, or the empty list when nothing has been stored. */
    ghost var saved: seq<Task>
    /** How many times the list has been written to local storage. */
    ghost var saveCount: nat

    /** Between commands, a load from storage returns the current list and the counters and
        the empty message agree with it. */
    ghost predicate Valid()
      reads this
    {
      saved == tasks &&
      shownStats == StatsOf(tasks) &&
      emptyShown == (|tasks| == 0)
    }

    /** Loads the list from storage (`None` when nothing is stored), then
        draws the empty message and the counters. */
    constructor (stored: Option<seq<Task>>)
      ensures Valid()
      ensures tasks == if stored.Some? then stored.value else []
      ensures saveCount == 0
    {
      tasks := if stored.Some? then stored.value else [];
      saved := tasks;
      saveCount := 0;
      new;
      ToggleEmptyMessage();
      UpdateStats();
    }

    /** Appends a new, pending entry with the given id and text. */
    method AddTask(id: int, text: string)
      requires Valid()
      modifies this
      ensures Valid()
      ensures tasks == old(tasks) + [Task(id, text, false)]
      ensures shownStats.total == old(shownStats.total) + 1
      ensures shownStats.completed == old(shownStats.completed)
      ensures !emptyShown
      ensures saveCount == old(saveCount) + 1
    {
      var task := Task(id, text, false);
      tasks := tasks + [task];
      SaveTasks();
      UpdateStats();
      ToggleEmptyMessage();
      AddStats(old(tasks), id, text);
    }

    /** Flips the completion flag of the first entry with the given id; does
        nothing, and writes nothing to storage, when there is none. */
    method ToggleTaskComplete(id: int)
      requires Valid()
      modifies this
      ensures Valid()
      ensures tasks == Toggled(old(tasks), id)
      ensures saveCount == old(saveCount) + if Any(old(tasks), HasId(id)) then 1 else 0
    {
      var found := FindIndex(tasks, HasId(id));
      if found.Some? {
        var i := found.value;
        tasks := tasks[i := Flipped(tasks[i])];
        SaveTasks();
        UpdateStats();
      }
    }

    /** Removes every entry with the given id and writes the list to storage. */
    method DeleteTask(id: int)
      requires Valid()
      modifies this
      ensures Valid()
      ensures tasks == WithoutId(old(tasks), id)
      ensures forall t :: t in tasks <==> t in old(tasks) && t.id != id
      ensures saveCount == old(saveCount) + 1
    {
      tasks := WithoutId(tasks, id);
      SaveTasks();
      UpdateStats();
      ToggleEmptyMessage();
    }

    /** Removes the completed entries; when there are none, does nothing and
        writes nothing to storage. */
    method ClearCompleted()
      requires Valid()
      modifies this
      ensures Valid()
      ensures tasks == PendingOnly(old(tasks))
      ensures shownStats.completed == 0
      ensures saveCount == old(saveCount) + if Any(old(tasks), IsCompleted) then 1 else 0
    {
      var hasCompletedTasks := Any(tasks, IsCompleted);
      if hasCompletedTasks {
        tasks := Filter(tasks, IsPending);
        SaveTasks();
        UpdateStats();
        ToggleEmptyMessage();
      } else {
        ClearCompletedNoop(tasks);
      }
      ClearCompletedStats(old(tasks));
    }

    /** Empties the list; on an empty list does nothing and writes nothing to
        storage. */
    method ClearAll()
      requires Valid()
      modifies this
      ensures Valid()
      ensures tasks == []
      ensures shownStats == Stats(0, 0, 0) && emptyShown
      ensures saveCount == old(saveCount) + if |old(tasks)| > 0 then 1 else 0
    {
      if |tasks| > 0 {
        tasks := [];
        SaveTasks();
        UpdateStats();
        ToggleEmptyMessage();
      }
    }

    /** Writes the list to local storage. */
    method SaveTasks()
      modifies this`saved, this`saveCount
      ensures saved == tasks
      ensures saveCount == old(saveCount) + 1
    {
      saved := tasks;
      saveCount := saveCount + 1;
    }

    /** Writes the statistics of the list to the three counters. */
    method UpdateStats()
      modifies this`shownStats
      ensures shownStats == StatsOf(tasks)
    {
      shownStats := StatsOf(tasks);
    }

    /** Shows the empty message exactly when the list is empty. */
    method ToggleEmptyMessage()
      modifies this`emptyShown
      ensures emptyShown <==> |tasks| == 0
    {
      emptyShown := |tasks| == 0;
    }
  }

  /** The add command: trims the typed text and, unless nothing is left,
      adds it as a new entry whose id is the current time `now`. */
  method AddNewTask(manager: TaskManager, input: string, now: int) returns (added: bool)
    requires manager.Valid()
    modifies manager
    ensures manager.Valid()
    ensures added <==> !AllWhitespace(input)
    ensures added ==> manager.tasks == old(manager.tasks) + [Task(now, Trim(input), false)]
    ensures added ==> Trim(input) != [] && |Trim(input)| <= |input|
    ensures added ==> manager.saveCount == old(manager.saveCount) + 1
    ensures !added ==> manager.tasks == old(manager.tasks) && manager.saveCount == old(manager.saveCount)
  {
    var taskText := Trim(input);
    if taskText == [] {
      return false;
    }
    manager.AddTask(now, taskText);
    added := true;
  }

  /** Adding one entry to an empty list. */
  method ScenarioAddOne()
  {
    var m := new TaskManager(None);
    m.AddTask(1, "Buy milk");
    assert m.tasks == [Task(1, "Buy milk", false)];
    assert m.shownStats == Stats(1, 1, 0);
  }

  /** Adding two entries and completing the first. */
  method ScenarioToggle()
  {
    var m := new TaskManager(None);
    m.AddTask(1, "A");
    m.AddTask(2, "B");
    assert FirstWithId(m.tasks, 1, 0);
    ToggleStats(m.tasks, 1);
    m.ToggleTaskComplete(1);
    assert m.shownStats == Stats(2, 1, 1);
  }

  /** Clearing completed entries when there are none. */
  method ScenarioClearNone()
  {
    var m := new TaskManager(None);
    m.AddTask(1, "A");
    m.AddTask(2, "B");
    ghost var before := m.tasks;
    m.ClearCompleted();
    assert m.tasks == before;
  }

  /** Adding and deleting one entry. */
  method ScenarioDelete()
  {
    var m := new TaskManager(None);
    m.AddTask(7, "X");
    m.DeleteTask(7);
    assert m.tasks == [];
  }

  /** Typing only white space adds nothing. */
  method ScenarioBlankInput()
  {
    var m := new TaskManager(None);
    assert AllWhitespace("  \t ");
    var added := AddNewTask(m, "  \t ", 3);
    assert !added && m.tasks == [];
  }
}
