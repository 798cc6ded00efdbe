/**
 * The task-list model of the to-do page: two ordered lists of tasks, "daily"
 * and "general", held as page-level state, and the three operations that change
 * them in place (add, toggle, delete), each of which writes both lists back to
 * the page's key-value storage afterwards.
 */
module Todo {
  import opened Text

  /** The creation time of a task, an ISO-8601 text supplied by the caller's clock. */
  type Timestamp = string

  datatype Task = Task(text: string, completed: bool, date: Timestamp)

  /** The storage keys under which the two lists are saved. */
  const DailyKey: string := "dailyTasks"
  const GeneralKey: string := "generalTasks"

  /** The list-type value that selects the daily list; every other value selects the general list. */
  const Daily: string := "daily"

  /** A task whose text is non-empty and has no leading or trailing whitespace. */
  predicate WellFormed(t: Task)
  {
    t.text != [] && !IsWhitespace(t.text[0]) && !IsWhitespace(t.text[|t.text| - 1])
  }

  predicate AllWellFormed(tasks: seq<Task>)
  {
    forall k :: 0 <= k < |tasks| ==> WellFormed(tasks[k])
  }

  /** A task is well formed exactly when its text is non-empty and trimming leaves it as it is. */
  lemma WellFormedIffTrimmed(t: Task)
    ensures WellFormed(t) <==> t.text != [] && Trim(t.text) == t.text
  {
    if WellFormed(t) {
      TrimIdempotentOnTrimmed(t.text);
    }
  }

  /**
   * The task that adding `text` creates at time `now`: the trimmed text, not
   * completed. Only built for text that is not all whitespace, and then it is
   * well formed.
   */
  function NewTask(text: string, now: Timestamp): (t: Task)
    requires !AllWhitespace(text)
    ensures WellFormed(t) && !t.completed && t.date == now
    ensures t.text == Trim(text)
  {
    Task(Trim(text), false, now)
  }

  /** `tasks` with the completion flag of the task at `index` flipped. */
  function Toggled(tasks: seq<Task>, index: nat): (r: seq<Task>)
    requires index < |tasks|
    ensures |r| == |tasks|
    ensures r[index].completed == !tasks[index].completed
    ensures r[index].text == tasks[index].text && r[index].date == tasks[index].date
    ensures forall k :: 0 <= k < |r| && k != index ==> r[k] == tasks[k]
  {
    tasks[index := tasks[index].(completed := !tasks[index].completed)]
  }

  /** Toggling the same task twice restores the list. */
  lemma ToggleTwiceRestores(tasks: seq<Task>, index: nat)
    requires index < |tasks|
    ensures Toggled(Toggled(tasks, index), index) == tasks
  {
    var once := Toggled(tasks, index);
    var twice := Toggled(once, index);
    assert twice[index] == tasks[index];
  }

  /** Toggling keeps every task well formed. */
  lemma ToggledKeepsWellFormed(tasks: seq<Task>, index: nat)
    requires index < |tasks| && AllWellFormed(tasks)
    ensures AllWellFormed(Toggled(tasks, index))
  {
    var r := Toggled(tasks, index);
    forall k | 0 <= k < |r| ensures WellFormed(r[k]) {
      assert WellFormed(tasks[k]);
    }
  }

  /**
   * The position at which Array.prototype.splice starts for a list of length
   * n: a negative start counts back from the end (and stops at 0), a start past
   * the end is clamped to the end.
   */
  function SpliceStart(n: nat, start: int): (k: nat)
    ensures k <= n
    ensures 0 <= start <= n ==> k == start
    ensures start > n ==> k == n
    ensures start < 0 && 0 <= n + start ==> k == n + start
    ensures n + start < 0 ==> k == 0
  {
    if start < 0 then (if n + start < 0 then 0 else n + start)
    else if start < n then start
    else n
  }

  /**
   * `tasks` after splice(index, 1): the element at the splice position is
   * removed, if there is one. An index from 0 up removes that element, a
   * negative index counts from the end, an index before the start removes the
   * first element, and an index at or past the end removes nothing.
   */
  function RemovedAt(tasks: seq<Task>, index: int): (r: seq<Task>)
    ensures 0 <= index < |tasks| ==> r == tasks[..index] + tasks[index + 1..]
    ensures -|tasks| <= index < 0 ==> r == tasks[..|tasks| + index] + tasks[|tasks| + index + 1..]
    ensures index < -|tasks| && tasks != [] ==> r == tasks[1..]
    ensures index >= |tasks| ==> r == tasks
    ensures forall t :: t in r ==> t in tasks
  {
    var start := SpliceStart(|tasks|, index);
    if start < |tasks| then tasks[..start] + tasks[start + 1..] else tasks
  }

  /**
   * Deleting an in-range index shortens the list by exactly one: the elements
   * before it stay where they were, the later ones move down by one, and the
   * removed task is the only one missing.
   */
  lemma RemovedAtShifts(tasks: seq<Task>, index: int)
    requires 0 <= index < |tasks|
    ensures |RemovedAt(tasks, index)| == |tasks| - 1
    ensures forall k :: 0 <= k < index ==> RemovedAt(tasks, index)[k] == tasks[k]
    ensures forall k :: index <= k < |tasks| - 1 ==> RemovedAt(tasks, index)[k] == tasks[k + 1]
    ensures multiset(RemovedAt(tasks, index)) + multiset{tasks[index]} == multiset(tasks)
  {
    assert tasks == tasks[..index] + [tasks[index]] + tasks[index + 1..];
  }

  /** Deleting keeps every task well formed. */
  lemma RemovedAtKeepsWellFormed(tasks: seq<Task>, index: int)
    requires AllWellFormed(tasks)
    ensures AllWellFormed(RemovedAt(tasks, index))
  {
    var r := RemovedAt(tasks, index);
    forall k | 0 <= k < |r| ensures WellFormed(r[k]) {
      assert r[k] in tasks;
    }
  }

  /**
   * The page's task state: the two lists and the part of the page's key-value
   * storage that holds them (the stored lists are kept as values; their JSON
   * text is not modelled).
   */
  class TodoLists {
    var dailyTasks: seq<Task>
    var generalTasks: seq<Task>
    var storage: map<string, seq<Task>>

    /** Page load: each list is read from storage, and is empty when its key is absent. */
    constructor (stored: map<string, seq<Task>>)
      ensures dailyTasks == (if DailyKey in stored then stored[DailyKey] else [])
      ensures generalTasks == (if GeneralKey in stored then stored[GeneralKey] else [])
      ensures storage == stored
    {
      dailyTasks := if DailyKey in stored then stored[DailyKey] else [];
      generalTasks := if GeneralKey in stored then stored[GeneralKey] else [];
      storage := stored;
    }

    /** The list that a list-type value selects. */
    function Chosen(listType: string): (tasks: seq<Task>)
      reads this
      ensures listType == Daily ==> tasks == dailyTasks
      ensures listType != Daily ==> tasks == generalTasks
    {
      if listType == Daily then dailyTasks else generalTasks
    }

    /** Both lists, as they are now, are what storage holds. */
    ghost predicate Saved()
      reads this
    {
      DailyKey in storage && storage[DailyKey] == dailyTasks
      && GeneralKey in storage && storage[GeneralKey] == generalTasks
    }

    /** Every task in both lists is well formed. */
    ghost predicate Clean()
      reads this
    {
      AllWellFormed(dailyTasks) && AllWellFormed(generalTasks)
    }

    /** Writes both lists to storage; every other key is left as it was. */
    method SaveTasks()
      modifies this`storage
      ensures Saved()
      ensures storage == old(storage)[DailyKey := dailyTasks][GeneralKey := generalTasks]
    {
      storage := storage[DailyKey := dailyTasks][GeneralKey := generalTasks];
    }

    /**
     * Adds a task with the trimmed text, not completed, created at `now`, to
     * the end of the list `listType` selects, then saves. Text that is empty or
     * all whitespace is rejected and nothing changes, storage included.
     */
    method AddTask(listType: string, text: string, now: Timestamp)
      modifies this
      ensures AllWhitespace(text) ==>
                dailyTasks == old(dailyTasks) && generalTasks == old(generalTasks) && storage == old(storage)
      ensures !AllWhitespace(text) && listType == Daily ==>
                dailyTasks == old(dailyTasks) + [NewTask(text, now)] && generalTasks == old(generalTasks)
      ensures !AllWhitespace(text) && listType != Daily ==>
                generalTasks == old(generalTasks) + [NewTask(text, now)] && dailyTasks == old(dailyTasks)
      ensures !AllWhitespace(text) ==> Saved() && storage == old(storage)[DailyKey := dailyTasks][GeneralKey := generalTasks]
      ensures old(Clean()) ==> Clean()
    {
      var trimmed := Trim(text);
      if trimmed == [] {
        return;
      }
      var task := Task(trimmed, false, now);
      if listType == Daily {
        dailyTasks := dailyTasks + [task];
      } else {
        generalTasks := generalTasks + [task];
      }
      assert task == NewTask(text, now);
      SaveTasks();
    }

    /**
     * Flips the completion flag of the task at `index` in the list `listType`
     * selects, leaving the other list untouched, then saves. The index must
     * name a task: reading the flag of a missing one fails.
     */
    method ToggleTask(listType: string, index: int)
      requires 0 <= index < |Chosen(listType)|
      modifies this
      ensures listType == Daily ==>
                dailyTasks == Toggled(old(dailyTasks), index) && generalTasks == old(generalTasks)
      ensures listType != Daily ==>
                generalTasks == Toggled(old(generalTasks), index) && dailyTasks == old(dailyTasks)
      ensures Saved() && storage == old(storage)[DailyKey := dailyTasks][GeneralKey := generalTasks]
      ensures old(Clean()) ==> Clean()
    {
      if listType == Daily {
        if AllWellFormed(dailyTasks) { ToggledKeepsWellFormed(dailyTasks, index); }
        dailyTasks := dailyTasks[index := dailyTasks[index].(completed := !dailyTasks[index].completed)];
      } else {
        if AllWellFormed(generalTasks) { ToggledKeepsWellFormed(generalTasks, index); }
        generalTasks := generalTasks[index := generalTasks[index].(completed := !generalTasks[index].completed)];
      }
      SaveTasks();
    }

    /**
     * Splices one task out of the list `listType` selects at `index`, with
     * splice's reading of the index, leaving the other list untouched, then saves.
     */
    method DeleteTask(listType: string, index: int)
      modifies this
      ensures listType == Daily ==>
                dailyTasks == RemovedAt(old(dailyTasks), index) && generalTasks == old(generalTasks)
      ensures listType != Daily ==>
                generalTasks == RemovedAt(old(generalTasks), index) && dailyTasks == old(dailyTasks)
      ensures Saved() && storage == old(storage)[DailyKey := dailyTasks][GeneralKey := generalTasks]
      ensures old(Clean()) ==> Clean()
    {
      var start: nat;
      if listType == Daily {
        if AllWellFormed(dailyTasks) { RemovedAtKeepsWellFormed(dailyTasks, index); }
        start := SpliceStart(|dailyTasks|, index);
        if start < |dailyTasks| {
          dailyTasks := dailyTasks[..start] + dailyTasks[start + 1..];
        }
      } else {
        if AllWellFormed(generalTasks) { RemovedAtKeepsWellFormed(generalTasks, index); }
        start := SpliceStart(|generalTasks|, index);
        if start < |generalTasks| {
          generalTasks := generalTasks[..start] + generalTasks[start + 1..];
        }
      }
      SaveTasks();
    }
  }
}
