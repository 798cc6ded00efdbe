# Minimalist to-do list: the task-list model

This project models, in Dafny, the task state of a browser to-do page
(`script.js`). The page keeps two ordered lists of tasks, `dailyTasks` and
`generalTasks`. Each task is a record of its text, a completion flag and a
creation timestamp. Three operations change the lists in place:

- adding a task rejects text that trims to nothing and otherwise appends a
  new, uncompleted task with the trimmed text to the chosen list;
- toggling flips the completion flag of one task;
- deleting splices one task out of the chosen list.

Only the exact list type `"daily"` selects the daily list; every other value
selects the general list. After each change both lists are written to the
page's key-value storage.

Layout:

- `text.dfy`, module `Text`: the whitespace set of ECMAScript
  (WhiteSpace and LineTerminator, sections 12.2 and 12.3 of ECMA-262) and
  `Trim`, which stands in for `String.prototype.trim`. It comes with its
  characterisation: the result is the unique core that the input splits around
  as whitespace, core, whitespace. It is also idempotent.
- `todo.dfy`, module `Todo`: the `Task` datatype, and pure functions for what
  each operation does to one list (`NewTask`, `Toggled`, `RemovedAt`). It holds
  the lemmas about those functions, and the class `TodoLists`. That class has
  the two list fields and the storage map, and methods that mirror `addTask`,
  `toggleTask`, `deleteTask` and `saveTasks`.

Every method of `TodoLists` states the complete new state: which list
changed and how, that the other list did not, and that storage afterwards is
the old storage with exactly the two list keys rewritten. Every method also keeps the invariant `Clean()`: each task
has non-empty text with no leading or trailing whitespace.

Two facts about the source shape the contracts:

- `deleteTask`'s `splice(index, 1)` is defined for every integer index: a
  negative index counts back from the end, an index before the start removes
  the first task, and an index at or past the end removes nothing.
- `toggleTask` on a missing index throws (script.js:109), so `ToggleTask`
  requires an in-range index.

## Model

| member | source | states |
|---|---|---|
| Text.IsWhitespace | script.js:88 | the characters `trim` strips: ECMAScript WhiteSpace and LineTerminator; every one of them lies in the Basic Multilingual Plane (a single UTF-16 code unit) |
| Text.LeadingWhitespace | script.js:88 | the length of the longest all-whitespace prefix: everything before it is whitespace and the next character, if any, is not |
| Text.TrailingWhitespace | script.js:88 | the length of the longest all-whitespace suffix: everything after the cut is whitespace and the character before it, if any, is not |
| Text.TrimStart | script.js:88 | a suffix of the input, preceded only by whitespace, empty or starting with non-whitespace |
| Text.TrimEnd | script.js:88 | a prefix of the input, followed only by whitespace, empty or ending with non-whitespace |
| Text.Trim | script.js:88 | `text.trim()`: empty exactly when the input is all whitespace (the rejection test of addTask); otherwise it starts and ends with non-whitespace |
| Text.TrimUnique | script.js:91 | whenever s = whitespace + r + whitespace and r is empty or has non-whitespace ends, trim(s) is r (Trim is the only such core) |
| Text.TrimIdempotentOnTrimmed | script.js:91 | text that is empty or has non-whitespace ends is its own trim |
| Text.TrimIdempotent | script.js:91 | trimming the trimmed text again changes nothing |
| Todo.WellFormedIffTrimmed | script.js:88-91 | a task's text is non-empty with non-whitespace ends exactly when it is non-empty and equal to its own trim |
| Todo.NewTask | script.js:90-94 | the task addTask creates from non-blank text: text is trim(text), not completed, date is the given time, and it is well formed (non-empty, no outer whitespace) |
| Todo.Toggled | script.js:109 | same length; only the flag at the index is flipped; that task keeps its text and date; all other tasks are equal |
| Todo.ToggleTwiceRestores | script.js:109 | toggling the same index twice gives back the original list |
| Todo.ToggledKeepsWellFormed | script.js:109 | toggling keeps every task's text non-empty and trimmed |
| Todo.SpliceStart | script.js:117 | where `splice` starts on a list of length n: an index in 0..n is used as is, one past n is clamped to n, a negative index counts back from the end, and one before -n is clamped to 0 |
| Todo.RemovedAt | script.js:117 | `splice(index, 1)`: for 0 <= index < length the result is tasks[..index] + tasks[index+1..]; a negative index counts from the end; an index below -length removes the first task; an index at or past the end changes nothing; no task is invented |
| Todo.RemovedAtShifts | script.js:117 | for an in-range index: length drops by exactly one, earlier tasks stay put, later tasks move down one, and the removed task is the only one missing (as a multiset) |
| Todo.RemovedAtKeepsWellFormed | script.js:117 | deleting keeps every task's text non-empty and trimmed |
| Todo.TodoLists.Chosen | script.js:108 | the list a list type selects (the same choice is made at script.js:116): the daily list exactly for "daily", the general list for every other value |
| Todo.TodoLists.constructor | script.js:15-16 | each list is the stored list under its key, or empty when the key is absent |
| Todo.TodoLists.SaveTasks | script.js:25-28 | storage maps "dailyTasks" and "generalTasks" to the current lists; other keys unchanged |
| Todo.TodoLists.AddTask | script.js:87-104 | blank text: both lists and storage unchanged; otherwise the list selected by "daily" (or the general list for any other type) becomes old + [NewTask(text, now)], the other list is unchanged, storage is the old storage with only "dailyTasks" and "generalTasks" rewritten to the new lists, and Clean() is kept |
| Todo.TodoLists.ToggleTask | script.js:107-112 | requires an in-range index; the selected list becomes Toggled(old, index), the other list is unchanged, storage is the old storage with only "dailyTasks" and "generalTasks" rewritten to the new lists, Clean() is kept |
| Todo.TodoLists.DeleteTask | script.js:115-120 | the selected list becomes RemovedAt(old, index), the other list is unchanged, storage is the old storage with only "dailyTasks" and "generalTasks" rewritten to the new lists, Clean() is kept |

## Left out

- Todo.TodoLists.constructor: the model does not capture JSON parsing of the stored text (script.js:15-16). A stored list is taken as a value, so malformed stored text, which would throw in `JSON.parse`, is not modelled.
- Todo.TodoLists.SaveTasks: `JSON.stringify` is not modelled; storage keeps the lists themselves. The `theme` key is not modelled either.
- Rendering (`createTaskElement`, `renderTasks`) and the input and button listeners (script.js:31-84, 122-140) are DOM work. They are left out.
- Theme toggling (script.js:1-12) is DOM class toggling plus storage. It is left out.
- The timestamp `new Date().toISOString()` (script.js:93) depends on the clock. It is the parameter `now` of `AddTask`, and locale date formatting (script.js:46) is left out.
- Todo.TodoLists.ToggleTask and Todo.TodoLists.DeleteTask take the index as an integer. A fractional or non-numeric index, which JavaScript would convert first, is not modelled.
- Aliasing of task records is not modelled: tasks are values, and that is sound here because each record belongs to exactly one list.
- Strings are sequences of Unicode scalar values, while a JavaScript string is a sequence of UTF-16 code units. Text holding a lone surrogate, which an input field can produce, cannot be represented. For other text, trimming agrees, because every whitespace character is a single code unit (the contract of Text.IsWhitespace).
