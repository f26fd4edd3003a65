# To-do list and calendar stores

A model of the two in-memory record stores of a small productivity front end.
The rendering is stripped away. What remains is the state of each component
and its event handlers:

- the **to-do store** (`TodoList.tsx`): a list of `{id, text, completed}`
  records and the text of the input box. `addTodo` appends a record unless
  the input is blank after trimming. `toggleTodo(id)` flips `completed` on
  every record with that id. `deleteTodo(id)` removes every record with that
  id.
- the **calendar store** (`CalendarView.tsx`): a list of `{date, title, tasks}`
  events and the view fields `selectedDate`, `isModalOpen`, `eventTitle` and
  `task`. Selecting a day opens the add dialog. `handleAddEvent` appends an
  event unless the title is blank. `handleAddTask(date)` appends the task
  text to every event on that date. Cancelling closes the dialog. Each
  calendar cell shows the events of its day.

Files:

- `seqs.dfy`, module `Seqs`: JavaScript's `map` and `filter` as recursive
  functions (`Map`, `Filter`), the subsequence relation `IsSubseq`, and the
  general lemmas about them that the stores use.
- `text.dfy`, module `Text`: `String.prototype.trim` over ECMAScript's
  whitespace and line-terminator characters, and `IsBlank` (the
  `!s.trim()` test).
- `todo_list.dfy`, module `TodoStore`: the `ToDo` record, the pure list
  transforms `Toggled` and `Without`, their lemmas, and the class `TodoList`
  whose methods are the handlers.
- `calendar_view.dfy`, module `CalendarStore`: the `Event` record, the
  transforms `WithTask` and `DailyEvents`, their lemmas, and the class
  `CalendarView` whose methods are the handlers.

The handlers are methods that reassign the component's fields (the
`setTodos`/`setInput`/... calls). Each method's postcondition gives the
whole new state in terms of the old one and of the pure transforms. The
lemmas prove what those transforms promise: order and length are kept,
toggling is an involution, deleting is idempotent, and the day filter
returns exactly the events of that day.

Clock and library inputs are parameters. `Date.now()` becomes the `now`
argument of `AddTodo`. The formatted `"YYYY-MM-DD"` text of a dayjs date
becomes the `date`/`day` string argument. Ids and dates are not assumed to
be unique, because the code does not enforce that.

## Model

| member | source | states |
|---|---|---|
| Text.IsWhitespace | clush_SongYouNa/src/components/TodoList.tsx:21 | definition (no contract): the characters `trim` removes, i.e. ECMAScript's WhiteSpace (tab, vertical tab, form feed, space, no-break space, byte order mark, the Unicode space separators) and LineTerminator (line feed, carriage return, line and paragraph separators) |
| Seqs.Map | clush_SongYouNa/src/components/TodoList.tsx:28-30 | `Array.prototype.map`: the result has exactly as many elements as the input |
| Seqs.MapAt | clush_SongYouNa/src/components/TodoList.tsx:28-30 | element `i` of the mapped sequence is the callback applied to element `i` of the input |
| Seqs.Filter | clush_SongYouNa/src/components/TodoList.tsx:35 | `Array.prototype.filter`: the result is no longer than the input and holds only input elements that satisfy the callback |
| Seqs.FilterCount | clush_SongYouNa/src/components/TodoList.tsx:35 | the filter keeps every copy of an element that satisfies the callback and no copy of one that does not |
| Text.TrimStart | clush_SongYouNa/src/components/TodoList.tsx:21 | the leading part `trim` drops is all whitespace, and what is left is a suffix that does not start with whitespace |
| Text.TrimEnd | clush_SongYouNa/src/components/TodoList.tsx:21 | the trailing part `trim` drops is all whitespace, and what is left is a prefix that does not end with whitespace |
| Text.Trim | clush_SongYouNa/src/components/TodoList.tsx:21 | `s.trim()` is the piece of `s` between a whitespace-only prefix and a whitespace-only suffix, and has no whitespace at either end |
| Text.IsBlank | clush_SongYouNa/src/components/CalendarView.tsx:25 | `!s.trim()` holds exactly when every character of `s` is whitespace (the empty string included) |
| Text.TrimIdempotent | clush_SongYouNa/src/components/TodoList.tsx:21 | a sanity property of the trim model (the code never trims twice): trimming a trimmed string changes nothing |
| TodoStore.Flip | clush_SongYouNa/src/components/TodoList.tsx:29 | the map callback keeps id and text, and changes `completed` exactly when the record's id equals the clicked id |
| TodoStore.Toggled | clush_SongYouNa/src/components/TodoList.tsx:27-31 | the mapped list has the same length as the original |
| TodoStore.ToggledAt | clush_SongYouNa/src/components/TodoList.tsx:27-31 | every position keeps its id and text; `completed` changes exactly on the records whose id equals the clicked id |
| TodoStore.ToggleTwice | clush_SongYouNa/src/components/TodoList.tsx:27-31 | toggling the same id twice restores the original list |
| TodoStore.ToggleAbsent | clush_SongYouNa/src/components/TodoList.tsx:27-31 | toggling an id no record carries leaves the list unchanged |
| TodoStore.Without | clush_SongYouNa/src/components/TodoList.tsx:35 | after a delete no record carries the id, every remaining record was in the list, and the list never grows |
| TodoStore.WithoutKeepsOthers | clush_SongYouNa/src/components/TodoList.tsx:35 | every record with a different id survives, and the survivors keep their relative order (a subsequence) |
| TodoStore.WithoutCount | clush_SongYouNa/src/components/TodoList.tsx:35 | every copy of a record with a different id survives the delete (duplicates included) and no copy of a record with the id does |
| TodoStore.WithoutAfterAppend | clush_SongYouNa/src/components/TodoList.tsx:35 | deleting from a list with one more record at the end gives the shorter list's delete followed by that record if its id differs, which fixes the result exactly |
| TodoStore.WithoutIdempotent | clush_SongYouNa/src/components/TodoList.tsx:35 | deleting the same id twice equals deleting it once |
| TodoStore.WithoutAbsent | clush_SongYouNa/src/components/TodoList.tsx:35 | the list is unchanged if and only if no record carries the id; otherwise it gets strictly shorter |
| TodoStore.TodoList.constructor | clush_SongYouNa/src/components/TodoList.tsx:11-14 | the component starts with the stored list and an empty input |
| TodoStore.TodoList.SetInput | clush_SongYouNa/src/components/TodoList.tsx:42 | typing replaces the input text and leaves the list alone |
| TodoStore.TodoList.AddTodo | clush_SongYouNa/src/components/TodoList.tsx:20-24 | blank input changes neither field; otherwise exactly one record `{now, untrimmed input, false}` is appended after the unchanged old records, and the input is cleared |
| TodoStore.TodoList.ToggleTodo | clush_SongYouNa/src/components/TodoList.tsx:26-32 | the list becomes `Toggled(old list, id)`; the input is unchanged |
| TodoStore.TodoList.DeleteTodo | clush_SongYouNa/src/components/TodoList.tsx:34-36 | the list becomes `Without(old list, id)`; the input is unchanged |
| CalendarStore.AddTaskOn | clush_SongYouNa/src/components/CalendarView.tsx:33 | the map callback keeps date and title and the old tasks as a prefix; an event on the date gains exactly one task, the given one, at the end; other events keep their task list |
| CalendarStore.WithTask | clush_SongYouNa/src/components/CalendarView.tsx:32-34 | the mapped list has the same number of events as the original |
| CalendarStore.WithTaskAt | clush_SongYouNa/src/components/CalendarView.tsx:32-34 | every position keeps its date and title; each event on the date gains the task (even an empty one) as its new last task; events on other dates are unchanged |
| CalendarStore.WithTaskOtherDay | clush_SongYouNa/src/components/CalendarView.tsx:32-34 | adding a task on one date leaves the day view of every other date unchanged |
| CalendarStore.DailyEvents | clush_SongYouNa/src/components/CalendarView.tsx:39 | the day view holds only events of the list that fall on that day, and is no longer than the list |
| CalendarStore.DailyEventsExact | clush_SongYouNa/src/components/CalendarView.tsx:39 | every event on the day is in the day view, and the day view is a subsequence of the list |
| CalendarStore.DailyEventsAfterAppend | clush_SongYouNa/src/components/CalendarView.tsx:26 | an appended event shows up last in the view of its own day, and the views of all other days are unchanged |
| CalendarStore.CalendarView.constructor | clush_SongYouNa/src/components/CalendarView.tsx:13-17 | the component starts with no events, an empty selected date, the dialog closed and both inputs empty |
| CalendarStore.CalendarView.Select | clush_SongYouNa/src/components/CalendarView.tsx:19-22 | the selected date becomes the given day and the dialog opens; events and both inputs are unchanged |
| CalendarStore.CalendarView.SetEventTitle | clush_SongYouNa/src/components/CalendarView.tsx:75 | typing replaces the title text; nothing else changes |
| CalendarStore.CalendarView.SetTask | clush_SongYouNa/src/components/CalendarView.tsx:52 | typing replaces the task text; nothing else changes |
| CalendarStore.CalendarView.AddEvent | clush_SongYouNa/src/components/CalendarView.tsx:24-29 | a blank title changes nothing and the dialog stays as it was; otherwise exactly one event `{selectedDate, untrimmed title, []}` is appended after the unchanged old events (the selected date is not checked), the title is cleared and the dialog closes |
| CalendarStore.CalendarView.AddTask | clush_SongYouNa/src/components/CalendarView.tsx:31-36 | the events become `WithTask(old events, date, old task)` and the task text is cleared; the other fields are unchanged |
| CalendarStore.CalendarView.Cancel | clush_SongYouNa/src/components/CalendarView.tsx:70 | the dialog closes and no other field changes |

## Left out

- Rendering and styling: the JSX, the `styled-components` definitions and the
  antd `Calendar`, `Modal`, `Input` and `Button` widgets. They are display
  only.
- Persistence through `localStorage` and JSON (`TodoList.tsx`, lines 11-18).
  The stored list read at mount is the constructor's `stored` argument. The
  write-back effect after each change of `todos` is browser I/O and is not
  modelled. The calendar store starts empty and persists nothing.
- `Date.now()` and dayjs's `format("YYYY-MM-DD")`. These are clock and library
  calls, so their results are parameters. Ids are mathematical integers, not
  IEEE doubles.
- `Text.IsWhitespace`: characters are Unicode scalar values, while JavaScript
  strings are UTF-16 code units. The whitespace set is exact for every
  character it names, but lone surrogates have no counterpart in the model.
- React's asynchronous state updates: each handler is modelled as taking
  effect at once on the current state. Two handlers that run before a
  re-render and both read the same captured state are not modelled.
- `App.tsx`: the switch between the two tabs is display routing only.
- Behaviour that is not in this code is not modelled: to-do entries tagged
  with a date, validation messages, year/month display modes, event start
  and end times, memos, updating or deleting events, "past" markers and
  monthly counts.
