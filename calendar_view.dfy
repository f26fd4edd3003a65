/** The calendar store: a list of `Event` records plus the view state of the
    add dialog (selected date, whether it is open, the title being typed) and
    the text of the task input. */
module CalendarStore {
  import opened Seqs
  import opened Text

  /** One calendar event. `date` is the "YYYY-MM-DD" text of the day it was
      added on; nothing keeps dates or titles unique. */
  datatype Event = Event(date: string, title: string, tasks: seq<string>)

  /** The event after "Add Task" on `date`: `task` is appended to its task
      list if the event is on that date. */
  function AddTaskOn(e: Event, date: string, task: string): (r: Event)
    ensures r.date == e.date && r.title == e.title
    ensures |r.tasks| == |e.tasks| + (if e.date == date then 1 else 0)
    ensures r.tasks[..|e.tasks|] == e.tasks
    ensures e.date == date ==> r.tasks[|e.tasks|] == task
  {
    if e.date == date then e.(tasks := e.tasks + [task]) else e
  }

  /** The list `handleAddTask(date)` stores: `events.map(...)` with
      `AddTaskOn`, so every event on `date` gains the task. */
  function WithTask(events: seq<Event>, date: string, task: string): (r: seq<Event>)
    ensures |r| == |events|
  {
    Map(events, (e: Event) => AddTaskOn(e, date, task))
  }

  /** The events `dateCellRender` shows for `day`. */
  function DailyEvents(events: seq<Event>, day: string): (r: seq<Event>)
    ensures |r| <= |events|
    ensures forall e :: e in r ==> e in events && e.date == day
  {
    Filter(events, (e: Event) => e.date == day)
  }

  /** Adding a task keeps every event's position, date and title; an event
      on `date` gets `task` as its new last task (even an empty one), and an
      event on any other date is left as it was. */
  lemma WithTaskAt(events: seq<Event>, date: string, task: string, i: int)
    requires 0 <= i < |events|
    ensures WithTask(events, date, task)[i].date == events[i].date
    ensures WithTask(events, date, task)[i].title == events[i].title
    ensures events[i].date == date ==>
      WithTask(events, date, task)[i].tasks == events[i].tasks + [task]
    ensures events[i].date != date ==> WithTask(events, date, task)[i] == events[i]
  {
    MapAt(events, (e: Event) => AddTaskOn(e, date, task), i);
  }

  /** Adding a task on one date leaves the view of every other day as it was. */
  lemma {:induction false} WithTaskOtherDay(events: seq<Event>, date: string, task: string, day: string)
    requires day != date
    ensures DailyEvents(WithTask(events, date, task), day) == DailyEvents(events, day)
  {
    if events != [] {
      WithTaskOtherDay(events[1..], date, task, day);
      assert WithTask(events, date, task)[1..] == WithTask(events[1..], date, task);
    }
  }

  /** The view of a day holds every event on that day, and in the order of
      the list. */
  lemma DailyEventsExact(events: seq<Event>, day: string)
    ensures forall e :: e in events && e.date == day ==> e in DailyEvents(events, day)
    ensures IsSubseq(DailyEvents(events, day), events)
  {
    forall e | e in events && e.date == day
      ensures e in DailyEvents(events, day)
    {
      FilterKeeps(events, (e': Event) => e'.date == day, e);
    }
    FilterIsSubseq(events, (e: Event) => e.date == day);
  }

  /** Appending an event adds it at the end of the view of its own day and
      leaves the view of every other day as it was. */
  lemma DailyEventsAfterAppend(events: seq<Event>, e: Event, day: string)
    ensures DailyEvents(events + [e], day) ==
      DailyEvents(events, day) + (if e.date == day then [e] else [])
  {
    FilterAppend(events, [e], (e': Event) => e'.date == day);
  }

  /** The component's state. */
  class CalendarView {
    var events: seq<Event>
    var selectedDate: string
    var isModalOpen: bool
    var eventTitle: string
    var task: string

    /** Mounting the component: no events, nothing selected, dialog closed,
        both inputs empty. */
    constructor ()
      ensures events == [] && selectedDate == "" && !isModalOpen
      ensures eventTitle == "" && task == ""
    {
      events := [];
      selectedDate := "";
      isModalOpen := false;
      eventTitle := "";
      task := "";
    }

    /** `handleSelect`, with `date` the already formatted day: remembers it
        and opens the dialog. */
    method Select(date: string)
      modifies this
      ensures selectedDate == date && isModalOpen
      ensures events == old(events) && eventTitle == old(eventTitle) && task == old(task)
    {
      selectedDate := date;
      isModalOpen := true;
    }

    /** Typing into the dialog's title box. */
    method SetEventTitle(value: string)
      modifies this
      ensures eventTitle == value
      ensures events == old(events) && selectedDate == old(selectedDate)
      ensures isModalOpen == old(isModalOpen) && task == old(task)
    {
      eventTitle := value;
    }

    /** Typing into a task box (all task boxes share the one `task` text). */
    method SetTask(value: string)
      modifies this
      ensures task == value
      ensures events == old(events) && selectedDate == old(selectedDate)
      ensures isModalOpen == old(isModalOpen) && eventTitle == old(eventTitle)
    {
      task := value;
    }

    /** `handleAddEvent`: a blank title changes nothing; otherwise an event
        on the selected date (which may still be "") with the untrimmed
        title and no tasks is appended, the title is cleared and the dialog
        closes. */
    method AddEvent()
      modifies this
      ensures IsBlank(old(eventTitle)) ==>
        events == old(events) && eventTitle == old(eventTitle) && isModalOpen == old(isModalOpen)
      ensures !IsBlank(old(eventTitle)) ==>
        events == old(events) + [Event(old(selectedDate), old(eventTitle), [])]
        && eventTitle == "" && !isModalOpen
      ensures selectedDate == old(selectedDate) && task == old(task)
    {
      if IsBlank(eventTitle) {
        return;
      }
      events := events + [Event(selectedDate, eventTitle, [])];
      eventTitle := "";
      isModalOpen := false;
    }

    /** `handleAddTask(date)`: the current task text is appended to every
        event on `date`, without a blank check, and the task box is cleared. */
    method AddTask(date: string)
      modifies this
      ensures events == WithTask(old(events), date, old(task)) && task == ""
      ensures selectedDate == old(selectedDate) && isModalOpen == old(isModalOpen)
      ensures eventTitle == old(eventTitle)
    {
      events := WithTask(events, date, task);
      task := "";
    }

    /** Cancelling the dialog closes it and changes nothing else. */
    method Cancel()
      modifies this
      ensures !isModalOpen
      ensures events == old(events) && selectedDate == old(selectedDate)
      ensures eventTitle == old(eventTitle) && task == old(task)
    {
      isModalOpen := false;
    }
  }
}
