/** The to-do store: a list of `ToDo` records and the text of the input box,
    with the three handlers that add, toggle and delete records. */
module TodoStore {
  import opened Seqs
  import opened Text

  /** One to-do record. The id is the creation timestamp; nothing keeps ids
      unique, so every operation that takes an id acts on all records that
      carry it. */
  datatype ToDo = ToDo(id: int, text: string, completed: bool)

  /** The record after a click on `id`: id and text are kept, `completed`
      changes exactly when the record carries that id. */
  function Flip(t: ToDo, id: int): (r: ToDo)
    ensures r.id == t.id && r.text == t.text
    ensures r.completed != t.completed <==> t.id == id
  {
    if t.id == id then t.(completed := !t.completed) else t
  }

  /** The list `toggleTodo(id)` stores: `todos.map(...)` with `Flip`. */
  function Toggled(todos: seq<ToDo>, id: int): (r: seq<ToDo>)
    ensures |r| == |todos|
  {
    Map(todos, (t: ToDo) => Flip(t, id))
  }

  /** The list `deleteTodo(id)` stores: the records whose id differs. */
  function Without(todos: seq<ToDo>, id: int): (r: seq<ToDo>)
    ensures |r| <= |todos|
    ensures forall t :: t in r ==> t in todos && t.id != id
  {
    Filter(todos, (t: ToDo) => t.id != id)
  }

  /** Toggling keeps every record's position, id and text, and changes
      `completed` exactly on the records that carry `id`. */
  lemma ToggledAt(todos: seq<ToDo>, id: int, i: int)
    requires 0 <= i < |todos|
    ensures Toggled(todos, id)[i].id == todos[i].id
    ensures Toggled(todos, id)[i].text == todos[i].text
    ensures Toggled(todos, id)[i].completed != todos[i].completed <==> todos[i].id == id
  {
    MapAt(todos, (t: ToDo) => Flip(t, id), i);
  }

  /** Toggling the same id twice gives back the original list. */
  lemma ToggleTwice(todos: seq<ToDo>, id: int)
    ensures Toggled(Toggled(todos, id), id) == todos
  {
    MapInvolution(todos, (t: ToDo) => Flip(t, id));
  }

  /** Toggling an id that no record carries changes nothing. */
  lemma ToggleAbsent(todos: seq<ToDo>, id: int)
    requires forall t :: t in todos ==> t.id != id
    ensures Toggled(todos, id) == todos
  {
    MapIdentity(todos, (t: ToDo) => Flip(t, id));
  }

  /** Every record that does not carry `id` survives a delete, and the
      survivors keep their relative order. */
  lemma WithoutKeepsOthers(todos: seq<ToDo>, id: int)
    ensures forall t :: t in todos && t.id != id ==> t in Without(todos, id)
    ensures IsSubseq(Without(todos, id), todos)
  {
    forall t | t in todos && t.id != id
      ensures t in Without(todos, id)
    {
      FilterKeeps(todos, (t': ToDo) => t'.id != id, t);
    }
    FilterIsSubseq(todos, (t: ToDo) => t.id != id);
  }

  /** A delete keeps every copy of a record that does not carry `id` (ids
      need not be unique, so equal records may occur more than once) and no
      copy of one that does. */
  lemma WithoutCount(todos: seq<ToDo>, id: int, t: ToDo)
    ensures multiset(Without(todos, id))[t] == if t.id != id then multiset(todos)[t] else 0
  {
    FilterCount(todos, (x: ToDo) => x.id != id, t);
  }

  /** Deleting from a list with one more record at the end gives the
      delete of the shorter list, followed by that record if it survives;
      with `Without([], id) == []` this fixes the result exactly. */
  lemma WithoutAfterAppend(todos: seq<ToDo>, t: ToDo, id: int)
    ensures Without(todos + [t], id) == Without(todos, id) + (if t.id != id then [t] else [])
  {
    FilterAppend(todos, [t], (x: ToDo) => x.id != id);
  }

  /** Deleting the same id twice is the same as deleting it once. */
  lemma WithoutIdempotent(todos: seq<ToDo>, id: int)
    ensures Without(Without(todos, id), id) == Without(todos, id)
  {
    FilterIdempotent(todos, (t: ToDo) => t.id != id);
  }

  /** A delete leaves the list unchanged exactly when no record carries the
      id; otherwise the list gets shorter. */
  lemma WithoutAbsent(todos: seq<ToDo>, id: int)
    ensures Without(todos, id) == todos <==> forall t :: t in todos ==> t.id != id
    ensures Without(todos, id) != todos ==> |Without(todos, id)| < |todos|
  {
    FilterAll(todos, (t: ToDo) => t.id != id);
    if Without(todos, id) != todos {
      var r := Without(todos, id);
      if |r| == |todos| {
        // A subsequence as long as its sequence is that sequence.
        WithoutKeepsOthers(todos, id);
        SubseqSameLength(r, todos);
      }
    }
  }

  /** The component's state: the `todos` list and the `input` text. */
  class TodoList {
    var todos: seq<ToDo>
    var input: string

    /** Mounting the component: the list read back from storage, an empty
        input box. */
    constructor (stored: seq<ToDo>)
      ensures todos == stored && input == ""
    {
      todos := stored;
      input := "";
    }

    /** Typing into the input box. */
    method SetInput(value: string)
      modifies this
      ensures input == value && todos == old(todos)
    {
      input := value;
    }

    /** `addTodo`, with `now` standing for `Date.now()`: blank input is
        ignored; otherwise the untrimmed input is appended as a new, not yet
        completed record and the input box is cleared. */
    method AddTodo(now: int)
      modifies this
      ensures IsBlank(old(input)) ==> todos == old(todos) && input == old(input)
      ensures !IsBlank(old(input)) ==>
        todos == old(todos) + [ToDo(now, old(input), false)] && input == ""
    {
      if IsBlank(input) {
        return;
      }
      todos := todos + [ToDo(now, input, false)];
      input := "";
    }

    /** `toggleTodo(id)`. */
    method ToggleTodo(id: int)
      modifies this
      ensures todos == Toggled(old(todos), id) && input == old(input)
    {
      todos := Toggled(todos, id);
    }

    /** `deleteTodo(id)`. */
    method DeleteTodo(id: int)
      modifies this
      ensures todos == Without(old(todos), id) && input == old(input)
    {
      todos := Without(todos, id);
    }
  }
}
