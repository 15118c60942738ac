/** The key-driven state machine of the terminal todo list, as values:
    the four pieces of state `run_app` keeps, one function per arm of its
    key dispatch, the dispatch itself, and its repetition over a finite
    stream of key events. The class in module App is proved against it. */
module TodoList {
  import opened Text

  /** A task: a title and a completed flag. */
  datatype Todo = Todo(title: string, completed: bool)

  datatype InputMode = Normal | Editing

  /** The key codes the dispatch distinguishes; every other key code is `Other`. */
  datatype Key = Char(ch: char) | Up | Down | Enter | Esc | Backspace | Other

  /** The locals of `run_app`: the list, the cursor, the edit buffer, the mode. */
  datatype State = State(todos: seq<Todo>, selected: nat, input: string, mode: InputMode)

  /** What one key (or a stream of keys) leads to: the loop goes on in a new
      state, or it quits after handing `saved` to the save routine. */
  datatype Outcome = Running(state: State) | Quit(saved: seq<Todo>)

  /** The state `run_app` starts from, whatever list was loaded. */
  function Init(loaded: seq<Todo>): State
  {
    State(loaded, 0, [], Normal)
  }

  /** The invariant every reachable state keeps: the cursor is 0 or a valid
      index, and the buffer is empty outside Editing mode. */
  predicate Valid(s: State)
  {
    (s.selected == 0 || s.selected < |s.todos|) &&
    (s.mode == Normal ==> s.input == [])
  }

  /** `todos` with entry `i` taken out (`Vec::remove`). */
  function RemoveAt(todos: seq<Todo>, i: nat): (r: seq<Todo>)
    requires i < |todos|
    ensures |r| == |todos| - 1
    ensures forall j :: 0 <= j < i ==> r[j] == todos[j]
    ensures forall j :: i <= j < |r| ==> r[j] == todos[j + 1]
    ensures multiset(r) + multiset{todos[i]} == multiset(todos)
  {
    assert todos == todos[..i] + [todos[i]] + todos[i + 1..];
    todos[..i] + todos[i + 1..]
  }

  /** `todos` with the completed flag of entry `i` flipped, if there is one
      (`get_mut` followed by negation). */
  function FlipAt(todos: seq<Todo>, i: nat): (r: seq<Todo>)
    ensures |r| == |todos|
    ensures forall j :: 0 <= j < |r| && j != i ==> r[j] == todos[j]
    ensures i < |todos| ==> r[i].title == todos[i].title && r[i].completed == !todos[i].completed
  {
    if i < |todos| then todos[i := todos[i].(completed := !todos[i].completed)] else todos
  }

  // ----- Normal mode -----

  /** Down arrow: one step further, unless the cursor is on the last entry. */
  function MoveDown(s: State): State
  {
    if s.selected + 1 < |s.todos| then s.(selected := s.selected + 1) else s
  }

  /** Up arrow: one step back, unless the cursor is at the top. */
  function MoveUp(s: State): State
  {
    if s.selected > 0 then s.(selected := s.selected - 1) else s
  }

  /** Space: flip the selected entry. */
  function Toggle(s: State): State
  {
    s.(todos := FlipAt(s.todos, s.selected))
  }

  /** `d`: remove the selected entry, then pull the cursor back onto the
      last entry if it now points past the end of a non-empty list. */
  function Delete(s: State): State
  {
    if s.selected < |s.todos| then
      var rest := RemoveAt(s.todos, s.selected);
      s.(todos := rest,
         selected := if s.selected >= |rest| && rest != [] then |rest| - 1 else s.selected)
    else s
  }

  /** `a`: switch to Editing with an empty buffer. */
  function OpenEdit(s: State): State
  {
    s.(mode := Editing, input := [])
  }

  // ----- Editing mode -----

  /** Enter: a buffer that trims to something non-blank becomes a new
      uncompleted task at the end of the list and editing ends; a blank
      buffer leaves everything, the mode included, as it was. */
  function Commit(s: State): State
  {
    var title := Trim(s.input);
    if title != [] then
      s.(todos := s.todos + [Todo(title, false)], input := [], mode := Normal)
    else s
  }

  /** Esc: leave Editing and drop the buffer. */
  function Cancel(s: State): State
  {
    s.(mode := Normal, input := [])
  }

  /** Backspace: drop the last character of the buffer, if any (`String::pop`). */
  function PopChar(s: State): State
  {
    if s.input == [] then s else s.(input := s.input[..|s.input| - 1])
  }

  /** Any character key: append it to the buffer (`String::push`). */
  function PushChar(s: State, c: char): State
  {
    s.(input := s.input + [c])
  }

  /** One key event, dispatched on the mode as `run_app` does; keys an arm
      does not name leave the state alone. */
  function Step(s: State, k: Key): Outcome
  {
    match s.mode
    case Normal =>
      (match k
       case Char('q') => Quit(s.todos)
       case Down => Running(MoveDown(s))
       case Up => Running(MoveUp(s))
       case Char(' ') => Running(Toggle(s))
       case Char('d') => Running(Delete(s))
       case Char('a') => Running(OpenEdit(s))
       case _ => Running(s))
    case Editing =>
      (match k
       case Enter => Running(Commit(s))
       case Esc => Running(Cancel(s))
       case Backspace => Running(PopChar(s))
       case Char(c) => Running(PushChar(s, c))
       case _ => Running(s))
  }

  /** A finite stream of key events, stopping at the first one that quits. */
  function Exec(s: State, keys: seq<Key>): Outcome
    decreases |keys|
  {
    if keys == [] then Running(s)
    else
      match Step(s, keys[0])
      case Quit(saved) => Quit(saved)
      case Running(t) => Exec(t, keys[1..])
  }

  /** `run_app` fed with `keys`, starting from the loaded list. */
  function Run(loaded: seq<Todo>, keys: seq<Key>): Outcome
  {
    Exec(Init(loaded), keys)
  }

  /** The keys typed to enter `text` character by character. */
  function Keystrokes(text: string): (keys: seq<Key>)
    ensures |keys| == |text|
    ensures forall i :: 0 <= i < |text| ==> keys[i] == Char(text[i])
  {
    if text == [] then [] else [Char(text[0])] + Keystrokes(text[1..])
  }
}
