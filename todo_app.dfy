/** The mutable side of `run_app`: its four locals as the fields of an
    object, one method per arm of the key dispatch, the dispatch, and the
    event loop over a finite stream of keys. Every method is proved against
    the matching function of module TodoList. */
module App {
  import opened Text
  import opened TodoList

  class TodoApp {
    var todos: seq<Todo>
    var selected: nat
    var input: string
    var mode: InputMode

    /** The fields as a value. */
    function Model(): State
      reads this
    {
      State(todos, selected, input, mode)
    }

    /** The invariant of the loop (the cursor is 0 or a valid index, the
        buffer is empty outside Editing mode). */
    predicate Valid()
      reads this
    {
      TodoList.Valid(Model())
    }

    /** The locals as `run_app` sets them up around the loaded list. */
    constructor (loaded: seq<Todo>)
      ensures Valid()
      ensures Model() == Init(loaded)
    {
      todos, selected, input, mode := loaded, 0, [], Normal;
    }

    method MoveDown()
      requires Valid() && mode == Normal
      modifies this
      ensures Valid()
      ensures todos == old(todos) && input == old(input) && mode == old(mode)
      ensures Model() == TodoList.MoveDown(old(Model()))
    {
      if selected + 1 < |todos| {
        selected := selected + 1;
      }
    }

    method MoveUp()
      requires Valid() && mode == Normal
      modifies this
      ensures Valid()
      ensures todos == old(todos) && input == old(input) && mode == old(mode)
      ensures Model() == TodoList.MoveUp(old(Model()))
    {
      if selected > 0 {
        selected := selected - 1;
      }
    }

    method Toggle()
      requires Valid() && mode == Normal
      modifies this
      ensures Valid()
      ensures selected == old(selected) && input == old(input) && mode == old(mode)
      ensures Model() == TodoList.Toggle(old(Model()))
    {
      if selected < |todos| {
        var todo := todos[selected];
        todos := todos[selected := todo.(completed := !todo.completed)];
      }
    }

    method Delete()
      requires Valid() && mode == Normal
      modifies this
      ensures Valid()
      ensures input == old(input) && mode == old(mode)
      ensures Model() == TodoList.Delete(old(Model()))
    {
      if selected < |todos| {
        todos := todos[..selected] + todos[selected + 1..];
        if selected >= |todos| && todos != [] {
          selected := |todos| - 1;
        }
      }
    }

    method OpenEdit()
      requires Valid() && mode == Normal
      modifies this
      ensures Valid()
      ensures mode == Editing && input == []
      ensures Model() == TodoList.OpenEdit(old(Model()))
    {
      mode := Editing;
      input := [];
    }

    method Commit()
      requires Valid() && mode == Editing
      modifies this
      ensures Valid()
      ensures selected == old(selected)
      ensures Model() == TodoList.Commit(old(Model()))
    {
      ghost var before := Model();
      var title := Trim(input);
      if title != [] {
        todos := todos + [Todo(title, false)];
        input := [];
        mode := Normal;
      }
      assert Model() == TodoList.Commit(before);
    }

    method Cancel()
      requires Valid() && mode == Editing
      modifies this
      ensures Valid()
      ensures todos == old(todos) && selected == old(selected)
      ensures mode == Normal && input == []
      ensures Model() == TodoList.Cancel(old(Model()))
    {
      mode := Normal;
      input := [];
    }

    method PopChar()
      requires Valid() && mode == Editing
      modifies this
      ensures Valid()
      ensures todos == old(todos) && selected == old(selected) && mode == old(mode)
      ensures Model() == TodoList.PopChar(old(Model()))
    {
      if input != [] {
        input := input[..|input| - 1];
      }
    }

    method PushChar(c: char)
      requires Valid() && mode == Editing
      modifies this
      ensures Valid()
      ensures todos == old(todos) && selected == old(selected) && mode == old(mode)
      ensures input == old(input) + [c]
      ensures Model() == TodoList.PushChar(old(Model()), c)
    {
      input := input + [c];
    }

    /** One key event. `quit` is set exactly when the loop returns, and
        `saved` is then the list handed to the save routine. */
    method HandleKey(k: Key) returns (quit: bool, saved: seq<Todo>)
      requires Valid()
      modifies this
      ensures Valid()
      ensures Step(old(Model()), k) == if quit then Quit(saved) else Running(Model())
      ensures quit ==> Model() == old(Model())
    {
      quit, saved := false, [];
      match mode {
        case Normal =>
          match k {
            case Char('q') => quit, saved := true, todos;
            case Down => MoveDown();
            case Up => MoveUp();
            case Char(' ') => Toggle();
            case Char('d') => Delete();
            case Char('a') => OpenEdit();
            case _ =>
          }
        case Editing =>
          match k {
            case Enter => Commit();
            case Esc => Cancel();
            case Backspace => PopChar();
            case Char(c) => PushChar(c);
            case _ =>
          }
      }
    }
  }

  /** `run_app` over a finite stream of key events: set up the state around
      the loaded list and handle keys one at a time until one quits or the
      stream ends. */
  method RunApp(loaded: seq<Todo>, keys: seq<Key>) returns (r: Outcome)
    ensures r == Run(loaded, keys)
    ensures r.Running? ==> TodoList.Valid(r.state)
  {
    var app := new TodoApp(loaded);
    var i := 0;
    while i < |keys|
      invariant 0 <= i <= |keys|
      invariant app.Valid()
      invariant Exec(app.Model(), keys[i..]) == Run(loaded, keys)
    {
      var quit, saved := app.HandleKey(keys[i]);
      if quit {
        return Quit(saved);
      }
      i := i + 1;
    }
    return Running(app.Model());
  }
}
