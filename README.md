# Terminal todo list: the key-dispatch state machine

This project models the core of a terminal todo-list application written in
Rust: the loop in `run_app` that reacts to one key at a time. The loop keeps
four pieces of state:

- the task list, where each task has a title and a completed flag;
- a cursor (`selected`);
- an edit buffer (`input`);
- an input mode, `Normal` or `Editing`.

In Normal mode the keys do the following:

- Up and Down move the cursor within the list.
- Space flips the selected task's completed flag.
- `d` deletes the selected task and pulls the cursor back onto the list.
- `a` opens an edit with an empty buffer.
- `q` saves the list and quits.

In Editing mode the keys do the following:

- Every character key is appended to the buffer.
- Backspace removes the last character.
- Esc cancels the edit.
- Enter commits the trimmed buffer as a new task, but only if it is not blank.

All other keys are ignored.

Files:

- `text.dfy` (module `Text`): Rust's `str::trim`. `IsWhitespace` holds for the
  characters with the Unicode White_Space property, which are the ones
  `char::is_whitespace` accepts. `Trim` drops the leading whitespace, then
  the trailing whitespace of what is left.
- `todo_list.dfy` (module `TodoList`): the state as a value and one function
  per arm of the key dispatch. `Step` dispatches one key on the mode. `Exec`
  and `Run` repeat `Step` over a finite stream of keys.
- `todo_app.dfy` (module `App`): the class `TodoApp`. Its fields are the four
  locals of `run_app`, with the list as a `seq`. It has one method per key arm
  and a dispatch method `HandleKey`. `RunApp` is the event loop. Each method
  is proved to produce exactly the state the matching `TodoList` function
  gives, and to keep the invariant `Valid()`.
- `todo_facts.dfy` (module `TodoFacts`): the properties of the state machine.
  These cover the invariant, navigation bounds, toggle, delete, the editing
  keys, commit, quit and save.

The invariant has two parts: the cursor is 0 or a valid index, and the buffer
is empty in Normal mode. It holds initially, every key preserves it, and so it
holds after any stream of keys.

The commit rule follows the code. The buffer is cleared and the mode set back
to Normal only inside the non-blank branch. So Enter on an all-whitespace
buffer changes nothing: the mode stays Editing and the buffer keeps its
content (`TodoFacts.BlankCommitIsNoop`).

## Model

| member | source | states |
|---|---|---|
| `Text.LeadingWhitespace` | src/main.rs:159-161 | the count of leading whitespace characters: every character before it is whitespace and the one at it, if any, is not |
| `Text.LengthWithoutTrailing` | src/main.rs:159-161 | the length without trailing whitespace: every character from it on is whitespace and the one just before it, if any, is not |
| `Text.Trim` | src/main.rs:159-161 | the trimmed buffer has no leading or trailing whitespace, is no longer than the buffer, and is empty exactly when the buffer is all whitespace |
| `Text.TrimSplits` | src/main.rs:159-161 | every buffer is its trimmed form with whitespace padding on both sides |
| `Text.TrimUnpads` | src/main.rs:159-161 | trimming a padded string that has no surrounding whitespace gives back exactly that string, so `Trim` removes the padding and nothing else |
| `Text.TrimIdempotent` | src/main.rs:159-161 | trimming twice is the same as trimming once |
| `TodoList.RemoveAt` | src/main.rs:145 | `Vec::remove` shortens the list by one, keeps the entries before the index, shifts the entries after it down by one, and drops exactly that entry (multiset) |
| `TodoList.FlipAt` | src/main.rs:139-141 | the length is kept, every other entry is unchanged, and an in-range entry keeps its title with its completed flag negated |
| `TodoList.Keystrokes` | src/main.rs:175-177 | the character keys that type a text, one key per character, in order |
| `App.TodoApp.constructor` | src/main.rs:70-73 | the loaded list, cursor 0, an empty buffer and Normal mode, which satisfy the invariant |
| `App.TodoApp.MoveDown` | src/main.rs:128-132 | the new state is `TodoList.MoveDown` of the old one, only the cursor changes, and the invariant is kept |
| `App.TodoApp.MoveUp` | src/main.rs:133-137 | the new state is `TodoList.MoveUp` of the old one, only the cursor changes, and the invariant is kept |
| `App.TodoApp.Toggle` | src/main.rs:138-142 | the new state is `TodoList.Toggle` of the old one, cursor, buffer and mode are unchanged, and the invariant is kept |
| `App.TodoApp.Delete` | src/main.rs:143-149 | the new state is `TodoList.Delete` of the old one, buffer and mode are unchanged, and the invariant is kept (the cursor is re-clamped) |
| `App.TodoApp.OpenEdit` | src/main.rs:151-154 | the mode becomes Editing and the buffer is empty, whatever it held before |
| `App.TodoApp.Commit` | src/main.rs:158-167 | the new state is `TodoList.Commit` of the old one, the cursor is unchanged, and the invariant is kept |
| `App.TodoApp.Cancel` | src/main.rs:168-171 | the mode becomes Normal, the buffer is empty, and the list and cursor are unchanged |
| `App.TodoApp.PopChar` | src/main.rs:172-174 | the new state is `TodoList.PopChar` of the old one, and the list, cursor and mode are unchanged |
| `App.TodoApp.PushChar` | src/main.rs:175-177 | the character is appended to the buffer, and the list, cursor and mode are unchanged |
| `App.TodoApp.HandleKey` | src/main.rs:122-180 | dispatching a key on the mode gives exactly `TodoList.Step`: it quits with the current list and the fields unchanged, or it continues in the state `Step` gives, and it keeps the invariant |
| `App.RunApp` | src/main.rs:69-183 | the loop over a key stream returns exactly `TodoList.Run` of the loaded list and the keys, and any state it returns in satisfies the invariant |
| `TodoFacts.StepKeepsValid` | src/main.rs:122-180 | every key, in both modes, preserves the invariant, and a quit saves the list as it stands |
| `TodoFacts.ExecKeepsValid` | src/main.rs:75-183 | the invariant holds after any finite stream of keys |
| `TodoFacts.RunKeepsValid` | src/main.rs:70-183 | from any loaded list, every state the loop reaches satisfies the invariant |
| `TodoFacts.ExecAppend` | src/main.rs:75-183 | handling two key streams one after the other is the same as handling their concatenation, and a quit in the first stream ends the run |
| `TodoFacts.QuitOnlyFromNormal` | src/main.rs:124-127 | the loop ends if and only if the key is `q` and the mode is Normal, and the list saved is the current list |
| `TodoFacts.SaveRoundTrip` | src/main.rs:124-137 | loading a list, only navigating, then quitting saves exactly the loaded list |
| `TodoFacts.NavigationInBounds` | src/main.rs:128-137 | any run of Up and Down keys in Normal mode keeps the cursor on an entry of a non-empty list, or at 0 on an empty one, and changes nothing but the cursor |
| `TodoFacts.UpDownInverse` | src/main.rs:128-137 | Up undoes Down, and Down undoes Up, wherever the first key moved the cursor |
| `TodoFacts.ToggleEffect` | src/main.rs:138-142 | Space flips the selected flag only: titles, other entries, length, cursor, buffer and mode are unchanged, and it does nothing when the cursor is out of range |
| `TodoFacts.ToggleTwice` | src/main.rs:138-142 | two toggles restore the original state |
| `TodoFacts.DeleteEffect` | src/main.rs:143-149 | delete removes exactly the selected entry and keeps the rest in order, re-clamps the cursor to the last entry or to 0, keeps the invariant, and does nothing on an empty list |
| `TodoFacts.DeleteLast` | src/main.rs:143-149 | deleting the only entry leaves an empty list with the cursor at 0 |
| `TodoFacts.EditingKeysKeepList` | src/main.rs:168-177 | in Editing mode no key except Enter touches the list or the cursor, and every character key, `q`, `d`, `a` and space included, is appended to the buffer |
| `TodoFacts.IgnoredKeys` | src/main.rs:122-180 | keys that no arm names change nothing, in either mode |
| `TodoFacts.BackspaceUndoesChar` | src/main.rs:172-177 | Backspace removes the character just typed, and does nothing on an empty buffer |
| `TodoFacts.TypingAppends` | src/main.rs:175-177 | typing a text in Editing mode appends it to the buffer and changes nothing else |
| `TodoFacts.BlankCommitIsNoop` | src/main.rs:158-167 | Enter on an all-whitespace buffer changes nothing: the mode stays Editing and the buffer is kept |
| `TodoFacts.CommitAppendsClean` | src/main.rs:158-167 | Enter on a non-blank buffer appends one uncompleted task with a non-empty title that has no surrounding whitespace, keeps the earlier entries and the cursor, and returns to Normal mode with an empty buffer |
| `TodoFacts.CommitStripsPadding` | src/main.rs:158-166 | the committed title is the buffer with its whitespace padding removed |
| `TodoFacts.CommitBuyMilk` | src/main.rs:158-166 | the buffer "  Buy milk  " is committed as the task "Buy milk", not completed |
| `TodoFacts.OpenAndType` | src/main.rs:151-177 | `a` followed by some character keys opens an edit holding exactly those characters |
| `TodoFacts.AddTask` | src/main.rs:151-167 | `a`, a non-blank text and Enter append the trimmed text as a new uncompleted task and change nothing else |
| `TodoFacts.CancelDiscards` | src/main.rs:151-171 | `a`, any text and Esc leave the state exactly as it was, so no task is added |
| `TodoFacts.ReopenStartsEmpty` | src/main.rs:151-171 | opening an edit again after a cancelled one starts from an empty buffer |

## Left out

- Terminal setup and teardown, and error printing in `main` (src/main.rs:45-67): these are terminal I/O through a foreign library.
- Rendering in the `terminal.draw` closure (src/main.rs:76-118): these are widget calls into a foreign library, and they only read the state.
- Event polling and reading (src/main.rs:120-121): the key events are the parameter `keys` of `RunApp` and `Run`. Non-key events and poll timeouts do nothing in the source, so they are simply absent from the stream.
- The stream of events is finite in the model. When it ends before a quit, `RunApp` returns the state reached (`Running`), whereas the source would go on waiting.
- The I/O errors that `draw`, `poll` and `read` may return (the `?` operators) are not modelled.
- `load_todos` and `save_todos` (src/main.rs:31-43): these are file I/O and JSON (de)serialisation in a foreign library. The loaded list is an arbitrary parameter. Saving is the `Quit(saved)` outcome, which carries the list handed to `save_todos`.
- Key press and key release kinds are not distinguished: every key event is handled once.
- `Text.IsWhitespace` is a fixed list of code points. It is not derived from the Unicode character database.
- `selected` is a `nat`, not a `usize`. `selected + 1` cannot overflow in the source because the cursor is 0 or below the list length (src/main.rs:129, 146-147).
