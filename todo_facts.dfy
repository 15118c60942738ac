/** What the key dispatch of `run_app` promises, proved about module TodoList. */
module TodoFacts {
  import opened Text
  import opened TodoList

  // ----- The state invariant -----

  /** Every key keeps the cursor 0 or a valid index and the buffer empty
      outside Editing mode; a quit hands over the list as it stands. */
  lemma StepKeepsValid(s: State, k: Key)
    requires Valid(s)
    ensures Step(s, k).Running? ==> Valid(Step(s, k).state)
    ensures Step(s, k).Quit? ==> Step(s, k).saved == s.todos
  {
  }

  /** The invariant holds after any stream of keys. */
  lemma {:induction false} ExecKeepsValid(s: State, keys: seq<Key>)
    requires Valid(s)
    ensures Exec(s, keys).Running? ==> Valid(Exec(s, keys).state)
    decreases |keys|
  {
    if keys != [] {
      StepKeepsValid(s, keys[0]);
      if Step(s, keys[0]).Running? {
        ExecKeepsValid(Step(s, keys[0]).state, keys[1..]);
      }
    }
  }

  /** Whatever list was loaded, every state the loop reaches is valid. */
  lemma RunKeepsValid(loaded: seq<Todo>, keys: seq<Key>)
    ensures Run(loaded, keys).Running? ==> Valid(Run(loaded, keys).state)
  {
    ExecKeepsValid(Init(loaded), keys);
  }

  /** Handling `a` then `b` is handling `a + b`. */
  lemma {:induction false} ExecAppend(s: State, a: seq<Key>, b: seq<Key>)
    ensures Exec(s, a + b) == match Exec(s, a)
                              case Quit(saved) => Quit(saved)
                              case Running(t) => Exec(t, b)
    decreases |a|
  {
    if a == [] {
      assert a + b == b;
    } else {
      assert (a + b)[0] == a[0];
      assert (a + b)[1..] == a[1..] + b;
      if Step(s, a[0]).Running? {
        ExecAppend(Step(s, a[0]).state, a[1..], b);
      }
    }
  }

  // ----- Quit -----

  /** The loop ends exactly on `q` in Normal mode, saving the list unchanged. */
  lemma QuitOnlyFromNormal(s: State, k: Key)
    ensures Step(s, k).Quit? <==> s.mode == Normal && k == Char('q')
    ensures Step(s, k).Quit? ==> Step(s, k).saved == s.todos
  {
  }

  /** With no mutation between loading and quitting (navigation only), the
      list saved is the list loaded, in order and field for field. */
  lemma SaveRoundTrip(loaded: seq<Todo>, nav: seq<Key>)
    requires forall i :: 0 <= i < |nav| ==> nav[i] == Up || nav[i] == Down
    ensures Run(loaded, nav + [Char('q')]) == Quit(loaded)
  {
    NavigationInBounds(Init(loaded), nav);
    ExecAppend(Init(loaded), nav, [Char('q')]);
  }

  // ----- Navigation -----

  /** Any run of Up and Down keys in Normal mode keeps the cursor on an
      entry of a non-empty list (at 0 on an empty one) and changes nothing
      but the cursor. */
  lemma {:induction false} NavigationInBounds(s: State, keys: seq<Key>)
    requires Valid(s) && s.mode == Normal
    requires forall i :: 0 <= i < |keys| ==> keys[i] == Up || keys[i] == Down
    ensures Exec(s, keys).Running?
    ensures Exec(s, keys).state.todos == s.todos
    ensures Exec(s, keys).state.input == s.input
    ensures Exec(s, keys).state.mode == Normal
    ensures s.todos == [] ==> Exec(s, keys).state.selected == 0
    ensures s.todos != [] ==> Exec(s, keys).state.selected < |s.todos|
    decreases |keys|
  {
    if keys != [] {
      var t := Step(s, keys[0]).state;
      assert t == MoveUp(s) || t == MoveDown(s);
      NavigationInBounds(t, keys[1..]);
    }
  }

  /** Up undoes Down and Down undoes Up wherever they move the cursor. */
  lemma UpDownInverse(s: State)
    requires Valid(s)
    ensures s.selected > 0 ==> MoveDown(MoveUp(s)) == s
    ensures s.selected + 1 < |s.todos| ==> MoveUp(MoveDown(s)) == s
  {
  }

  // ----- Toggle -----

  /** Space flips the selected entry's flag only and touches nothing else;
      out of range it does nothing. */
  lemma ToggleEffect(s: State)
    ensures Toggle(s).selected == s.selected && Toggle(s).input == s.input && Toggle(s).mode == s.mode
    ensures |Toggle(s).todos| == |s.todos|
    ensures forall j :: 0 <= j < |s.todos| ==> Toggle(s).todos[j].title == s.todos[j].title
    ensures forall j :: 0 <= j < |s.todos| && j != s.selected ==> Toggle(s).todos[j] == s.todos[j]
    ensures s.selected < |s.todos| ==> Toggle(s).todos[s.selected].completed != s.todos[s.selected].completed
    ensures s.selected >= |s.todos| ==> Toggle(s) == s
  {
  }

  /** Two toggles restore the original state. */
  lemma ToggleTwice(s: State)
    ensures Toggle(Toggle(s)) == s
  {
    if s.selected < |s.todos| {
      assert Toggle(Toggle(s)).todos[s.selected] == s.todos[s.selected];
    }
  }

  // ----- Delete -----

  /** `d` on a valid state removes exactly the selected entry when there is
      one, keeps the others in order, and leaves the cursor on the entry
      that followed it, or on the new last entry, or at 0 on an empty list.
      On an empty list it does nothing. */
  lemma DeleteEffect(s: State)
    requires Valid(s)
    ensures Valid(Delete(s))
    ensures Delete(s).input == s.input && Delete(s).mode == s.mode
    ensures s.todos == [] ==> Delete(s) == s
    ensures s.todos != [] ==>
      var r := Delete(s).todos;
      |r| == |s.todos| - 1 &&
      multiset(r) + multiset{s.todos[s.selected]} == multiset(s.todos) &&
      (forall j :: 0 <= j < s.selected ==> r[j] == s.todos[j]) &&
      (forall j :: s.selected <= j < |r| ==> r[j] == s.todos[j + 1]) &&
      (r == [] ==> Delete(s).selected == 0) &&
      (r != [] ==> Delete(s).selected == if s.selected < |r| then s.selected else |r| - 1)
  {
  }

  /** Deleting the only entry leaves an empty list with the cursor at 0. */
  lemma DeleteLast(s: State)
    requires |s.todos| == 1 && s.selected == 0
    ensures Delete(s).todos == [] && Delete(s).selected == 0
  {
  }

  // ----- Editing -----

  /** Outside Enter, no key in Editing mode touches the list or the cursor;
      every character key, `q`, `d`, `a` and space included, goes into the
      buffer. */
  lemma EditingKeysKeepList(s: State, k: Key)
    requires s.mode == Editing && k != Enter
    ensures Step(s, k).Running?
    ensures Step(s, k).state.todos == s.todos && Step(s, k).state.selected == s.selected
    ensures k.Char? ==> Step(s, k).state == s.(input := s.input + [k.ch])
  {
  }

  /** Keys no arm names change nothing, in either mode. */
  lemma IgnoredKeys(s: State, k: Key)
    requires k == Other ||
             (s.mode == Normal && (k == Enter || k == Esc || k == Backspace ||
                                   (k.Char? && k.ch !in "q da"))) ||
             (s.mode == Editing && (k == Up || k == Down))
    ensures Step(s, k) == Running(s)
  {
  }

  /** Backspace undoes the last character typed, and does nothing on an
      empty buffer. */
  lemma BackspaceUndoesChar(s: State, c: char)
    ensures PopChar(PushChar(s, c)) == s
    ensures s.input == [] ==> PopChar(s) == s
  {
    assert (s.input + [c])[..|s.input|] == s.input;
  }

  /** Typing a text in Editing mode appends it to the buffer and does
      nothing else. */
  lemma {:induction false} TypingAppends(s: State, text: string)
    requires s.mode == Editing
    ensures Exec(s, Keystrokes(text)) == Running(s.(input := s.input + text))
    decreases |text|
  {
    if text == [] {
      assert s.(input := s.input + text) == s;
    } else {
      TypingAppends(PushChar(s, text[0]), text[1..]);
      TypeFirst(s, text);
    }
  }

  /** The first character typed goes to the buffer, and the rest of the
      text continues from there. */
  lemma TypeFirst(s: State, text: string)
    requires s.mode == Editing && text != []
    ensures Exec(s, Keystrokes(text)) == Exec(PushChar(s, text[0]), Keystrokes(text[1..]))
    ensures PushChar(s, text[0]).(input := PushChar(s, text[0]).input + text[1..])
         == s.(input := s.input + text)
  {
    assert Keystrokes(text)[1..] == Keystrokes(text[1..]) by {
      assert Keystrokes(text) == [Char(text[0])] + Keystrokes(text[1..]);
    }
    assert (s.input + [text[0]]) + text[1..] == s.input + text by {
      assert text == [text[0]] + text[1..];
    }
  }

  // ----- Commit -----

  /** Enter on a buffer holding only whitespace changes nothing: the mode
      stays Editing and the buffer keeps its content. */
  lemma BlankCommitIsNoop(s: State)
    requires s.mode == Editing && AllWhitespace(s.input)
    ensures Step(s, Enter) == Running(s)
  {
  }

  /** Enter on a non-blank buffer appends one uncompleted task whose title is
      non-empty and has no surrounding whitespace, keeps every earlier entry
      and the cursor, and ends editing with an empty buffer. */
  lemma CommitAppendsClean(s: State)
    requires s.mode == Editing && !AllWhitespace(s.input)
    ensures var r := Commit(s);
      |r.todos| == |s.todos| + 1 && r.todos[..|s.todos|] == s.todos &&
      r.todos[|s.todos|].title != [] && Trimmed(r.todos[|s.todos|].title) &&
      !r.todos[|s.todos|].completed &&
      r.selected == s.selected && r.input == [] && r.mode == Normal
  {
    var r := Commit(s);
    assert r.todos == s.todos + [Todo(Trim(s.input), false)];
    assert r.todos[..|s.todos|] == s.todos;
  }

  /** The committed title is the buffer without its whitespace padding. */
  lemma CommitStripsPadding(s: State, lead: string, title: string, trail: string)
    requires s.mode == Editing
    requires s.input == lead + title + trail
    requires AllWhitespace(lead) && AllWhitespace(trail)
    requires title != [] && Trimmed(title)
    ensures Step(s, Enter) == Running(s.(todos := s.todos + [Todo(title, false)], input := [], mode := Normal))
  {
    TrimUnpads(lead, title, trail);
    CommitsTitle(s, title);
  }

  lemma CommitsTitle(s: State, title: string)
    requires s.mode == Editing && Trim(s.input) == title && title != []
    ensures Step(s, Enter) == Running(s.(todos := s.todos + [Todo(title, false)], input := [], mode := Normal))
  {
  }

  /** "  Buy milk  " is committed as "Buy milk". */
  lemma CommitBuyMilk(todos: seq<Todo>, selected: nat)
    ensures Step(State(todos, selected, "  Buy milk  ", Editing), Enter)
         == Running(State(todos + [Todo("Buy milk", false)], selected, [], Normal))
  {
    assert "  Buy milk  " == "  " + "Buy milk" + "  ";
    CommitStripsPadding(State(todos, selected, "  Buy milk  ", Editing), "  ", "Buy milk", "  ");
  }

  // ----- Whole edits from Normal mode -----

  /** `a` followed by a text opens an edit holding exactly that text. */
  lemma OpenAndType(s: State, text: string)
    requires Valid(s) && s.mode == Normal
    ensures Exec(s, [Char('a')] + Keystrokes(text)) == Running(s.(mode := Editing, input := text))
  {
    var e := OpenEdit(s);
    assert Exec(s, [Char('a')]) == Running(e);
    assert e.input + text == text;
    TypingAppends(e, text);
    ExecAppend(s, [Char('a')], Keystrokes(text));
  }

  lemma OpenTypeThen(s: State, text: string, k: Key)
    requires Valid(s) && s.mode == Normal
    ensures Exec(s, [Char('a')] + Keystrokes(text) + [k])
         == Exec(s.(mode := Editing, input := text), [k])
  {
    OpenAndType(s, text);
    ExecAppend(s, [Char('a')] + Keystrokes(text), [k]);
  }

  /** `a`, a text that is not blank, Enter: the trimmed text is appended as a
      new uncompleted task and the controller is back where it was. */
  lemma AddTask(s: State, text: string)
    requires Valid(s) && s.mode == Normal && !AllWhitespace(text)
    ensures Exec(s, [Char('a')] + Keystrokes(text) + [Enter])
         == Running(s.(todos := s.todos + [Todo(Trim(text), false)]))
  {
    OpenTypeThen(s, text, Enter);
  }

  /** `a`, any text, Esc: no task is added and nothing else changes. */
  lemma CancelDiscards(s: State, text: string)
    requires Valid(s) && s.mode == Normal
    ensures Exec(s, [Char('a')] + Keystrokes(text) + [Esc]) == Running(s)
  {
    OpenTypeThen(s, text, Esc);
  }

  /** Re-opening an edit after a cancelled one starts from an empty buffer. */
  lemma ReopenStartsEmpty(s: State, text: string)
    requires Valid(s) && s.mode == Normal
    ensures Exec(s, [Char('a')] + Keystrokes(text) + [Esc, Char('a')])
         == Running(s.(mode := Editing))
  {
    CancelDiscards(s, text);
    assert [Char('a')] + Keystrokes(text) + [Esc, Char('a')]
        == ([Char('a')] + Keystrokes(text) + [Esc]) + [Char('a')];
    ExecAppend(s, [Char('a')] + Keystrokes(text) + [Esc], [Char('a')]);
  }
}
