/**
 * The input-method example application: a popup offering accented variants of
 * a held key, navigated with Left/Right and committed with Enter. Its state is
 * the selected `index`, the `popup` flag and the `list` of offered characters.
 */
module InputMethodApp {
  import opened Wrappers
  import Core
  import Popup = InputMethodPopup
  import SF = SelectionFieldWidget

  datatype KeyCode = Left | Right | Enter | OtherKey(code: nat)

  /** A key event from the compositor; `utf8` is the text the key produces, if any. */
  datatype KeyEvent = KeyEvent(utf8: Option<string>, rawCode: nat)

  datatype Modifiers = Modifiers(ctrl: bool, alt: bool, shift: bool, capsLock: bool, logo: bool, numLock: bool)

  datatype RawModifiers = RawModifiers(depressed: nat, latched: nat, locked: nat, layout: nat)

  /** The application's messages; `ModifiersChanged` is the source's `Message::Modifiers`. */
  datatype Message =
    | Activate
    | Deactivate
    | KeyPressed(key: KeyEvent, code: KeyCode, modifiers: Modifiers)
    | KeyRepeat(key: KeyEvent, code: KeyCode, modifiers: Modifiers)
    | KeyReleased(key: KeyEvent, code: KeyCode, modifiers: Modifiers)
    | ModifiersChanged(modifiers: Modifiers, raw: RawModifiers)
    | UpdatePopup(index: nat)
    | Done

  /** `input_method::ActionInner`. */
  datatype InputMethodAction =
    | CommitString(text: string)
    | SetPreeditString(text: string, cursorBegin: int, cursorEnd: int)
    | Commit

  /** The virtual-keyboard actions the example forwards keys with. */
  datatype VirtualKeyboardAction = VkKeyPressed(key: KeyEvent) | VkKeyReleased(key: KeyEvent) | VkModifiers(raw: RawModifiers)

  /** One platform action of a command batch. */
  datatype Action =
    | ImAction(im: InputMethodAction)
    | PopupAction(popup: Popup.Action<Message>)
    | VkAction(vk: VirtualKeyboardAction)

  /** The result of `update`: an ordered batch of actions, or a panic of the Rust code. */
  datatype Outcome = Commands(actions: seq<Action>) | Panicked

  /** `ACCENTKEYS`: the accented variants offered for each base letter. */
  const AccentKeys: map<char, seq<char>> := map[
    'A' := ['À', 'Á', 'Â', 'Ã', 'Ä', 'Å', 'Ā', 'Ă', 'Ą', 'Æ'],
    'E' := ['É', 'È', 'Ê', 'Ë'],
    'I' := ['Í', 'Ì', 'Î', 'Ï'],
    'O' := ['Ó', 'Ò', 'Ô', 'Õ', 'Ö'],
    'U' := ['Ú', 'Ù', 'Û', 'Ü'],
    'a' := ['à', 'á', 'â', 'ã', 'ä', 'å', 'ā', 'ă', 'ą', 'æ'],
    'e' := ['é', 'è', 'ê', 'ë'],
    'i' := ['í', 'ì', 'î', 'ï'],
    'o' := ['ó', 'ò', 'ô', 'õ', 'ö'],
    'u' := ['ú', 'ù', 'û', 'ü']
  ]

  /** Every entry of the table offers at least one character. */
  lemma AccentListsNonEmpty(c: char)
    requires c in AccentKeys
    ensures |AccentKeys[c]| > 0
  {
  }

  /** `chars().last().unwrap_or_default()`: the last character, or NUL for the empty string. */
  function LastChar(s: string): (c: char)
    ensures s != [] ==> c == s[|s| - 1]
    ensures s == [] ==> c == '\0'
  {
    if s == [] then '\0' else s[|s| - 1]
  }

  /** The batch `commit_string` emits: hide the popup, commit the character, commit. */
  function CommitCommands(c: char): seq<Action>
  {
    [PopupAction(Popup.HidePopup), ImAction(CommitString([c])), ImAction(Commit)]
  }

  /** The batch `open_popup` emits: preedit the base character, commit, show the popup. */
  function OpenPopupCommands(c: char): seq<Action>
  {
    [ImAction(SetPreeditString([c], 0, 0)), ImAction(Commit), PopupAction(Popup.ShowPopup)]
  }

  /** The value of the application state. */
  datatype State = State(index: nat, popup: bool, list: seq<char>)

  /** The state `new` starts from: no popup, nothing offered. */
  const Initial: State := State(0, false, [])

  /** Left in popup mode: one step back, never below 0. */
  function MoveLeft(s: State): (t: State)
    ensures t.index == if s.index > 0 then s.index - 1 else 0
    ensures t == s.(index := t.index)
  {
    if s.index > 0 then s.(index := s.index - 1) else s
  }

  /**
   * Right in popup mode: one step forward while `index < len - 1`. The Rust
   * `len() - 1` on an empty list is an unsigned underflow, modelled as a panic.
   */
  function MoveRight(s: State): (r: (State, Outcome))
    ensures r.1 == Panicked <==> |s.list| == 0
    ensures |s.list| > 0 ==> r.0.index == (if s.index < |s.list| - 1 then s.index + 1 else s.index)
    ensures r.0 == s.(index := r.0.index)
  {
    if |s.list| == 0 then (s, Panicked)
    else if s.index < |s.list| - 1 then (s.(index := s.index + 1), Commands([]))
    else (s, Commands([]))
  }

  /** The `update` function of the example, on state values. */
  function Step(s: State, m: Message): (r: (State, Outcome))
    ensures r.1 == Panicked ==> r.0 == s
    ensures r.0.list != s.list ==> m.KeyRepeat? && !s.popup && r.0.popup && r.0.index == 0
  {
    match m
    case Activate => (s, Commands([]))
    case Deactivate => (s, Commands([]))
    case KeyPressed(_, code, _) =>
      if s.popup then
        (match code
         case Left => (MoveLeft(s), Commands([]))
         case Right => MoveRight(s)
         case Enter => if s.index < |s.list| then (s, Commands(CommitCommands(s.list[s.index]))) else (s, Panicked)
         case _ => (s, Commands([])))
      else (s, Commands([]))
    case KeyRepeat(key, code, _) =>
      if !s.popup then
        if key.utf8.Some? && LastChar(key.utf8.value) in AccentKeys then
          var c := LastChar(key.utf8.value);
          (State(0, true, AccentKeys[c]), Commands(OpenPopupCommands(c)))
        else (s, Commands([VkAction(VkKeyPressed(key))]))
      else
        (match code
         case Left => (MoveLeft(s), Commands([]))
         case Right => MoveRight(s)
         case _ => (s, Commands([])))
    case KeyReleased(key, code, _) =>
      if !s.popup then (s, Commands([VkAction(VkKeyPressed(key)), VkAction(VkKeyReleased(key))]))
      else if code == Enter then (s.(popup := false), Commands([]))
      else (s, Commands([]))
    case ModifiersChanged(_, raw) => (s, Commands([VkAction(VkModifiers(raw))]))
    case UpdatePopup(index) => (s.(index := index), Commands([]))
    case Done => (s, Commands([]))
  }

  /** The invariant that keeps Right from underflowing: a shown popup always offers something. */
  predicate Valid(s: State)
  {
    s.popup ==> |s.list| > 0
  }

  /** The invariant that keeps Enter from indexing out of range: a shown popup's index is in the list. */
  predicate Selectable(s: State)
  {
    s.popup ==> s.index < |s.list|
  }

  /** A message the running application can receive in state `s`: popup indices come from the current list. */
  predicate Admissible(s: State, m: Message)
  {
    m.UpdatePopup? ==> m.index < |s.list|
  }

  /** Every message keeps `Valid`, and no message that `Valid` admits makes the Rust code panic but Enter out of range. */
  lemma StepKeepsValid(s: State, m: Message)
    requires Valid(s)
    ensures Valid(Step(s, m).0)
    ensures Step(s, m).1 == Panicked ==> m.KeyPressed? && m.code == Enter && s.popup && s.index >= |s.list|
  {
    if m.KeyRepeat? && !s.popup && m.key.utf8.Some? && LastChar(m.key.utf8.value) in AccentKeys {
      AccentListsNonEmpty(LastChar(m.key.utf8.value));
    }
  }

  /**
   * The messages that make the Rust code panic, in any state: Right in a popup with an
   * empty list (the `len() - 1` underflow), and Enter pressed with the index past the list.
   */
  lemma PanicInputs(s: State, m: Message)
    ensures Step(s, m).1 == Panicked <==>
      s.popup && (((m.KeyPressed? || m.KeyRepeat?) && m.code == Right && |s.list| == 0)
                  || (m.KeyPressed? && m.code == Enter && s.index >= |s.list|))
  {
  }

  /** Admissible messages keep `Selectable`, so a valid, selectable state never panics. */
  lemma StepKeepsSelectable(s: State, m: Message)
    requires Valid(s) && Selectable(s) && Admissible(s, m)
    ensures Selectable(Step(s, m).0)
    ensures Step(s, m).1.Commands?
  {
    StepKeepsValid(s, m);
    if m.KeyRepeat? && !s.popup && m.key.utf8.Some? && LastChar(m.key.utf8.value) in AccentKeys {
      AccentListsNonEmpty(LastChar(m.key.utf8.value));
    }
  }

  /** The state after a run of messages, and whether any of them panicked. */
  function Run(s: State, ms: seq<Message>): (r: (State, bool))
    decreases |ms|
  {
    if ms == [] then (s, false)
    else
      var (t, out) := Step(s, ms[0]);
      if out == Panicked then (t, true) else Run(t, ms[1..])
  }

  /** Every message of the run is admissible in the state it arrives in. */
  predicate AdmissibleRun(s: State, ms: seq<Message>)
    decreases |ms|
  {
    ms == [] || (Admissible(s, ms[0]) && AdmissibleRun(Step(s, ms[0]).0, ms[1..]))
  }

  /** From the initial state, a run of admissible messages never panics and ends valid and selectable. */
  lemma {:induction false} AdmissibleRunNeverPanics(s: State, ms: seq<Message>)
    requires Valid(s) && Selectable(s) && AdmissibleRun(s, ms)
    ensures !Run(s, ms).1
    ensures Valid(Run(s, ms).0) && Selectable(Run(s, ms).0)
    decreases |ms|
  {
    if ms != [] {
      StepKeepsValid(s, ms[0]);
      StepKeepsSelectable(s, ms[0]);
      AdmissibleRunNeverPanics(Step(s, ms[0]).0, ms[1..]);
    }
  }

  lemma InitialIsValid()
    ensures Valid(Initial) && Selectable(Initial) && !Initial.popup && Initial.index == 0 && Initial.list == []
  {
  }

  /** Outside popup mode, a repeated key opens the popup exactly when its last character has accents; otherwise it is forwarded. */
  lemma RepeatOpensPopupIffAccent(s: State, key: KeyEvent, code: KeyCode, mods: Modifiers)
    requires !s.popup
    ensures var (t, out) := Step(s, KeyRepeat(key, code, mods));
      var opens := key.utf8.Some? && LastChar(key.utf8.value) in AccentKeys;
      && (t.popup <==> opens)
      && (opens ==> var c := LastChar(key.utf8.value);
            t == State(0, true, AccentKeys[c]) && out == Commands(OpenPopupCommands(c)))
      && (!opens ==> t == s && out == Commands([VkAction(VkKeyPressed(key))]))
  {
  }

  /** In popup mode, Left and Right (pressed or repeated) keep a selectable index in range and never go below 0. */
  lemma ArrowsStayInRange(s: State, m: Message)
    requires s.popup && Valid(s) && Selectable(s)
    requires (m.KeyPressed? || m.KeyRepeat?) && (m.code == Left || m.code == Right)
    ensures var (t, out) := Step(s, m);
      && out == Commands([]) && t.list == s.list && t.popup
      && t.index < |t.list|
      && (m.code == Left ==> t.index == if s.index == 0 then 0 else s.index - 1)
      && (m.code == Right ==> t.index == if s.index + 1 < |s.list| then s.index + 1 else s.index)
  {
  }

  /** Enter pressed in popup mode commits the selected character, in three ordered actions, and leaves the popup flag set. */
  lemma EnterCommitsSelection(s: State, key: KeyEvent, mods: Modifiers)
    requires s.popup && s.index < |s.list|
    ensures Step(s, KeyPressed(key, Enter, mods)) == (s, Commands(
      [PopupAction(Popup.HidePopup), ImAction(CommitString([s.list[s.index]])), ImAction(Commit)]))
  {
  }

  /** Outside popup mode a key press does nothing; a key release is forwarded as press then release. */
  lemma KeysOutsidePopup(s: State, key: KeyEvent, code: KeyCode, mods: Modifiers)
    requires !s.popup
    ensures Step(s, KeyPressed(key, code, mods)) == (s, Commands([]))
    ensures Step(s, KeyReleased(key, code, mods)) == (s, Commands([VkAction(VkKeyPressed(key)), VkAction(VkKeyReleased(key))]))
  {
  }

  /** In popup mode a release changes state only for Enter, which closes the popup; it emits nothing. */
  lemma ReleaseInPopup(s: State, key: KeyEvent, code: KeyCode, mods: Modifiers)
    requires s.popup
    ensures Step(s, KeyReleased(key, code, mods)) == (if code == Enter then s.(popup := false) else s, Commands([]))
  {
  }

  /** The selection field the view builds for entry `i` of the list. */
  function ViewField(s: State, i: nat, id: Core.Internal): SF.SelectionField<Message>
  {
    SF.New(id).SetIndexes(i).Selected(s.index).WithOnPress(Deactivate).WithOnSelect(UpdatePopup(i))
  }

  /** `view`: one selection field per offered character, in order; `freshId` stands for `Id::unique()`. */
  function View(s: State, freshId: nat -> Core.Internal): (fields: seq<SF.SelectionField<Message>>)
    ensures |fields| == |s.list|
    ensures forall i :: 0 <= i < |fields| ==> fields[i] == ViewField(s, i, freshId(i))
  {
    seq(|s.list|, i requires 0 <= i < |s.list| => ViewField(s, i, freshId(i)))
  }

  /**
   * The view marks exactly the field at `index` as selected, and every message its
   * fields can publish is admissible in the current state.
   */
  lemma ViewMessagesAdmissible(s: State, freshId: nat -> Core.Internal, i: nat)
    requires i < |View(s, freshId)|
    ensures var f := View(s, freshId)[i];
      && (f.isSelected <==> i == s.index)
      && f.onSelect == Some(UpdatePopup(i)) && Admissible(s, f.onSelect.value)
      && f.onPress == Some(Deactivate) && Admissible(s, f.onPress.value)
  {
  }

  /** The application object, updated in place by `update`. */
  class InputMethod {
    var index: nat
    var popup: bool
    var list: seq<char>

    function Value(): State
      reads this
    {
      State(index, popup, list)
    }

    /** `new`: the initial state, and no command. */
    constructor ()
      ensures Value() == Initial
    {
      index := 0;
      popup := false;
      list := [];
    }

    /** `commit_string`: the commit batch; the state is not touched. */
    method CommitString(c: char) returns (cmd: seq<Action>)
      ensures cmd == CommitCommands(c)
    {
      cmd := [PopupAction(Popup.HidePopup), ImAction(InputMethodAction.CommitString([c])), ImAction(Commit)];
    }

    /** `open_popup`: shows `l` with the first entry selected. */
    method OpenPopup(c: char, l: seq<char>) returns (cmd: seq<Action>)
      modifies this
      ensures popup && index == 0 && list == l
      ensures cmd == OpenPopupCommands(c)
    {
      popup := true;
      index := 0;
      list := l;
      cmd := [ImAction(SetPreeditString([c], 0, 0)), ImAction(Commit), PopupAction(Popup.ShowPopup)];
    }

    method ArrowKey(code: KeyCode) returns (out: Outcome)
      requires code == Left || code == Right
      modifies this
      ensures code == Left ==> Value() == MoveLeft(old(Value())) && out == Commands([])
      ensures code == Right ==> (Value(), out) == MoveRight(old(Value()))
    {
      if code == Left {
        if index > 0 {
          index := index - 1;
        }
        out := Commands([]);
      } else {
        if |list| == 0 {
          return Panicked;
        }
        if index < |list| - 1 {
          index := index + 1;
        }
        out := Commands([]);
      }
    }

    /** `update`. */
    method Update(m: Message) returns (out: Outcome)
      modifies this
      ensures (Value(), out) == Step(old(Value()), m)
    {
      match m
      case KeyPressed(_, code, _) =>
        if popup {
          match code
          case Left => out := ArrowKey(code);
          case Right => out := ArrowKey(code);
          case Enter =>
            if index >= |list| {
              return Panicked;
            }
            var cmd := CommitString(list[index]);
            out := Commands(cmd);
          case _ => out := Commands([]);
        } else {
          out := Commands([]);
        }
      case KeyRepeat(key, code, _) =>
        if !popup {
          if key.utf8.Some? {
            var c := LastChar(key.utf8.value);
            if c in AccentKeys {
              var cmd := OpenPopup(c, AccentKeys[c]);
              out := Commands(cmd);
            } else {
              out := Commands([VkAction(VkKeyPressed(key))]);
            }
          } else {
            out := Commands([VkAction(VkKeyPressed(key))]);
          }
        } else {
          match code
          case Left => out := ArrowKey(code);
          case Right => out := ArrowKey(code);
          case _ => out := Commands([]);
        }
      case KeyReleased(key, code, _) =>
        if !popup {
          out := Commands([VkAction(VkKeyPressed(key)), VkAction(VkKeyReleased(key))]);
        } else {
          if code == Enter {
            popup := false;
          }
          out := Commands([]);
        }
      case ModifiersChanged(_, raw) =>
        out := Commands([VkAction(VkModifiers(raw))]);
      case UpdatePopup(i) =>
        index := i;
        out := Commands([]);
      case Activate => out := Commands([]);
      case Deactivate => out := Commands([]);
      case Done => out := Commands([]);
    }
  }
}
