/**
 * The drag-and-drop example application: a drop target that accepts text in
 * six mime types and a drag source that offers its text reversed.
 */
module DragApp {
  import opened Wrappers
  import Utf8

  /** `SUPPORTED_MIME_TYPES`, in order. */
  const SupportedMimeTypes: seq<string> := [
    "text/plain;charset=utf-8",
    "text/plain;charset=UTF-8",
    "UTF8_STRING",
    "STRING",
    "text/plain",
    "TEXT"
  ]

  predicate IsSupported(mimeType: string)
  {
    mimeType in SupportedMimeTypes
  }

  /** `MyDndString::from_mime_type`: the UTF-8 bytes of the text for a supported type, nothing otherwise. */
  function FromMimeType(text: string, mimeType: string): (r: Option<seq<Utf8.Byte>>)
    ensures r.Some? <==> IsSupported(mimeType)
    ensures r.Some? ==> r.value == Utf8.Encode(text) && Utf8.Decode(r.value) == Some(text)
  {
    Utf8.DecodeEncode(text);
    if IsSupported(mimeType) then Some(Utf8.Encode(text)) else None
  }

  /** One flag of the Wayland `DndAction` bit set; a set of flags is a `DndAction` value. */
  datatype DndFlag = Copy | Move | Ask

  /** `DndAction::all()`. */
  const AllActions: set<DndFlag> := {Copy, Move, Ask}

  datatype DndIcon = CustomIcon(window: nat)

  /** The data-device commands the example emits. */
  datatype Command =
    | SetActions(preferred: set<DndFlag>, accepted: set<DndFlag>)
    | AcceptMimeType(mimeType: Option<string>)
    | RequestDndData(requested: string)
    | StartDrag(offered: seq<string>, action: set<DndFlag>, origin: nat, icon: Option<DndIcon>, payload: string)

  /**
   * `DndState`: no offer over the target (`None`), an offer with the retained mime
   * types (`Some`), or a drop waiting for its data (`Drop`).
   */
  datatype DndState = NoTarget | Offered(mimeTypes: seq<string>) | Dropped

  datatype Message = Enter(mimeTypes: seq<string>) | Leave | Drop | DndData(data: seq<Utf8.Byte>) | Ignore | StartDnd | SourceFinished

  /** The value of the `DndTest` application. */
  datatype State = State(source: Option<string>, target: DndState, currentText: string)

  /** The state `new` starts from. */
  const Initial: State := State(None, NoTarget, "Hello, world!")

  /** The result of `update`: an ordered batch of commands, or a panic of the Rust code. */
  datatype Outcome = Commands(commands: seq<Command>) | Panicked

  /** `retain` with the supported-type test: the supported entries, in their original order. */
  function Retain(ms: seq<string>): (r: seq<string>)
    ensures |r| <= |ms|
    ensures forall m :: m in r <==> m in ms && IsSupported(m)
    decreases |ms|
  {
    if ms == [] then []
    else
      var last := ms[|ms| - 1];
      var r := Retain(ms[..|ms| - 1]) + (if IsSupported(last) then [last] else []);
      assert forall m :: m in ms <==> m in ms[..|ms| - 1] || m == last by {
        assert ms == ms[..|ms| - 1] + [last];
      }
      r
  }

  /** Retaining distributes over concatenation, so the relative order of kept types is the input's. */
  lemma {:induction false} RetainAppend(a: seq<string>, b: seq<string>)
    ensures Retain(a + b) == Retain(a) + Retain(b)
    decreases |b|
  {
    if b == [] {
      assert a + b == a;
    } else {
      var b' := b[..|b| - 1];
      assert (a + b)[..|a + b| - 1] == a + b';
      assert (a + b)[|a + b| - 1] == b[|b| - 1];
      RetainAppend(a, b');
    }
  }

  /** A list of supported types is kept whole, so retaining twice is retaining once. */
  lemma {:induction false} RetainKeepsSupported(ms: seq<string>)
    requires forall i :: 0 <= i < |ms| ==> IsSupported(ms[i])
    ensures Retain(ms) == ms
    decreases |ms|
  {
    if ms != [] {
      RetainKeepsSupported(ms[..|ms| - 1]);
      assert ms[..|ms| - 1] + [ms[|ms| - 1]] == ms;
    }
  }

  lemma RetainIdempotent(ms: seq<string>)
    ensures Retain(Retain(ms)) == Retain(ms)
  {
    var r := Retain(ms);
    assert forall i :: 0 <= i < |r| ==> r[i] in r;
    RetainKeepsSupported(r);
  }

  /** One `accept_mime_type(Some(m))` per type, in order. */
  function Accepts(ms: seq<string>): (r: seq<Command>)
    ensures |r| == |ms| && forall i :: 0 <= i < |ms| ==> r[i] == AcceptMimeType(Some(ms[i]))
  {
    seq(|ms|, i requires 0 <= i < |ms| => AcceptMimeType(Some(ms[i])))
  }

  /** `chars().rev()`. */
  function Reverse(s: string): (r: string)
    ensures |r| == |s|
    ensures forall i :: 0 <= i < |s| ==> r[i] == s[|s| - 1 - i]
  {
    if s == [] then [] else Reverse(s[1..]) + [s[0]]
  }

  lemma ReverseReverse(s: string)
    ensures Reverse(Reverse(s)) == s
  {
  }

  /** The batch `Enter` emits. */
  function EnterCommands(ms: seq<string>): seq<Command>
  {
    [SetActions({Copy}, AllActions)] + Accepts(Retain(ms))
  }

  /** The batch `Leave` emits. */
  const LeaveCommands: seq<Command> := [AcceptMimeType(None), SetActions({}, {})]

  /** The drag `StartDnd` starts: every supported type, a move, window 0 with icon surface 1, the reversed text. */
  function DragCommand(text: string): Command
  {
    StartDrag(SupportedMimeTypes, {Move}, 0, Some(CustomIcon(1)), Reverse(text))
  }

  /** The `update` function of the example, on state values. */
  function Step(s: State, m: Message): (r: (State, Outcome))
    ensures r.1.Panicked? ==> r.0 == s
    ensures r.0.source != s.source ==> m == StartDnd || m == SourceFinished
    ensures r.0.currentText != s.currentText ==> m.DndData? && s.target == Dropped
  {
    match m
    case Enter(ms) => (s.(target := Offered(Retain(ms))), Commands(EnterCommands(ms)))
    case Leave => (s.(target := NoTarget), Commands(LeaveCommands))
    case Drop =>
      if s.target.Offered? then
        if s.target.mimeTypes == [] then (s, Panicked)
        else (s.(target := Dropped), Commands([RequestDndData(s.target.mimeTypes[0])]))
      else (s, Commands([]))
    case DndData(data) =>
      if data == [] then (s, Commands([]))
      else if s.target == Dropped then
        match Utf8.Decode(data)
        case None => (s, Panicked)
        case Some(text) => (s.(currentText := text, target := NoTarget), Commands([]))
      else (s, Commands([]))
    case SourceFinished => (s.(source := None), Commands([]))
    case StartDnd => (s.(source := Some(s.currentText)), Commands([DragCommand(s.currentText)]))
    case Ignore => (s, Commands([]))
  }

  /** The listener's `on_enter`: an offer with no supported type becomes `Ignore`. */
  function EnterListener(ms: seq<string>): (m: Message)
    ensures m == Enter(ms) || m == Ignore
    ensures m.Enter? <==> exists i :: 0 <= i < |ms| && IsSupported(ms[i])
  {
    if exists i :: 0 <= i < |ms| && IsSupported(ms[i]) then Enter(ms) else Ignore
  }

  /** The listener's `on_data`: data is passed on only while a drop is waiting for it. */
  function DataListener(s: State, data: seq<Utf8.Byte>): (m: Message)
    ensures m.DndData? <==> s.target == Dropped
  {
    if s.target == Dropped then DndData(data) else Ignore
  }

  /** An offer over the target always retains at least one type. */
  predicate Valid(s: State)
  {
    s.target.Offered? ==> s.target.mimeTypes != []
  }

  /** A message the listener can produce in state `s`. */
  predicate FromListener(s: State, m: Message)
  {
    (m.Enter? ==> EnterListener(m.mimeTypes) == m) && (m.DndData? ==> DataListener(s, m.data) == m)
  }

  /** An offer that the listener passes on retains at least one type. */
  lemma EnterFromListenerRetainsSome(ms: seq<string>)
    requires EnterListener(ms).Enter?
    ensures Retain(ms) != []
  {
    var i :| 0 <= i < |ms| && IsSupported(ms[i]);
    assert ms[i] in Retain(ms);
  }

  /** Listener messages keep `Valid`, and `Drop` never panics in a valid state. */
  lemma StepKeepsValid(s: State, m: Message)
    requires Valid(s) && FromListener(s, m)
    ensures Valid(Step(s, m).0)
    ensures m == Drop ==> Step(s, m).1.Commands?
  {
    if m.Enter? {
      EnterFromListenerRetainsSome(m.mimeTypes);
    }
  }

  /** Enter stores the retained types and accepts each of them, in order, after setting the actions. */
  lemma EnterAcceptsRetained(s: State, ms: seq<string>)
    ensures var (t, out) := Step(s, Enter(ms));
      && t == s.(target := Offered(Retain(ms)))
      && out.Commands? && |out.commands| == 1 + |Retain(ms)|
      && out.commands[0] == SetActions({Copy}, AllActions)
      && forall i :: 0 <= i < |Retain(ms)| ==> out.commands[i + 1] == AcceptMimeType(Some(Retain(ms)[i]))
  {
  }

  /** Drop acts only on an offer: it requests the first retained type and waits for the data. */
  lemma DropRequestsFirst(s: State)
    requires Valid(s)
    ensures var (t, out) := Step(s, Drop);
      if s.target.Offered? then t == s.(target := Dropped) && out == Commands([RequestDndData(s.target.mimeTypes[0])])
      else t == s && out == Commands([])
  {
  }

  /** Empty data changes nothing; data outside a drop changes nothing; valid data after a drop replaces the text. */
  lemma DataRules(s: State, data: seq<Utf8.Byte>)
    ensures data == [] ==> Step(s, DndData(data)) == (s, Commands([]))
    ensures s.target != Dropped ==> Step(s, DndData(data)) == (s, Commands([]))
    ensures data != [] && s.target == Dropped && Utf8.Decode(data).Some? ==>
      Step(s, DndData(data)) == (State(s.source, NoTarget, Utf8.Decode(data).value), Commands([]))
    ensures data != [] && s.target == Dropped && Utf8.Decode(data).None? ==> Step(s, DndData(data)) == (s, Panicked)
  {
  }

  /**
   * The messages that make the Rust code panic, in any state: a drop on an offer that
   * retained no type, and data that is not UTF-8 arriving for a drop.
   */
  lemma PanicInputs(s: State, m: Message)
    ensures Step(s, m).1 == Panicked <==>
      (m == Drop && s.target == Offered([])) || (m.DndData? && m.data != [] && s.target == Dropped && Utf8.Decode(m.data).None?)
  {
  }

  /** A drag from another client may deliver bytes that are not UTF-8, such as a lone 0xFF, and the drop then panics. */
  lemma ForeignDataCanPanic(source: Option<string>, text: string)
    ensures DataListener(State(source, Dropped, text), [0xFF]) == DndData([0xFF])
    ensures Step(State(source, Dropped, text), DndData([0xFF])).1 == Panicked
  {
    assert Utf8.DecodeFirst([0xFF]).None?;
  }

  /**
   * Dragging the source onto its own target: the drag offers every supported type, the
   * target keeps all of them, and the drop requests the first one.
   */
  lemma DragOntoItself(text: string, target: DndState)
    ensures Step(State(None, target, text), StartDnd) == (State(Some(text), target, text), Commands([DragCommand(text)]))
    ensures Step(State(Some(text), target, text), Enter(SupportedMimeTypes)).0 == State(Some(text), Offered(SupportedMimeTypes), text)
    ensures Step(State(Some(text), Offered(SupportedMimeTypes), text), Drop)
      == (State(Some(text), Dropped, text), Commands([RequestDndData(SupportedMimeTypes[0])]))
  {
    EnterSupported(Some(text), target, text);
    DropAfterEnter(Some(text), text);
  }

  /**
   * The second half of the drag onto the own target: the source answers the request with
   * the bytes of the reversed text and the target shows the reversed text.
   */
  lemma OwnDragDelivers(text: string)
    ensures FromMimeType(Reverse(text), SupportedMimeTypes[0]) == Some(Utf8.Encode(Reverse(text)))
    ensures text != [] ==>
      Step(State(Some(text), Dropped, text), DndData(Utf8.Encode(Reverse(text))))
      == (State(Some(text), NoTarget, Reverse(text)), Commands([]))
    ensures text == [] ==>
      Step(State(Some(text), Dropped, text), DndData(Utf8.Encode(Reverse(text))))
      == (State(Some(text), Dropped, text), Commands([]))
  {
    DataAfterOwnDrag(Some(text), text, Reverse(text));
  }

  /** Entering with the offered types keeps all of them. */
  lemma EnterSupported(source: Option<string>, target: DndState, shown: string)
    ensures Step(State(source, target, shown), Enter(SupportedMimeTypes)).0 == State(source, Offered(SupportedMimeTypes), shown)
  {
    SupportedRetained();
  }

  lemma DropAfterEnter(source: Option<string>, shown: string)
    ensures Step(State(source, Offered(SupportedMimeTypes), shown), Drop)
      == (State(source, Dropped, shown), Commands([RequestDndData(SupportedMimeTypes[0])]))
  {
  }

  /** The bytes of any text are accepted after a drop and become the shown text. */
  lemma DataAfterOwnDrag(source: Option<string>, shown: string, text: string)
    ensures Utf8.Encode(text) != [] ==>
      Step(State(source, Dropped, shown), DndData(Utf8.Encode(text))) == (State(source, NoTarget, text), Commands([]))
  {
    Utf8.DecodeEncode(text);
  }

  /** Every type the source offers is one the target accepts. */
  lemma SupportedRetained()
    ensures Retain(SupportedMimeTypes) == SupportedMimeTypes
  {
    assert forall i :: 0 <= i < |SupportedMimeTypes| ==> IsSupported(SupportedMimeTypes[i]);
    RetainKeepsSupported(SupportedMimeTypes);
  }

  /** The application object, updated in place by `update`. */
  class DndTest {
    var source: Option<string>
    var target: DndState
    var currentText: string

    function Value(): State
      reads this
    {
      State(source, target, currentText)
    }

    /** `new`: the greeting text, no source, no target. */
    constructor ()
      ensures Value() == Initial
    {
      source := None;
      target := NoTarget;
      currentText := "Hello, world!";
    }

    /** The `Enter` branch: retain the supported types in place, then push one accept per type. */
    method OnEnter(mimeTypes: seq<string>) returns (cmds: seq<Command>)
      modifies this`target
      ensures target == Offered(Retain(mimeTypes))
      ensures cmds == EnterCommands(mimeTypes)
    {
      cmds := [SetActions({Copy}, AllActions)];
      var kept: seq<string> := [];
      var i := 0;
      while i < |mimeTypes|
        invariant 0 <= i <= |mimeTypes|
        invariant kept == Retain(mimeTypes[..i])
      {
        assert mimeTypes[..i + 1][..i] == mimeTypes[..i];
        if mimeTypes[i] in SupportedMimeTypes {
          kept := kept + [mimeTypes[i]];
        }
        i := i + 1;
      }
      assert mimeTypes[..|mimeTypes|] == mimeTypes;
      for j := 0 to |kept|
        invariant cmds == [SetActions({Copy}, AllActions)] + Accepts(kept[..j])
      {
        assert Accepts(kept[..j + 1]) == Accepts(kept[..j]) + [AcceptMimeType(Some(kept[j]))];
        cmds := cmds + [AcceptMimeType(Some(kept[j]))];
      }
      assert kept[..|kept|] == kept;
      target := Offered(kept);
    }

    /** `update`. */
    method Update(m: Message) returns (out: Outcome)
      modifies this
      ensures (Value(), out) == Step(old(Value()), m)
    {
      match m {
      case Enter(ms) =>
        var cmds := OnEnter(ms);
        return Commands(cmds);
      case Leave =>
        target := NoTarget;
        return Commands([AcceptMimeType(None), SetActions({}, {})]);
      case Drop =>
        if target.Offered? {
          if target.mimeTypes == [] {
            return Panicked;
          }
          var first := target.mimeTypes[0];
          target := Dropped;
          return Commands([RequestDndData(first)]);
        }
      case DndData(data) =>
        if data == [] {
          return Commands([]);
        }
        if target == Dropped {
          var text := Utf8.Decode(data);
          if text.None? {
            return Panicked;
          }
          currentText := text.value;
          target := NoTarget;
        }
      case SourceFinished =>
        source := None;
      case StartDnd =>
        source := Some(currentText);
        return Commands([StartDrag(SupportedMimeTypes, {Move}, 0, Some(CustomIcon(1)), Reverse(currentText))]);
      case Ignore =>
      }
      out := Commands([]);
    }
  }
}
