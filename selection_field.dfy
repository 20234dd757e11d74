/**
 * The selection field of the input-method example: a pressable, selectable
 * wrapper around one child, whose persistent tree state is a hover flag and a
 * pressed flag.
 */
module SelectionFieldWidget {
  import opened Wrappers
  import opened Core

  /** The widget value that the view rebuilds each frame; the wrapped child and its style are not modelled. */
  datatype SelectionField<M> = SelectionField(
    id: Internal,
    onPress: Option<M>,
    onSelect: Option<M>,
    index: nat,
    isSelected: bool,
    width: Length,
    height: Length,
    padding: real)
  {
    function WithOnPress(m: M): (r: SelectionField<M>)
      ensures r.onPress == Some(m) && r == this.(onPress := r.onPress)
    {
      this.(onPress := Some(m))
    }

    function WithOnSelect(m: M): (r: SelectionField<M>)
      ensures r.onSelect == Some(m) && r == this.(onSelect := r.onSelect)
    {
      this.(onSelect := Some(m))
    }

    /** `set_indexes`: the index this field stands for. */
    function SetIndexes(index: nat): (r: SelectionField<M>)
      ensures r.index == index && r == this.(index := index)
    {
      this.(index := index)
    }

    /** `selected`: the field is selected exactly when `index` is its own index. */
    function Selected(index: nat): (r: SelectionField<M>)
      ensures r.isSelected <==> index == this.index
      ensures r == this.(isSelected := r.isSelected)
    {
      this.(isSelected := index == this.index)
    }

    function WithWidth(width: Length): (r: SelectionField<M>)
      ensures r.width == width && r == this.(width := width)
    {
      this.(width := width)
    }

    function WithHeight(height: Length): (r: SelectionField<M>)
      ensures r.height == height && r == this.(height := height)
    {
      this.(height := height)
    }

    function WithPadding(padding: real): (r: SelectionField<M>)
      ensures r.padding == padding && r == this.(padding := padding)
    {
      this.(padding := padding)
    }

    function WithId(id: Internal): (r: SelectionField<M>)
      ensures r.id == id && r == this.(id := id)
    {
      this.(id := id)
    }
  }

  /** `SelectionField::new`; the fresh id is a parameter. */
  function New<M>(id: Internal): (f: SelectionField<M>)
    ensures f.id == id && f.onPress.None? && f.onSelect.None?
    ensures f.index == 0 && !f.isSelected
    ensures f.width == Shrink && f.height == Shrink && f.padding == 2.0
  {
    SelectionField(id, None, None, 0, false, Shrink, Shrink, 2.0)
  }

  /** The value of the widget's tree state. */
  datatype Flags = Flags(isHovered: bool, isPressed: bool)

  /** What one event does: the dispatch status, the new flags and the published messages. */
  datatype Reaction<M> = Reaction(status: EventStatus, flags: Flags, published: seq<M>)

  predicate IsCursorMoved(e: Event)
  {
    e.Mouse? && e.mouse.CursorMoved?
  }

  /**
   * The `on_event` rule. `childStatus` is what the wrapped child reported for the
   * same event; a child that captures the event ends the dispatch.
   */
  function Step<M>(f: SelectionField<M>, flags: Flags, childStatus: EventStatus, event: Event,
                   cursor: Cursor, bounds: Rectangle): (r: Reaction<M>)
    ensures childStatus == Captured ==> r == Reaction(Captured, flags, [])
    ensures r.published != [] ==> r.status == Captured
    ensures |r.published| <= 1
    ensures r.status == Ignored ==> r.published == []
    ensures !IsLost(event) ==> r.flags.isHovered == (flags.isHovered || (childStatus == Ignored && IsCursorMoved(event) && IsOver(cursor, bounds)))
    ensures childStatus == Ignored && IsLost(event) ==> r == Reaction(Ignored, Flags(false, false), [])
  {
    if childStatus == Captured then Reaction(Captured, flags, [])
    else if IsCursorMoved(event) then
      if PositionIn(cursor, bounds).Some? then
        assert childStatus == Ignored;
        Reaction(Captured, flags.(isHovered := true), if f.onSelect.Some? then [f.onSelect.value] else [])
      else Reaction(Ignored, flags, [])
    else if IsPress(event) then
      if f.onPress.Some? && IsOver(cursor, bounds) then Reaction(Captured, flags.(isPressed := true), [])
      else Reaction(Ignored, flags, [])
    else if IsRelease(event) then
      if f.onPress.Some? && flags.isPressed then
        Reaction(Captured, flags.(isPressed := false), if IsOver(cursor, bounds) then [f.onPress.value] else [])
      else Reaction(Ignored, flags, [])
    else if IsLost(event) then Reaction(Ignored, Flags(false, false), [])
    else Reaction(Ignored, flags, [])
  }

  /** The tree state of one selection field, updated in place by `on_event`. */
  class State {
    var isHovered: bool
    var isPressed: bool

    /** `State::new`: neither hovered nor pressed. */
    constructor ()
      ensures !isHovered && !isPressed
    {
      isHovered := false;
      isPressed := false;
    }

    function Value(): Flags
      reads this
    {
      Flags(isHovered, isPressed)
    }
  }

  /** `on_event`, after the child has reported `childStatus` for the same event. */
  method OnEvent<M>(f: SelectionField<M>, state: State, childStatus: EventStatus, event: Event,
                    cursor: Cursor, bounds: Rectangle, shell: Shell<M>) returns (status: EventStatus)
    modifies state, shell
    ensures var r := Step(f, old(state.Value()), childStatus, event, cursor, bounds);
      status == r.status && state.Value() == r.flags && shell.messages == old(shell.messages) + r.published
  {
    if childStatus == Captured {
      return Captured;
    }
    if IsCursorMoved(event) {
      if PositionIn(cursor, bounds).Some? {
        state.isHovered := true;
        if f.onSelect.Some? {
          shell.Publish(f.onSelect.value);
        }
        return Captured;
      }
    } else if IsPress(event) {
      if f.onPress.Some? && IsOver(cursor, bounds) {
        state.isPressed := true;
        return Captured;
      }
    } else if IsRelease(event) {
      if f.onPress.Some? {
        if state.isPressed {
          state.isPressed := false;
          if IsOver(cursor, bounds) {
            shell.Publish(f.onPress.value);
          }
          return Captured;
        }
      }
    } else if IsLost(event) {
      state.isHovered := false;
      state.isPressed := false;
    }
    status := Ignored;
  }

  /** `mouse_interaction`: a pointer exactly when the cursor is over the field. */
  function MouseInteraction(cursor: Cursor, bounds: Rectangle): (r: Interaction)
    ensures r == Pointer <==> IsOver(cursor, bounds)
    ensures r != Pointer ==> r == DefaultInteraction
  {
    if IsOver(cursor, bounds) then Pointer else DefaultInteraction
  }

  /** A press over an enabled field is captured and arms it, without publishing anything. */
  lemma PressArms<M>(f: SelectionField<M>, flags: Flags, press: Event, cursor: Cursor, bounds: Rectangle)
    requires IsPress(press)
    ensures var r := Step(f, flags, Ignored, press, cursor, bounds);
      && r.published == []
      && (r.status == Captured <==> f.onPress.Some? && IsOver(cursor, bounds))
      && r.flags == (if r.status == Captured then flags.(isPressed := true) else flags)
  {
  }

  /** A release publishes only when it ends a press, and only over the field; it always disarms an enabled field. */
  lemma ReleasePublishesOnlyAfterPress<M>(f: SelectionField<M>, flags: Flags, release: Event, cursor: Cursor, bounds: Rectangle)
    requires IsRelease(release)
    ensures var r := Step(f, flags, Ignored, release, cursor, bounds);
      && (r.published != [] <==> f.onPress.Some? && flags.isPressed && IsOver(cursor, bounds))
      && (r.published != [] ==> r.published == [f.onPress.value])
      && (r.status == Captured <==> f.onPress.Some? && flags.isPressed)
      && (f.onPress.Some? ==> !r.flags.isPressed)
      && (f.onPress.None? ==> r == Reaction(Ignored, flags, []))
  {
    EventKindsDisjoint(release);
  }

  /**
   * Press over the field, then release: exactly one message (`on_press`) when the release
   * is over the field too, none when the pointer was released outside.
   */
  lemma {:induction false} PressThenRelease<M>(f: SelectionField<M>, flags: Flags, press: Event, release: Event,
                                               c1: Cursor, c2: Cursor, bounds: Rectangle)
    requires IsPress(press) && IsRelease(release) && IsOver(c1, bounds) && f.onPress.Some?
    ensures var r1 := Step(f, flags, Ignored, press, c1, bounds);
      var r2 := Step(f, r1.flags, Ignored, release, c2, bounds);
      && r1.status == Captured && r2.status == Captured
      && r1.published + r2.published == (if IsOver(c2, bounds) then [f.onPress.value] else [])
      && !r2.flags.isPressed
  {
    PressArms(f, flags, press, c1, bounds);
    var r1 := Step(f, flags, Ignored, press, c1, bounds);
    ReleasePublishesOnlyAfterPress(f, r1.flags, release, c2, bounds);
  }

  /** From the initial state, a release with no press before it publishes nothing and is ignored. */
  lemma ReleaseWithoutPress<M>(f: SelectionField<M>, hovered: bool, release: Event, cursor: Cursor, bounds: Rectangle)
    requires IsRelease(release)
    ensures Step(f, Flags(hovered, false), Ignored, release, cursor, bounds) == Reaction(Ignored, Flags(hovered, false), [])
  {
    EventKindsDisjoint(release);
  }

  /**
   * A cursor move while the cursor is over the field hovers it and publishes `on_select`;
   * otherwise it changes nothing. The test is on the cursor passed to `on_event`, not on
   * the position the event carries.
   */
  lemma CursorMoveHovers<M>(f: SelectionField<M>, flags: Flags, p: Point, cursor: Cursor, bounds: Rectangle)
    ensures var r := Step(f, flags, Ignored, Mouse(CursorMoved(p)), cursor, bounds);
      if IsOver(cursor, bounds) then
        r == Reaction(Captured, flags.(isHovered := true), if f.onSelect.Some? then [f.onSelect.value] else [])
      else r == Reaction(Ignored, flags, [])
  {
  }
}
