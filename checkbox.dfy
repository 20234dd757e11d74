/**
 * The checkbox widget: how a press turns into a published toggle message,
 * the status it is drawn with, its colour rule and its pair of ids.
 */
module CheckboxWidget {
  import opened Wrappers
  import opened Core

  /** The status a checkbox is drawn with; every status carries `is_checked`. */
  datatype Status = Active(isChecked: bool) | Hovered(isChecked: bool) | Disabled(isChecked: bool)

  /** A palette pair: a colour and the text colour that goes on it. */
  datatype Pair<C> = Pair(color: C, text: C)

  datatype Background<C> = BackgroundColor(color: C)

  datatype Border<C> = Border(color: C, width: real, radius: real)

  datatype Style<C> = Style(background: Background<C>, iconColor: C, border: Border<C>, textColor: Option<C>)

  /** The style class of a checkbox: the theme's default (`primary`) or a custom style function. */
  datatype StyleClass<!Th, C> = Primary | CustomStyle(f: (Th, Status) -> Style<C>)

  /** The checkmark icon: its code point and an optional font size. */
  datatype Icon = Icon(codePoint: char, size: Option<real>)

  /** A call the checkbox makes on the renderer while drawing. */
  datatype DrawCall<C> =
    | FillQuad(bounds: Rectangle, border: Border<C>, background: Background<C>)
    | FillText(content: char, size: real, position: Point, color: C)
    | DrawLabel(bounds: Rectangle, textColor: Option<C>)

  const DefaultSize: real := 16.0
  const DefaultSpacing: real := 8.0

  /** The status rule of `draw`. */
  function SelectStatus(isDisabled: bool, isMouseOver: bool, isChecked: bool): (s: Status)
    ensures s.Disabled? <==> isDisabled
    ensures s.Hovered? <==> !isDisabled && isMouseOver
    ensures s.Active? <==> !isDisabled && !isMouseOver
    ensures s.isChecked == isChecked
  {
    if isDisabled then Disabled(isChecked)
    else if isMouseOver then Hovered(isChecked)
    else Active(isChecked)
  }

  /** The colour rule every built-in checkbox style goes through. */
  function Styled<C>(iconColor: C, base: Pair<C>, accent: Pair<C>, isChecked: bool): Style<C>
  {
    Style(
      BackgroundColor(if isChecked then accent.color else base.color),
      iconColor,
      Border(accent.color, 1.0, 2.0),
      None)
  }

  /** What `styled` promises: the fill follows `is_checked`, the border is always the accent. */
  lemma StyledColours<C>(iconColor: C, base: Pair<C>, accent: Pair<C>, isChecked: bool)
    ensures var s := Styled(iconColor, base, accent, isChecked);
      && s.background.color == (if isChecked then accent.color else base.color)
      && s.border.color == accent.color && s.border.width == 1.0 && s.border.radius == 2.0
      && s.iconColor == iconColor && s.textColor.None?
  {
  }

  /** Toggling a checkbox changes its fill and nothing else; a checked box is filled with its border colour. */
  lemma StyledToggleOnlyChangesFill<C>(iconColor: C, base: Pair<C>, accent: Pair<C>)
    ensures Styled(iconColor, base, accent, false) == Styled(iconColor, base, accent, true).(background := BackgroundColor(base.color))
    ensures Styled(iconColor, base, accent, true).background.color == Styled(iconColor, base, accent, false).border.color
  {
  }

  /** What one event does to a checkbox: its dispatch status and the messages it publishes. */
  datatype Reaction<M> = Reaction(status: EventStatus, published: seq<M>)

  /**
   * The `on_event` rule: only a press over the bounds of an enabled checkbox is captured,
   * and it publishes exactly one message, the toggle callback applied to `!is_checked`.
   */
  function PressReaction<M>(event: Event, isMouseOver: bool, onToggle: Option<bool -> M>, isChecked: bool): (r: Reaction<M>)
    ensures r.status == Captured <==> IsPress(event) && isMouseOver && onToggle.Some?
    ensures r.status == Captured ==> r.published == [onToggle.value(!isChecked)]
    ensures r.status == Ignored ==> r.published == []
  {
    if IsPress(event) && isMouseOver && onToggle.Some? then Reaction(Captured, [onToggle.value(!isChecked)])
    else Reaction(Ignored, [])
  }

  /** The id a checkbox reports: the set of its box id and its label id. */
  function CombinedId(id: Internal, labelId: Internal): Internal
  {
    Set([id, labelId])
  }

  /** The two ids `set_id` accepts: only a set of exactly two entries. */
  function SplitId(i: Internal): (r: Option<(Internal, Internal)>)
    ensures r.Some? <==> i.Set? && |i.items| == 2
  {
    if i.Set? && |i.items| == 2 then Some((i.items[0], i.items[1])) else None
  }

  /** The pair of ids survives a round trip through `id` and `set_id`, in both directions. */
  lemma IdRoundTrip(id: Internal, labelId: Internal, i: Internal)
    ensures SplitId(CombinedId(id, labelId)) == Some((id, labelId))
    ensures SplitId(i) == Some((id, labelId)) ==> CombinedId(id, labelId) == i
  {
    if SplitId(i) == Some((id, labelId)) {
      assert i.items == [i.items[0], i.items[1]];
    }
  }

  class Checkbox<M, Th, C> {
    var id: Internal
    var labelId: Internal
    var isChecked: bool
    var onToggle: Option<bool -> M>
    var labelText: string
    var width: Length
    var size: real
    var spacing: real
    var textSize: Option<real>
    var icon: Icon
    var styleClass: StyleClass<Th, C>

    /** `Checkbox::new`; the two fresh ids and the renderer's checkmark code point are parameters. */
    constructor (labelText: string, isChecked: bool, id: Internal, labelId: Internal, checkmark: char)
      ensures this.labelText == labelText && this.isChecked == isChecked
      ensures this.id == id && this.labelId == labelId
      ensures onToggle == None
      ensures width == Shrink && size == DefaultSize && spacing == DefaultSpacing && textSize == None
      ensures icon == Icon(checkmark, None) && styleClass == Primary
    {
      this.id := id;
      this.labelId := labelId;
      this.isChecked := isChecked;
      onToggle := None;
      this.labelText := labelText;
      width := Shrink;
      size := DefaultSize;
      spacing := DefaultSpacing;
      textSize := None;
      icon := Icon(checkmark, None);
      styleClass := Primary;
    }

    method OnToggle(f: bool -> M)
      modifies this`onToggle
      ensures onToggle == Some(f)
    {
      onToggle := Some(f);
    }

    method OnToggleMaybe(f: Option<bool -> M>)
      modifies this`onToggle
      ensures onToggle == f
    {
      onToggle := f;
    }

    method SetSize(size: real)
      modifies this`size
      ensures this.size == size
    {
      this.size := size;
    }

    method SetWidth(width: Length)
      modifies this`width
      ensures this.width == width
    {
      this.width := width;
    }

    method SetSpacing(spacing: real)
      modifies this`spacing
      ensures this.spacing == spacing
    {
      this.spacing := spacing;
    }

    method SetTextSize(textSize: real)
      modifies this`textSize
      ensures this.textSize == Some(textSize)
    {
      this.textSize := Some(textSize);
    }

    method SetIcon(icon: Icon)
      modifies this`icon
      ensures this.icon == icon
    {
      this.icon := icon;
    }

    method SetStyle(f: (Th, Status) -> Style<C>)
      modifies this`styleClass
      ensures styleClass == CustomStyle(f)
    {
      styleClass := CustomStyle(f);
    }

    /** `on_event`: a press over the bounds of an enabled checkbox publishes `on_toggle(!is_checked)`. */
    method OnEvent(event: Event, cursor: Cursor, bounds: Rectangle, shell: Shell<M>) returns (status: EventStatus)
      modifies shell
      ensures var r := PressReaction(event, IsOver(cursor, bounds), onToggle, isChecked);
        status == r.status && shell.messages == old(shell.messages) + r.published
    {
      if IsPress(event) {
        var mouseOver := IsOver(cursor, bounds);
        if mouseOver {
          if onToggle.Some? {
            shell.Publish(onToggle.value(!isChecked));
            return Captured;
          }
        }
      }
      status := Ignored;
    }

    /** `mouse_interaction`: a pointer over an enabled checkbox, the default otherwise. */
    function MouseInteraction(cursor: Cursor, bounds: Rectangle): (r: Interaction)
      reads this
      ensures r == Pointer <==> IsOver(cursor, bounds) && onToggle.Some?
      ensures r != Pointer ==> r == DefaultInteraction
    {
      if IsOver(cursor, bounds) && onToggle.Some? then Pointer else DefaultInteraction
    }

    /** The status `draw` styles the checkbox with. */
    function DrawStatus(cursor: Cursor, bounds: Rectangle): (s: Status)
      reads this
      ensures s.Disabled? <==> onToggle.None?
      ensures s.Hovered? <==> onToggle.Some? && IsOver(cursor, bounds)
      ensures s.isChecked == isChecked
    {
      SelectStatus(onToggle.None?, IsOver(cursor, bounds), isChecked)
    }

    /** `Catalog::style` for this checkbox's class; `primary` is the theme's default style function. */
    function StyleFor(theme: Th, primary: (Th, Status) -> Style<C>, status: Status): Style<C>
      reads this
    {
      match styleClass
      case Primary => primary(theme, status)
      case CustomStyle(f) => f(theme, status)
    }

    /**
     * `draw`: the box quad, then the checkmark only when checked, then the label.
     * `bounds` is the widget's bounds, `boxBounds` and `labelBounds` its two layout children.
     */
    function Draw(theme: Th, primary: (Th, Status) -> Style<C>, bounds: Rectangle, boxBounds: Rectangle,
                  labelBounds: Rectangle, cursor: Cursor): (calls: seq<DrawCall<C>>)
      reads this
      ensures var style := StyleFor(theme, primary, DrawStatus(cursor, bounds));
        && |calls| >= 2
        && calls[0] == FillQuad(boxBounds, style.border, style.background)
        && calls[|calls| - 1] == DrawLabel(labelBounds, style.textColor)
      ensures (exists k :: 0 <= k < |calls| && calls[k].FillText?) <==> isChecked
      ensures forall k :: 0 <= k < |calls| && calls[k].FillText? ==>
        calls[k].content == icon.codePoint && calls[k].size == icon.size.GetOr(boxBounds.height * 0.7)
    {
      var style := StyleFor(theme, primary, DrawStatus(cursor, bounds));
      var quad := FillQuad(boxBounds, style.border, style.background);
      var center := Point(boxBounds.x + boxBounds.width / 2.0, boxBounds.y + boxBounds.height / 2.0);
      var mark := if isChecked
        then [FillText(icon.codePoint, icon.size.GetOr(boxBounds.height * 0.7), center, style.iconColor)]
        else [];
      var calls := [quad] + mark + [DrawLabel(labelBounds, style.textColor)];
      assert isChecked ==> calls[1].FillText?;
      calls
    }

    /** `id`: the box id and the label id, as a set of two. */
    function Id(): (r: Internal)
      reads this
      ensures SplitId(r) == Some((id, labelId))
    {
      IdRoundTrip(id, labelId, CombinedId(id, labelId));
      CombinedId(id, labelId)
    }

    /** `set_id`: replaces both ids when given a set of exactly two, and otherwise changes nothing. */
    method SetId(newId: Internal)
      modifies this`id, this`labelId
      ensures SplitId(newId).Some? ==> id == SplitId(newId).value.0 && labelId == SplitId(newId).value.1
      ensures SplitId(newId).None? ==> id == old(id) && labelId == old(labelId)
      ensures SplitId(newId).Some? ==> Id() == newId
      ensures newId == old(Id()) ==> id == old(id) && labelId == old(labelId)
    {
      var split := SplitId(newId);
      if split.Some? {
        IdRoundTrip(split.value.0, split.value.1, newId);
        id := split.value.0;
        labelId := split.value.1;
      }
    }
  }
}
