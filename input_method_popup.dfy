/**
 * The platform actions on the input-method popup surface: its creation
 * settings, their hash, and the action enum with its message-type `map`.
 */
module InputMethodPopup {

  type U32 = n: nat | n < 0x1_0000_0000

  /** A window (surface) id. */
  datatype WindowId = WindowId(n: nat)

  /** `window::Id::default()`. */
  const DefaultWindowId: WindowId := WindowId(0)

  /** One side of a size limit; the upper limits of `Limits::NONE` are unbounded. */
  datatype Bound = Finite(v: real) | Infinite

  /** `layout::Limits`: minimum and maximum width and height. */
  datatype Limits = Limits(minWidth: real, minHeight: real, maxWidth: Bound, maxHeight: Bound)

  /** `Limits::NONE`: no minimum, no maximum. */
  const NoLimits: Limits := Limits(0.0, 0.0, Infinite, Infinite)

  datatype Settings = Settings(id: WindowId, sizeLimits: Limits, size: (U32, U32))

  /** `InputMethodPopupSettings::default`. */
  function DefaultSettings(): (s: Settings)
    ensures s.id == DefaultWindowId && s.sizeLimits == NoLimits && s.size == (1, 1)
  {
    Settings(DefaultWindowId, NoLimits, (1, 1))
  }

  /** `Hash for InputMethodPopupSettings`: feeds the id, and only the id, to the hasher. */
  function Hash<H>(s: Settings, state: H, hashId: (H, WindowId) -> H): H
  {
    hashId(state, s.id)
  }

  /** Settings with equal ids hash equally, whatever their limits and size. */
  lemma HashDependsOnlyOnId<H>(s: Settings, t: Settings, state: H, hashId: (H, WindowId) -> H)
    requires s.id == t.id
    ensures Hash(s, state, hashId) == Hash(t, state, hashId)
    ensures Hash(s, state, hashId) == Hash(s.(sizeLimits := t.sizeLimits, size := t.size), state, hashId)
  {
  }

  /** `input_method_popup::Action<T>`; `T` is the application's message type, carried only as a phantom. */
  datatype Action<T> = Popup(settings: Settings) | ShowPopup | HidePopup | Size(id: WindowId, width: U32, height: U32)

  /** `Action::map`: changes the message type and keeps the variant and its payload. */
  function Map<T, A>(a: Action<T>, f: T -> A): (r: Action<A>)
    ensures r.Popup? <==> a.Popup?
    ensures r.ShowPopup? <==> a.ShowPopup?
    ensures r.HidePopup? <==> a.HidePopup?
    ensures r.Size? <==> a.Size?
    ensures a.Popup? ==> r.settings == a.settings
    ensures a.Size? ==> r.id == a.id && r.width == a.width && r.height == a.height
  {
    match a
    case Popup(settings) => Popup(settings)
    case ShowPopup => ShowPopup
    case HidePopup => HidePopup
    case Size(id, width, height) => Size(id, width, height)
  }

  /** Mapping does not depend on the closure, so mapping back with any closure restores the action. */
  lemma MapRoundTrip<T, A>(a: Action<T>, f: T -> A, g: A -> T)
    ensures Map(Map(a, f), g) == a
  {
  }
}
