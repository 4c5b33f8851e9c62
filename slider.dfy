/** The slider style cascade (src/widget/slider.rs): active, hovered and
    dragging styles, each with a rail colour pair and a nested handle. */
module Slider {
  import opened Wrappers
  import opened Iced
  import opened ColorDe

  /** `iced::slider::HandleShape`. */
  datatype HandleShape =
    | Circle(radius: real)
    | Rectangle(width: uint16, borderRadius: real)

  /** `de::HandleShape` as written in a document (`circle` / `rectangle`). */
  datatype HandleShapeLiteral =
    | CircleLiteral(radius: real)
    | RectangleLiteral(width: uint16, borderRadius: real)

  /** `iced::slider::Handle`. */
  datatype Handle = Handle(shape: HandleShape, color: Color, borderColor: Color, borderWidth: real)

  /** `iced::slider::Style`. */
  datatype Appearance = Appearance(railColors: (Color, Color), handle: Handle)

  /** `de::Handle`. */
  datatype HandleOverride<C> = HandleOverride(
    shape: Option<HandleShapeLiteral>,
    color: Option<C>,
    borderWidth: Option<real>,
    borderColor: Option<C>)

  /** `de::Inner`: the rail colours as one optional pair, and an optional handle override. */
  datatype Inner<C> = Inner(railColors: Option<(C, C)>, handle: Option<HandleOverride<C>>)

  function NoOverride<C>(): Inner<C> {
    Inner(None, None)
  }

  datatype Input<C> = Input(active: Inner<C>, hovered: Inner<C>, dragging: Inner<C>)

  datatype Style = Style(active: Appearance, hovered: Appearance, dragging: Appearance)

  /** `From<de::HandleShape> for iced::slider::HandleShape`. */
  function ToShape(s: HandleShapeLiteral): HandleShape {
    match s
    case CircleLiteral(radius) => Circle(radius)
    case RectangleLiteral(width, borderRadius) => Rectangle(width, borderRadius)
  }

  /** The document spelling of a toolkit shape: the inverse of `ToShape`. */
  function FromShape(s: HandleShape): HandleShapeLiteral {
    match s
    case Circle(radius) => CircleLiteral(radius)
    case Rectangle(width, borderRadius) => RectangleLiteral(width, borderRadius)
  }

  function Grey(v: real): Color {
    FromRgb(v, v, v)
  }

  /** The starting point of the active style. */
  const Baseline := Appearance(
    (FromArray4(0.6, 0.6, 0.6, 0.5), White),
    Handle(Rectangle(8, 4.0), Grey(0.95), Grey(0.6), 1.0))

  function OverlayHandle(o: HandleOverride<Color>, h: Handle): Handle {
    Handle(
      if o.shape.Some? then ToShape(o.shape.value) else h.shape,
      o.color.GetOr(h.color),
      o.borderColor.GetOr(h.borderColor),
      o.borderWidth.GetOr(h.borderWidth))
  }

  /** The style after an override: the rail pair is replaced as a whole; the
      handle changes only when the override has a `handle` part. */
  function Overlay(o: Inner<Color>, s: Appearance): Appearance {
    Appearance(
      o.railColors.GetOr(s.railColors),
      if o.handle.Some? then OverlayHandle(o.handle.value, s.handle) else s.handle)
  }

  /** `Inner::overwrite(&self, &mut Style)`. */
  method Overwrite(o: Inner<Color>, s: Appearance) returns (r: Appearance)
    ensures r == Overlay(o, s)
  {
    r := s;
    if o.railColors.Some? { r := r.(railColors := (o.railColors.value.0, o.railColors.value.1)); }
    if o.handle.Some? {
      var h := o.handle.value;
      if h.shape.Some? { r := r.(handle := r.handle.(shape := ToShape(h.shape.value))); }
      if h.color.Some? { r := r.(handle := r.handle.(color := h.color.value)); }
      if h.borderColor.Some? { r := r.(handle := r.handle.(borderColor := h.borderColor.value)); }
      if h.borderWidth.Some? { r := r.(handle := r.handle.(borderWidth := h.borderWidth.value)); }
    }
  }

  /** A state whose handle is active's handle in another grey. */
  function WithHandleColour(active: Appearance, v: real): Appearance {
    active.(handle := active.handle.(color := Grey(v)))
  }

  /** The cascade: active from the baseline; hovered and dragging both from
      the overridden active, with handle colours 0.90 and 0.85. */
  function Cascade(input: Input<Color>): Style {
    var active := Overlay(input.active, Baseline);
    Style(
      active,
      Overlay(input.hovered, WithHandleColour(active, 0.90)),
      Overlay(input.dragging, WithHandleColour(active, 0.85)))
  }

  /** `Deserialize for Style`. */
  method Deserialize(input: Input<Color>) returns (style: Style)
    ensures style == Cascade(input)
  {
    var active := Overwrite(input.active, Baseline);
    var hovered := WithHandleColour(active, 0.90);
    hovered := Overwrite(input.hovered, hovered);
    var dragging := WithHandleColour(active, 0.85);
    dragging := Overwrite(input.dragging, dragging);
    style := Style(active, hovered, dragging);
  }

  function ResolveHandle(scope: AliasScope, o: HandleOverride<ColorLiteral>): Result<HandleOverride<Color>, string> {
    var color :- ResolveOpt(scope, o.color);
    var borderColor :- ResolveOpt(scope, o.borderColor);
    Success(HandleOverride(o.shape, color, o.borderWidth, borderColor))
  }

  function ResolveInner(scope: AliasScope, o: Inner<ColorLiteral>): Result<Inner<Color>, string> {
    var railColors :- if o.railColors.None? then Success(None)
                      else
                        var first :- ToColor(scope, o.railColors.value.0);
                        var second :- ToColor(scope, o.railColors.value.1);
                        Success(Some((first, second)));
    var handle :- if o.handle.None? then Success(None)
                  else var h :- ResolveHandle(scope, o.handle.value); Success(Some(h));
    Success(Inner(railColors, handle))
  }

  function ResolveInput(scope: AliasScope, input: Input<ColorLiteral>): Result<Input<Color>, string> {
    var active :- ResolveInner(scope, input.active);
    var hovered :- ResolveInner(scope, input.hovered);
    var dragging :- ResolveInner(scope, input.dragging);
    Success(Input(active, hovered, dragging))
  }

  /** The flattened, optional style of a slider sheet. */
  function FromInput(scope: AliasScope, input: Input<ColorLiteral>): Option<Style> {
    match ResolveInput(scope, input)
    case Success(i) => Some(Cascade(i))
    case Failure(_) => None
  }

  // ---------------------------------------------------------------------------
  // Properties

  /** The shape conversion keeps the variant and its payload: it is a bijection
      between the document's shapes and the toolkit's. */
  lemma ShapeRoundTrip(l: HandleShapeLiteral, s: HandleShape)
    ensures FromShape(ToShape(l)) == l
    ensures ToShape(FromShape(s)) == s
    ensures ToShape(l).Circle? <==> l.CircleLiteral?
  {
  }

  /** Overriding with nothing changes nothing, and an override is idempotent. */
  lemma OverlayLaws(o: Inner<Color>, s: Appearance)
    ensures Overlay(NoOverride(), s) == s
    ensures Overlay(o, Overlay(o, s)) == Overlay(o, s)
  {
  }

  /** A rail override replaces both colours; without a handle part the handle
      is untouched; within one, absent handle fields are kept. */
  lemma OverlayParts(o: Inner<Color>, s: Appearance)
    ensures o.railColors.Some? ==> Overlay(o, s).railColors == o.railColors.value
    ensures o.railColors.None? ==> Overlay(o, s).railColors == s.railColors
    ensures o.handle.None? ==> Overlay(o, s).handle == s.handle
    ensures o.handle.Some? ==>
      var h := o.handle.value; var r := Overlay(o, s).handle;
      && (h.shape.None? ==> r.shape == s.handle.shape)
      && (h.color.None? ==> r.color == s.handle.color)
      && (h.borderColor.None? ==> r.borderColor == s.handle.borderColor)
      && (h.borderWidth.None? ==> r.borderWidth == s.handle.borderWidth)
  {
  }

  /** Dragging derives from active, not from hovered: a hovered override
      never reaches dragging (nor active). */
  lemma DraggingIgnoresHovered(input: Input<Color>, h: Inner<Color>)
    ensures Cascade(input.(hovered := h)).dragging == Cascade(input).dragging
    ensures Cascade(input.(hovered := h)).active == Cascade(input).active
  {
  }

  /** Without their own overrides, hovered and dragging differ from active
      only in the handle colour. */
  lemma DerivedStatesWithoutOverrides(input: Input<Color>)
    ensures var c := Cascade(input.(hovered := NoOverride(), dragging := NoOverride()));
      && c.hovered == c.active.(handle := c.active.handle.(color := Color(0.90, 0.90, 0.90, 1.0)))
      && c.dragging == c.active.(handle := c.active.handle.(color := Color(0.85, 0.85, 0.85, 1.0)))
  {
    var active := Cascade(input).active;
    OverlayLaws(NoOverride(), WithHandleColour(active, 0.90));
    OverlayLaws(NoOverride(), WithHandleColour(active, 0.85));
  }

  /** The baseline's values. */
  lemma BaselineValues()
    ensures Baseline.railColors == (Color(0.6, 0.6, 0.6, 0.5), Color(1.0, 1.0, 1.0, 1.0))
    ensures Baseline.handle == Handle(Rectangle(8, 4.0), Color(0.95, 0.95, 0.95, 1.0), Color(0.6, 0.6, 0.6, 1.0), 1.0)
  {
  }
}
