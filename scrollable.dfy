/** The scrollable style cascade (src/widget/scrollable.rs): active, hovered
    and dragging scrollbars, each with a nested scroller. */
module Scrollable {
  import opened Wrappers
  import opened Iced
  import opened ColorDe

  /** `iced_style::scrollable::Scroller`. */
  datatype Scroller = Scroller(color: Color, borderRadius: real, borderWidth: real, borderColor: Color)

  /** `iced_style::scrollable::Scrollbar`. */
  datatype Scrollbar = Scrollbar(
    background: Option<Background>,
    borderRadius: real,
    borderWidth: real,
    borderColor: Color,
    scroller: Scroller)

  /** `de::Scroller`. */
  datatype ScrollerOverride<C> = ScrollerOverride(
    color: Option<C>,
    borderRadius: Option<real>,
    borderWidth: Option<real>,
    borderColor: Option<C>)

  /** `de::Scrollbar`: the sparse override, with an optional nested scroller override. */
  datatype ScrollbarOverride<C> = ScrollbarOverride(
    background: Option<C>,
    borderRadius: Option<real>,
    borderWidth: Option<real>,
    borderColor: Option<C>,
    scroller: Option<ScrollerOverride<C>>)

  function NoOverride<C>(): ScrollbarOverride<C> {
    ScrollbarOverride(None, None, None, None, None)
  }

  datatype Input<C> = Input(active: ScrollbarOverride<C>, hovered: ScrollbarOverride<C>, dragging: ScrollbarOverride<C>)

  datatype Style = Style(active: Scrollbar, hovered: Scrollbar, dragging: Scrollbar)

  /** The starting point of the active scrollbar. */
  const Baseline := Scrollbar(None, 5.0, 0.0, Transparent,
                              Scroller(FromArray4(0.0, 0.0, 0.0, 0.7), 5.0, 0.0, Transparent))

  function OverlayScroller(o: ScrollerOverride<Color>, s: Scroller): Scroller {
    Scroller(
      o.color.GetOr(s.color),
      o.borderRadius.GetOr(s.borderRadius),
      o.borderWidth.GetOr(s.borderWidth),
      o.borderColor.GetOr(s.borderColor))
  }

  /** The scrollbar after an override; the scroller changes only when the
      override has a `scroller` part. */
  function Overlay(o: ScrollbarOverride<Color>, s: Scrollbar): Scrollbar {
    Scrollbar(
      if o.background.Some? then Some(BgColor(o.background.value)) else s.background,
      o.borderRadius.GetOr(s.borderRadius),
      o.borderWidth.GetOr(s.borderWidth),
      o.borderColor.GetOr(s.borderColor),
      if o.scroller.Some? then OverlayScroller(o.scroller.value, s.scroller) else s.scroller)
  }

  /** `Scrollbar::overwrite(&self, &mut Scrollbar)`. */
  method Overwrite(o: ScrollbarOverride<Color>, s: Scrollbar) returns (r: Scrollbar)
    ensures r == Overlay(o, s)
  {
    r := s;
    if o.background.Some? { r := r.(background := Some(BgColor(o.background.value))); }
    if o.borderRadius.Some? { r := r.(borderRadius := o.borderRadius.value); }
    if o.borderWidth.Some? { r := r.(borderWidth := o.borderWidth.value); }
    if o.borderColor.Some? { r := r.(borderColor := o.borderColor.value); }
    if o.scroller.Some? {
      var sc := o.scroller.value;
      if sc.color.Some? { r := r.(scroller := r.scroller.(color := sc.color.value)); }
      if sc.borderRadius.Some? { r := r.(scroller := r.scroller.(borderRadius := sc.borderRadius.value)); }
      if sc.borderWidth.Some? { r := r.(scroller := r.scroller.(borderWidth := sc.borderWidth.value)); }
      if sc.borderColor.Some? { r := r.(scroller := r.scroller.(borderColor := sc.borderColor.value)); }
    }
  }

  /** Hovered before its override: active on a translucent black background. */
  function HoveredBase(active: Scrollbar): Scrollbar {
    active.(background := Some(BgColor(FromArray4(0.0, 0.0, 0.0, 0.3))))
  }

  /** The cascade: active from the baseline, hovered from the overridden active,
      dragging from the overridden hovered. */
  function Cascade(input: Input<Color>): Style {
    var active := Overlay(input.active, Baseline);
    var hovered := Overlay(input.hovered, HoveredBase(active));
    var dragging := Overlay(input.dragging, hovered);
    Style(active, hovered, dragging)
  }

  /** `Deserialize for Style`. */
  method Deserialize(input: Input<Color>) returns (style: Style)
    ensures style == Cascade(input)
  {
    var active := Overwrite(input.active, Baseline);
    var hovered := HoveredBase(active);
    hovered := Overwrite(input.hovered, hovered);
    var dragging := hovered;
    dragging := Overwrite(input.dragging, dragging);
    style := Style(active, hovered, dragging);
  }

  function ResolveScroller(scope: AliasScope, o: ScrollerOverride<ColorLiteral>): Result<ScrollerOverride<Color>, string> {
    var color :- ResolveOpt(scope, o.color);
    var borderColor :- ResolveOpt(scope, o.borderColor);
    Success(ScrollerOverride(color, o.borderRadius, o.borderWidth, borderColor))
  }

  function ResolveScrollbar(scope: AliasScope, o: ScrollbarOverride<ColorLiteral>): Result<ScrollbarOverride<Color>, string> {
    var background :- ResolveOpt(scope, o.background);
    var borderColor :- ResolveOpt(scope, o.borderColor);
    var scroller :- if o.scroller.None? then Success(None)
                    else var sc :- ResolveScroller(scope, o.scroller.value); Success(Some(sc));
    Success(ScrollbarOverride(background, o.borderRadius, o.borderWidth, borderColor, scroller))
  }

  function ResolveInput(scope: AliasScope, input: Input<ColorLiteral>): Result<Input<Color>, string> {
    var active :- ResolveScrollbar(scope, input.active);
    var hovered :- ResolveScrollbar(scope, input.hovered);
    var dragging :- ResolveScrollbar(scope, input.dragging);
    Success(Input(active, hovered, dragging))
  }

  /** The flattened, optional style of a scrollable sheet. */
  function FromInput(scope: AliasScope, input: Input<ColorLiteral>): Option<Style> {
    match ResolveInput(scope, input)
    case Success(i) => Some(Cascade(i))
    case Failure(_) => None
  }

  // ---------------------------------------------------------------------------
  // Properties

  /** Overriding with nothing changes nothing, and an override is idempotent. */
  lemma OverlayLaws(o: ScrollbarOverride<Color>, s: Scrollbar)
    ensures Overlay(NoOverride(), s) == s
    ensures Overlay(o, Overlay(o, s)) == Overlay(o, s)
  {
  }

  /** Without a `scroller` part the scroller is untouched; with one, each
      scroller field changes only when that field is present. */
  lemma ScrollerIndependence(o: ScrollbarOverride<Color>, s: Scrollbar)
    ensures o.scroller.None? ==> Overlay(o, s).scroller == s.scroller
    ensures o.scroller.Some? ==>
      var sc := o.scroller.value; var r := Overlay(o, s).scroller;
      && (sc.color.None? ==> r.color == s.scroller.color)
      && (sc.borderRadius.None? ==> r.borderRadius == s.scroller.borderRadius)
      && (sc.borderWidth.None? ==> r.borderWidth == s.scroller.borderWidth)
      && (sc.borderColor.None? ==> r.borderColor == s.scroller.borderColor)
      && (sc.color.Some? ==> r.color == sc.color.value)
      && (sc.borderRadius.Some? ==> r.borderRadius == sc.borderRadius.value)
      && (sc.borderWidth.Some? ==> r.borderWidth == sc.borderWidth.value)
      && (sc.borderColor.Some? ==> r.borderColor == sc.borderColor.value)
  {
  }

  /** The baseline's values. */
  lemma BaselineValues()
    ensures Baseline.background.None? && Baseline.borderRadius == 5.0 && Baseline.borderWidth == 0.0
    ensures Baseline.borderColor == Color(0.0, 0.0, 0.0, 0.0)
    ensures Baseline.scroller == Scroller(Color(0.0, 0.0, 0.0, 0.7), 5.0, 0.0, Color(0.0, 0.0, 0.0, 0.0))
  {
  }

  /** Dragging starts from the overridden hovered scrollbar: with no dragging
      override it equals hovered, and hovered overrides flow into dragging. */
  lemma DraggingFollowsHovered(input: Input<Color>, h: ScrollbarOverride<Color>)
    ensures Cascade(input.(dragging := NoOverride())).dragging == Cascade(input).hovered
    ensures Cascade(input.(hovered := h)).dragging ==
            Overlay(input.dragging, Overlay(h, HoveredBase(Cascade(input).active)))
  {
    OverlayLaws(input.dragging, Cascade(input).hovered);
  }

  /** With no hovered override, hovered is active on the translucent black
      background and differs from active at most there. */
  lemma HoveredWithoutOverride(input: Input<Color>)
    ensures var c := Cascade(input.(hovered := NoOverride()));
      && c.hovered.background == Some(BgColor(Color(0.0, 0.0, 0.0, 0.3)))
      && c.hovered == c.active.(background := c.hovered.background)
  {
    OverlayLaws(NoOverride(), HoveredBase(Cascade(input).active));
  }
}
