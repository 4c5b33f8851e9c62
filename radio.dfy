/** The radio-button style cascade (src/widget/radio.rs): active and hovered
    appearances from a fixed baseline. */
module Radio {
  import opened Wrappers
  import opened Iced
  import opened ColorDe

  /** `iced_style::radio::Style`. */
  datatype Appearance = Appearance(
    background: Background,
    dotColor: Color,
    borderWidth: real,
    borderColor: Color,
    textColor: Option<Color>)

  /** `de::Inner`. */
  datatype Inner<C> = Inner(
    background: Option<C>,
    dotColor: Option<C>,
    borderWidth: Option<real>,
    borderColor: Option<C>,
    textColor: Option<C>)

  function NoOverride<C>(): Inner<C> {
    Inner(None, None, None, None, None)
  }

  datatype Input<C> = Input(active: Inner<C>, hovered: Inner<C>)

  datatype Style = Style(active: Appearance, hovered: Appearance)

  function Grey(v: real): Color {
    FromRgb(v, v, v)
  }

  const Baseline := Appearance(BgColor(Grey(0.95)), Grey(0.3), 1.0, Grey(0.6), None)

  /** The appearance after an override; a present text colour is stored as `Some`. */
  function Overlay(o: Inner<Color>, s: Appearance): Appearance {
    Appearance(
      if o.background.Some? then BgColor(o.background.value) else s.background,
      o.dotColor.GetOr(s.dotColor),
      o.borderWidth.GetOr(s.borderWidth),
      o.borderColor.GetOr(s.borderColor),
      if o.textColor.Some? then Some(o.textColor.value) else s.textColor)
  }

  /** `Inner::overwrite(&self, &mut Style)`. */
  method Overwrite(o: Inner<Color>, s: Appearance) returns (r: Appearance)
    ensures r == Overlay(o, s)
  {
    r := s;
    if o.background.Some? { r := r.(background := BgColor(o.background.value)); }
    if o.dotColor.Some? { r := r.(dotColor := o.dotColor.value); }
    if o.borderWidth.Some? { r := r.(borderWidth := o.borderWidth.value); }
    if o.borderColor.Some? { r := r.(borderColor := o.borderColor.value); }
    if o.textColor.Some? { r := r.(textColor := Some(o.textColor.value)); }
  }

  /** Hovered before its override: active on a 0.90 grey. */
  function HoveredBase(active: Appearance): Appearance {
    active.(background := BgColor(Grey(0.90)))
  }

  /** The cascade: active from the baseline, hovered from the overridden active. */
  function Cascade(input: Input<Color>): Style {
    var active := Overlay(input.active, Baseline);
    Style(active, Overlay(input.hovered, HoveredBase(active)))
  }

  /** `Deserialize for Style`. */
  method Deserialize(input: Input<Color>) returns (style: Style)
    ensures style == Cascade(input)
  {
    var active := Overwrite(input.active, Baseline);
    var hovered := HoveredBase(active);
    hovered := Overwrite(input.hovered, hovered);
    style := Style(active, hovered);
  }

  function ResolveInner(scope: AliasScope, o: Inner<ColorLiteral>): Result<Inner<Color>, string> {
    var background :- ResolveOpt(scope, o.background);
    var dotColor :- ResolveOpt(scope, o.dotColor);
    var borderColor :- ResolveOpt(scope, o.borderColor);
    var textColor :- ResolveOpt(scope, o.textColor);
    Success(Inner(background, dotColor, o.borderWidth, borderColor, textColor))
  }

  function ResolveInput(scope: AliasScope, input: Input<ColorLiteral>): Result<Input<Color>, string> {
    var active :- ResolveInner(scope, input.active);
    var hovered :- ResolveInner(scope, input.hovered);
    Success(Input(active, hovered))
  }

  /** The flattened, optional style of a radio sheet. */
  function FromInput(scope: AliasScope, input: Input<ColorLiteral>): Option<Style> {
    match ResolveInput(scope, input)
    case Success(i) => Some(Cascade(i))
    case Failure(_) => None
  }

  // ---------------------------------------------------------------------------
  // Properties

  /** Overriding with nothing changes nothing, and an override is idempotent. */
  lemma OverlayLaws(o: Inner<Color>, s: Appearance)
    ensures Overlay(NoOverride(), s) == s
    ensures Overlay(o, Overlay(o, s)) == Overlay(o, s)
  {
  }

  /** The baseline's values, and a present text colour stored as `Some`. */
  lemma BaselineAndTextColour(o: Inner<Color>, s: Appearance)
    ensures Baseline == Appearance(BgColor(Color(0.95, 0.95, 0.95, 1.0)), Color(0.3, 0.3, 0.3, 1.0), 1.0, Color(0.6, 0.6, 0.6, 1.0), None)
    ensures o.textColor.Some? ==> Overlay(o, s).textColor == Some(o.textColor.value)
  {
  }

  /** With no hovered override, hovered differs from active at most in the
      background, which is the 0.90 grey. */
  lemma HoveredWithoutOverride(input: Input<Color>)
    ensures var c := Cascade(input.(hovered := NoOverride()));
      c.hovered == c.active.(background := BgColor(Color(0.90, 0.90, 0.90, 1.0)))
  {
    OverlayLaws(NoOverride(), HoveredBase(Cascade(input).active));
  }

  /** The hovered override never reaches the active appearance. */
  lemma HoveredOverrideIsolated(input: Input<Color>, h: Inner<Color>)
    ensures Cascade(input.(hovered := h)).active == Cascade(input).active
  {
  }
}
