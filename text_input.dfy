/** The text-input style cascade (src/widget/text_input.rs): active, focused
    and hovered appearances plus three text colours with fixed defaults. */
module TextInput {
  import opened Wrappers
  import opened Iced
  import opened ColorDe

  /** `iced_style::text_input::Appearance`. */
  datatype Appearance = Appearance(background: Background, borderRadius: real, borderWidth: real, borderColor: Color)

  /** `de::Inner`. */
  datatype Inner<C> = Inner(background: Option<C>, borderRadius: Option<real>, borderWidth: Option<real>, borderColor: Option<C>)

  function NoOverride<C>(): Inner<C> {
    Inner(None, None, None, None)
  }

  /** `de::Style`. */
  datatype Input<C> = Input(
    active: Inner<C>,
    focused: Inner<C>,
    hovered: Inner<C>,
    placeholderColor: Option<C>,
    valueColor: Option<C>,
    selectionColor: Option<C>)

  datatype Style = Style(
    active: Appearance,
    focused: Appearance,
    hovered: Appearance,
    placeholderColor: Color,
    valueColor: Color,
    selectionColor: Color)

  function Grey(v: real): Color {
    FromRgb(v, v, v)
  }

  const Baseline := Appearance(BgColor(White), 5.0, 1.0, Grey(0.7))

  const DefaultPlaceholderColor := Grey(0.7)
  const DefaultValueColor := Grey(0.3)
  const DefaultSelectionColor := FromRgb(0.8, 0.8, 1.0)

  /** The appearance after an override. Only the four appearance fields exist,
      so nothing else can change. */
  function Overlay(o: Inner<Color>, s: Appearance): Appearance {
    Appearance(
      if o.background.Some? then BgColor(o.background.value) else s.background,
      o.borderRadius.GetOr(s.borderRadius),
      o.borderWidth.GetOr(s.borderWidth),
      o.borderColor.GetOr(s.borderColor))
  }

  /** `Inner::overwrite(&self, &mut Appearance)`. */
  method Overwrite(o: Inner<Color>, s: Appearance) returns (r: Appearance)
    ensures r == Overlay(o, s)
  {
    r := s;
    if o.background.Some? { r := r.(background := BgColor(o.background.value)); }
    if o.borderRadius.Some? { r := r.(borderRadius := o.borderRadius.value); }
    if o.borderWidth.Some? { r := r.(borderWidth := o.borderWidth.value); }
    if o.borderColor.Some? { r := r.(borderColor := o.borderColor.value); }
  }

  /** Focused before its override: active with a darker border. */
  function FocusedBase(active: Appearance): Appearance {
    active.(borderColor := Grey(0.5))
  }

  /** `Option::map_or(default, Into::into)`. */
  function ColourOr(c: Option<Color>, default: Color): Color {
    c.GetOr(default)
  }

  /** The cascade: active from the baseline; focused from the overridden active;
      hovered from the overridden focused; each text colour given or defaulted. */
  function Cascade(input: Input<Color>): Style {
    var active := Overlay(input.active, Baseline);
    var focused := Overlay(input.focused, FocusedBase(active));
    var hovered := Overlay(input.hovered, focused);
    Style(active, focused, hovered,
          ColourOr(input.placeholderColor, DefaultPlaceholderColor),
          ColourOr(input.valueColor, DefaultValueColor),
          ColourOr(input.selectionColor, DefaultSelectionColor))
  }

  /** `Deserialize for Style`. */
  method Deserialize(input: Input<Color>) returns (style: Style)
    ensures style == Cascade(input)
  {
    var active := Overwrite(input.active, Baseline);
    var focused := FocusedBase(active);
    focused := Overwrite(input.focused, focused);
    var hovered := focused;
    hovered := Overwrite(input.hovered, hovered);
    var placeholderColor := ColourOr(input.placeholderColor, DefaultPlaceholderColor);
    var valueColor := ColourOr(input.valueColor, DefaultValueColor);
    var selectionColor := ColourOr(input.selectionColor, DefaultSelectionColor);
    style := Style(active, focused, hovered, placeholderColor, valueColor, selectionColor);
  }

  function ResolveInner(scope: AliasScope, o: Inner<ColorLiteral>): Result<Inner<Color>, string> {
    var background :- ResolveOpt(scope, o.background);
    var borderColor :- ResolveOpt(scope, o.borderColor);
    Success(Inner(background, o.borderRadius, o.borderWidth, borderColor))
  }

  function ResolveInput(scope: AliasScope, input: Input<ColorLiteral>): Result<Input<Color>, string> {
    var active :- ResolveInner(scope, input.active);
    var focused :- ResolveInner(scope, input.focused);
    var hovered :- ResolveInner(scope, input.hovered);
    var placeholderColor :- ResolveOpt(scope, input.placeholderColor);
    var valueColor :- ResolveOpt(scope, input.valueColor);
    var selectionColor :- ResolveOpt(scope, input.selectionColor);
    Success(Input(active, focused, hovered, placeholderColor, valueColor, selectionColor))
  }

  /** The flattened, optional style of a text-input sheet. */
  function FromInput(scope: AliasScope, input: Input<ColorLiteral>): Option<Style> {
    match ResolveInput(scope, input)
    case Success(i) => Some(Cascade(i))
    case Failure(_) => None
  }

  // ---------------------------------------------------------------------------
  // Properties

  /** Overriding with nothing changes nothing, and an override is idempotent. */
  lemma OverlayLaws(o: Inner<Color>, s: Appearance)
    ensures Overlay(NoOverride(), s) == s
    ensures Overlay(o, Overlay(o, s)) == Overlay(o, s)
  {
  }

  /** Hovered starts from the overridden focused appearance: without a hovered
      override the two coincide, and focused overrides flow into hovered. */
  lemma HoveredFollowsFocused(input: Input<Color>, f: Inner<Color>)
    ensures Cascade(input.(hovered := NoOverride())).hovered == Cascade(input).focused
    ensures Cascade(input.(focused := f)).hovered ==
            Overlay(input.hovered, Overlay(f, FocusedBase(Cascade(input).active)))
  {
    OverlayLaws(input.hovered, Cascade(input).focused);
  }

  /** Without its override, focused differs from active only in a 0.5 grey border. */
  lemma FocusedWithoutOverride(input: Input<Color>)
    ensures var c := Cascade(input.(focused := NoOverride()));
      c.focused == c.active.(borderColor := Color(0.5, 0.5, 0.5, 1.0))
  {
    OverlayLaws(NoOverride(), FocusedBase(Cascade(input).active));
  }

  /** The text colours and the baseline: each colour is the given one, or
      0.7 grey, 0.3 grey and (0.8, 0.8, 1.0) when absent. */
  lemma TextColours(input: Input<Color>)
    ensures var c := Cascade(input);
      && c.placeholderColor == (if input.placeholderColor.Some? then input.placeholderColor.value else Color(0.7, 0.7, 0.7, 1.0))
      && c.valueColor == (if input.valueColor.Some? then input.valueColor.value else Color(0.3, 0.3, 0.3, 1.0))
      && c.selectionColor == (if input.selectionColor.Some? then input.selectionColor.value else Color(0.8, 0.8, 1.0, 1.0))
    ensures Baseline == Appearance(BgColor(Color(1.0, 1.0, 1.0, 1.0)), 5.0, 1.0, Color(0.7, 0.7, 0.7, 1.0))
  {
  }

  /** The appearance overrides and the text colours are independent of each other. */
  lemma TextColoursIndependent(input: Input<Color>, a: Inner<Color>, f: Inner<Color>, h: Inner<Color>)
    ensures var c := Cascade(input); var d := Cascade(input.(active := a, focused := f, hovered := h));
      d.placeholderColor == c.placeholderColor && d.valueColor == c.valueColor && d.selectionColor == c.selectionColor
  {
  }
}
