/** The drop-down menu style (src/widget/menu.rs): a single appearance applied
    over the toolkit's default menu style, which is a parameter here. */
module Menu {
  import opened Wrappers
  import opened Iced
  import opened ColorDe

  /** `iced_style::menu::Style`. */
  datatype Appearance = Appearance(
    textColor: Color,
    background: Background,
    borderWidth: real,
    borderColor: Color,
    selectedTextColor: Color,
    selectedBackground: Background)

  /** `de::Style`: the sparse override. */
  datatype Input<C> = Input(
    textColor: Option<C>,
    background: Option<C>,
    borderWidth: Option<real>,
    borderColor: Option<C>,
    selectedTextColor: Option<C>,
    selectedBackground: Option<C>)

  function NoOverride<C>(): Input<C> {
    Input(None, None, None, None, None, None)
  }

  /** The crate's `menu::Style`, a wrapper around the toolkit style. */
  datatype Style = Style(appearance: Appearance)

  /** `From<Style> for iced_style::menu::Style`: unwraps. */
  function ToToolkit(s: Style): Appearance {
    s.appearance
  }

  /** The default appearance after the override: each of the six fields is
      replaced exactly when present. */
  function Overlay(o: Input<Color>, s: Appearance): Appearance {
    Appearance(
      o.textColor.GetOr(s.textColor),
      if o.background.Some? then BgColor(o.background.value) else s.background,
      o.borderWidth.GetOr(s.borderWidth),
      o.borderColor.GetOr(s.borderColor),
      o.selectedTextColor.GetOr(s.selectedTextColor),
      if o.selectedBackground.Some? then BgColor(o.selectedBackground.value) else s.selectedBackground)
  }

  /** `Deserialize for Style`: start from the default menu style, then one
      conditional assignment per field. */
  method Deserialize(base: Appearance, input: Input<Color>) returns (style: Style)
    ensures style == Style(Overlay(input, base))
  {
    var menu := base;
    if input.textColor.Some? { menu := menu.(textColor := input.textColor.value); }
    if input.background.Some? { menu := menu.(background := BgColor(input.background.value)); }
    if input.borderWidth.Some? { menu := menu.(borderWidth := input.borderWidth.value); }
    if input.borderColor.Some? { menu := menu.(borderColor := input.borderColor.value); }
    if input.selectedTextColor.Some? { menu := menu.(selectedTextColor := input.selectedTextColor.value); }
    if input.selectedBackground.Some? { menu := menu.(selectedBackground := BgColor(input.selectedBackground.value)); }
    style := Style(menu);
  }

  function ResolveInput(scope: AliasScope, input: Input<ColorLiteral>): Result<Input<Color>, string> {
    var textColor :- ResolveOpt(scope, input.textColor);
    var background :- ResolveOpt(scope, input.background);
    var borderColor :- ResolveOpt(scope, input.borderColor);
    var selectedTextColor :- ResolveOpt(scope, input.selectedTextColor);
    var selectedBackground :- ResolveOpt(scope, input.selectedBackground);
    Success(Input(textColor, background, input.borderWidth, borderColor, selectedTextColor, selectedBackground))
  }

  // ---------------------------------------------------------------------------
  // Properties

  /** An empty input yields exactly the default, and the conversion to the
      toolkit style returns the wrapped appearance unchanged. */
  lemma EmptyInputIsDefault(base: Appearance, a: Appearance)
    ensures Overlay(NoOverride(), base) == base
    ensures ToToolkit(Style(a)) == a
  {
  }

  /** Each field is replaced exactly when present; otherwise it keeps the default. */
  lemma OverlayFields(input: Input<Color>, base: Appearance)
    ensures var r := Overlay(input, base);
      && r.textColor == (if input.textColor.Some? then input.textColor.value else base.textColor)
      && r.background == (if input.background.Some? then BgColor(input.background.value) else base.background)
      && r.borderWidth == (if input.borderWidth.Some? then input.borderWidth.value else base.borderWidth)
      && r.borderColor == (if input.borderColor.Some? then input.borderColor.value else base.borderColor)
      && r.selectedTextColor == (if input.selectedTextColor.Some? then input.selectedTextColor.value else base.selectedTextColor)
      && r.selectedBackground == (if input.selectedBackground.Some? then BgColor(input.selectedBackground.value) else base.selectedBackground)
  {
  }

  /** An override is idempotent. */
  lemma OverlayIdempotent(input: Input<Color>, base: Appearance)
    ensures Overlay(input, Overlay(input, base)) == Overlay(input, base)
  {
  }
}
