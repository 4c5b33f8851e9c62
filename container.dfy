/** The container style (src/widget/container.rs): a single appearance applied
    over the toolkit's default container style, which is a parameter here. */
module Container {
  import opened Wrappers
  import opened Iced
  import opened ColorDe

  /** `iced::container::Style`. */
  datatype Appearance = Appearance(
    textColor: Option<Color>,
    background: Option<Background>,
    borderRadius: real,
    borderWidth: real,
    borderColor: Color)

  /** `de::Style`: the sparse override. */
  datatype Input<C> = Input(
    textColor: Option<C>,
    background: Option<C>,
    borderRadius: Option<real>,
    borderWidth: Option<real>,
    borderColor: Option<C>)

  function NoOverride<C>(): Input<C> {
    Input(None, None, None, None, None)
  }

  /** The default appearance after the override; text colour and background
      are stored as `Some`. */
  function Overlay(o: Input<Color>, s: Appearance): Appearance {
    Appearance(
      if o.textColor.Some? then Some(o.textColor.value) else s.textColor,
      if o.background.Some? then Some(BgColor(o.background.value)) else s.background,
      o.borderRadius.GetOr(s.borderRadius),
      o.borderWidth.GetOr(s.borderWidth),
      o.borderColor.GetOr(s.borderColor))
  }

  /** `Deserialize for Style`: the toolkit default, then one conditional
      assignment per field. */
  method Deserialize(base: Appearance, input: Input<Color>) returns (style: Appearance)
    ensures style == Overlay(input, base)
  {
    style := base;
    if input.textColor.Some? { style := style.(textColor := Some(input.textColor.value)); }
    if input.background.Some? { style := style.(background := Some(BgColor(input.background.value))); }
    if input.borderRadius.Some? { style := style.(borderRadius := input.borderRadius.value); }
    if input.borderWidth.Some? { style := style.(borderWidth := input.borderWidth.value); }
    if input.borderColor.Some? { style := style.(borderColor := input.borderColor.value); }
  }

  function ResolveInput(scope: AliasScope, input: Input<ColorLiteral>): Result<Input<Color>, string> {
    var textColor :- ResolveOpt(scope, input.textColor);
    var background :- ResolveOpt(scope, input.background);
    var borderColor :- ResolveOpt(scope, input.borderColor);
    Success(Input(textColor, background, input.borderRadius, input.borderWidth, borderColor))
  }

  /** The flattened, optional style of a container sheet. */
  function FromInput(scope: AliasScope, base: Appearance, input: Input<ColorLiteral>): Option<Appearance> {
    match ResolveInput(scope, input)
    case Success(i) => Some(Overlay(i, base))
    case Failure(_) => None
  }

  // ---------------------------------------------------------------------------
  // Properties

  /** An input with no fields yields exactly the default style. */
  lemma EmptyInputIsDefault(base: Appearance)
    ensures Overlay(NoOverride(), base) == base
  {
  }

  /** Each present field replaces its target (text colour and background as
      `Some`); each absent one keeps the default. */
  lemma OverlayFields(input: Input<Color>, base: Appearance)
    ensures var r := Overlay(input, base);
      && r.textColor == (if input.textColor.Some? then Some(input.textColor.value) else base.textColor)
      && r.background == (if input.background.Some? then Some(BgColor(input.background.value)) else base.background)
      && r.borderRadius == (if input.borderRadius.Some? then input.borderRadius.value else base.borderRadius)
      && r.borderWidth == (if input.borderWidth.Some? then input.borderWidth.value else base.borderWidth)
      && r.borderColor == (if input.borderColor.Some? then input.borderColor.value else base.borderColor)
  {
  }

  /** An override is idempotent. */
  lemma OverlayIdempotent(input: Input<Color>, base: Appearance)
    ensures Overlay(input, Overlay(input, base)) == Overlay(input, base)
  {
  }
}
