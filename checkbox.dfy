/** The checkbox style cascade (src/widget/checkbox.rs): four appearances,
    unchecked and checked, at rest and hovered, from a fixed baseline. */
module Checkbox {
  import opened Wrappers
  import opened Iced
  import opened ColorDe

  /** `iced_style::checkbox::Appearance`. */
  datatype Appearance = Appearance(
    background: Background,
    checkmarkColor: Color,
    borderRadius: real,
    borderWidth: real,
    borderColor: Color,
    textColor: Option<Color>)

  /** `de::Inner2`: the sparse override of one appearance. */
  datatype Inner2<C> = Inner2(
    background: Option<C>,
    checkmarkColor: Option<C>,
    borderRadius: Option<real>,
    borderWidth: Option<real>,
    borderColor: Option<C>,
    textColor: Option<C>)

  function NoOverride<C>(): Inner2<C> {
    Inner2(None, None, None, None, None, None)
  }

  /** `de::Inner`: the override of the unchecked appearance (flattened as
      `default`) and the extra override of the checked one (`checked`). */
  datatype Inner<C> = Inner(default: Inner2<C>, checked: Inner2<C>)

  datatype Input<C> = Input(active: Inner<C>, hovered: Inner<C>)

  /** The resolved `Style`. */
  datatype Style = Style(active: Appearance, activeChecked: Appearance, hovered: Appearance, hoveredChecked: Appearance)

  function Grey(v: real): Color {
    FromRgb(v, v, v)
  }

  /** The starting point of the unchecked appearance. */
  const Baseline := Appearance(BgColor(Grey(0.95)), Grey(0.3), 5.0, 1.0, Grey(0.6), None)

  /** The appearance after an override; a present text colour is stored as `Some`. */
  function Overlay(o: Inner2<Color>, s: Appearance): Appearance {
    Appearance(
      if o.background.Some? then BgColor(o.background.value) else s.background,
      o.checkmarkColor.GetOr(s.checkmarkColor),
      o.borderRadius.GetOr(s.borderRadius),
      o.borderWidth.GetOr(s.borderWidth),
      o.borderColor.GetOr(s.borderColor),
      if o.textColor.Some? then Some(o.textColor.value) else s.textColor)
  }

  /** `Inner2::overwrite(&self, &mut Appearance)`. */
  method Overwrite(o: Inner2<Color>, s: Appearance) returns (r: Appearance)
    ensures r == Overlay(o, s)
  {
    r := s;
    if o.background.Some? { r := r.(background := BgColor(o.background.value)); }
    if o.checkmarkColor.Some? { r := r.(checkmarkColor := o.checkmarkColor.value); }
    if o.borderRadius.Some? { r := r.(borderRadius := o.borderRadius.value); }
    if o.borderWidth.Some? { r := r.(borderWidth := o.borderWidth.value); }
    if o.borderColor.Some? { r := r.(borderColor := o.borderColor.value); }
    if o.textColor.Some? { r := r.(textColor := Some(o.textColor.value)); }
  }

  /** A hovered appearance before its overrides: the resting one on a 0.90 grey. */
  function HoverBase(s: Appearance): Appearance {
    s.(background := BgColor(Grey(0.90)))
  }

  /** The cascade: unchecked from the baseline; checked from the overridden
      unchecked; each hovered state from its resting state on a lighter grey,
      then the hovered override, and for the checked one also its own. */
  function Cascade(input: Input<Color>): Style {
    var active := Overlay(input.active.default, Baseline);
    var activeChecked := Overlay(input.active.checked, active);
    var hovered := Overlay(input.hovered.default, HoverBase(active));
    var hoveredChecked := Overlay(input.hovered.checked, Overlay(input.hovered.default, HoverBase(activeChecked)));
    Style(active, activeChecked, hovered, hoveredChecked)
  }

  /** `Deserialize for Style`, in the order of the source's assignments. */
  method Deserialize(input: Input<Color>) returns (style: Style)
    ensures style == Cascade(input)
  {
    var active := Overwrite(input.active.default, Baseline);
    var activeChecked := active;
    activeChecked := Overwrite(input.active.checked, activeChecked);
    var hovered := HoverBase(active);
    var hoveredChecked := HoverBase(activeChecked);
    hovered := Overwrite(input.hovered.default, hovered);
    hoveredChecked := Overwrite(input.hovered.default, hoveredChecked);
    hoveredChecked := Overwrite(input.hovered.checked, hoveredChecked);
    style := Style(active, activeChecked, hovered, hoveredChecked);
  }

  /** `StyleSheet::active(is_checked)`. */
  function Active(style: Style, isChecked: bool): Appearance {
    if isChecked then style.activeChecked else style.active
  }

  /** `StyleSheet::hovered(is_checked)`. */
  function Hovered(style: Style, isChecked: bool): Appearance {
    if isChecked then style.hoveredChecked else style.hovered
  }

  function ResolveInner2(scope: AliasScope, o: Inner2<ColorLiteral>): Result<Inner2<Color>, string> {
    var background :- ResolveOpt(scope, o.background);
    var checkmarkColor :- ResolveOpt(scope, o.checkmarkColor);
    var borderColor :- ResolveOpt(scope, o.borderColor);
    var textColor :- ResolveOpt(scope, o.textColor);
    Success(Inner2(background, checkmarkColor, o.borderRadius, o.borderWidth, borderColor, textColor))
  }

  function ResolveInner(scope: AliasScope, o: Inner<ColorLiteral>): Result<Inner<Color>, string> {
    var default :- ResolveInner2(scope, o.default);
    var checked :- ResolveInner2(scope, o.checked);
    Success(Inner(default, checked))
  }

  function ResolveInput(scope: AliasScope, input: Input<ColorLiteral>): Result<Input<Color>, string> {
    var active :- ResolveInner(scope, input.active);
    var hovered :- ResolveInner(scope, input.hovered);
    Success(Input(active, hovered))
  }

  /** The flattened, optional style of a checkbox sheet. */
  function FromInput(scope: AliasScope, input: Input<ColorLiteral>): Option<Style> {
    match ResolveInput(scope, input)
    case Success(i) => Some(Cascade(i))
    case Failure(_) => None
  }

  // ---------------------------------------------------------------------------
  // Properties

  /** The field-wise merge of two overrides, the later one winning. */
  function Merge(first: Inner2<Color>, second: Inner2<Color>): Inner2<Color> {
    Inner2(
      if second.background.Some? then second.background else first.background,
      if second.checkmarkColor.Some? then second.checkmarkColor else first.checkmarkColor,
      if second.borderRadius.Some? then second.borderRadius else first.borderRadius,
      if second.borderWidth.Some? then second.borderWidth else first.borderWidth,
      if second.borderColor.Some? then second.borderColor else first.borderColor,
      if second.textColor.Some? then second.textColor else first.textColor)
  }

  /** The identity, idempotence and composition laws of the override. */
  lemma OverlayLaws(a: Inner2<Color>, b: Inner2<Color>, s: Appearance)
    ensures Overlay(NoOverride(), s) == s
    ensures Overlay(a, Overlay(a, s)) == Overlay(a, s)
    ensures Overlay(b, Overlay(a, s)) == Overlay(Merge(a, b), s)
  {
  }

  /** The baseline's values, and a present text colour stored as `Some`. */
  lemma BaselineAndTextColour(o: Inner2<Color>, s: Appearance)
    ensures Baseline.background == BgColor(Color(0.95, 0.95, 0.95, 1.0))
    ensures Baseline.checkmarkColor == Color(0.3, 0.3, 0.3, 1.0)
    ensures Baseline.borderRadius == 5.0 && Baseline.borderWidth == 1.0
    ensures Baseline.borderColor == Color(0.6, 0.6, 0.6, 1.0) && Baseline.textColor.None?
    ensures o.textColor.Some? ==> Overlay(o, s).textColor == Some(o.textColor.value)
    ensures o.textColor.None? ==> Overlay(o, s).textColor == s.textColor
  {
  }

  /** The hovered checked appearance is the checked one on the lighter grey
      with the merged hovered overrides, `checked` winning over `default`. */
  lemma HoveredCheckedMeaning(input: Input<Color>)
    ensures Cascade(input).hoveredChecked ==
            Overlay(Merge(input.hovered.default, input.hovered.checked), HoverBase(Cascade(input).activeChecked))
  {
    OverlayLaws(input.hovered.default, input.hovered.checked, HoverBase(Cascade(input).activeChecked));
  }

  /** With no overrides at all, checked and unchecked coincide, and hovering
      changes only the background. */
  lemma NoOverrides()
    ensures var c := Cascade(Input(Inner(NoOverride(), NoOverride()), Inner(NoOverride(), NoOverride())));
      && c.active == Baseline && c.activeChecked == Baseline
      && c.hovered == Baseline.(background := BgColor(Grey(0.90)))
      && c.hoveredChecked == c.hovered
  {
    OverlayLaws(NoOverride(), NoOverride(), Baseline);
    OverlayLaws(NoOverride(), NoOverride(), HoverBase(Baseline));
  }

  /** The hovered overrides never reach the resting states, and the checked
      overrides never reach the unchecked states. */
  lemma OverridesIsolated(input: Input<Color>, h: Inner<Color>, k: Inner2<Color>, j: Inner2<Color>)
    ensures var c := Cascade(input); var d := Cascade(input.(hovered := h));
      d.active == c.active && d.activeChecked == c.activeChecked
    ensures var c := Cascade(input); var d := Cascade(input.(active := input.active.(checked := k), hovered := input.hovered.(checked := j)));
      d.active == c.active && d.hovered == c.hovered
  {
  }

  /** What the toolkit gets for each checked state: unchecked is the baseline
      under the `default` override; checked is the baseline under the merge of
      `default` and `checked`; hovered adds the hovered overrides on top of the
      lighter grey. */
  lemma SelectionMeaning(input: Input<Color>)
    ensures Active(Cascade(input), false) == Overlay(input.active.default, Baseline)
    ensures Active(Cascade(input), true) ==
            Overlay(Merge(input.active.default, input.active.checked), Baseline)
    ensures Hovered(Cascade(input), false) ==
            Overlay(input.hovered.default, HoverBase(Active(Cascade(input), false)))
    ensures Hovered(Cascade(input), true) ==
            Overlay(Merge(input.hovered.default, input.hovered.checked), HoverBase(Active(Cascade(input), true)))
  {
    OverlayLaws(input.active.default, input.active.checked, Baseline);
    HoveredCheckedMeaning(input);
  }
}
