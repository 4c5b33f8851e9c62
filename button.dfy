/** The button style cascade (src/widget/button.rs). The four states start from
    the toolkit's default button appearance, which is a parameter here. */
module Button {
  import opened Wrappers
  import opened Iced
  import opened ColorDe

  /** `iced_style::button::Style`. */
  datatype Appearance = Appearance(
    shadowOffset: Vector,
    background: Option<Background>,
    borderRadius: real,
    borderWidth: real,
    borderColor: Color,
    textColor: Color)

  /** `de::Inner`: a sparse override with colours of type `C` (literals as
      written, or resolved colours). */
  datatype Inner<C> = Inner(
    shadowOffset: Option<Vector>,
    background: Option<C>,
    borderRadius: Option<real>,
    borderWidth: Option<real>,
    borderColor: Option<C>,
    textColor: Option<C>)

  function NoOverride<C>(): Inner<C> {
    Inner(None, None, None, None, None, None)
  }

  /** `de::Style`: one override per state, each defaulting to the empty one. */
  datatype Input<C> = Input(active: Inner<C>, hovered: Inner<C>, pressed: Inner<C>, disabled: Inner<C>)

  /** The resolved `Style` handed to the toolkit. */
  datatype Style = Style(active: Appearance, hovered: Appearance, pressed: Appearance, disabled: Appearance)

  /** The appearance after an override: each present field replaces its
      target (a background is stored as `Some`), each absent one keeps it. */
  function Overlay(o: Inner<Color>, s: Appearance): Appearance {
    Appearance(
      o.shadowOffset.GetOr(s.shadowOffset),
      if o.background.Some? then Some(BgColor(o.background.value)) else s.background,
      o.borderRadius.GetOr(s.borderRadius),
      o.borderWidth.GetOr(s.borderWidth),
      o.borderColor.GetOr(s.borderColor),
      o.textColor.GetOr(s.textColor))
  }

  /** `Inner::overwrite(&self, &mut Style)`, one conditional assignment per field. */
  method Overwrite(o: Inner<Color>, s: Appearance) returns (r: Appearance)
    ensures r == Overlay(o, s)
  {
    r := s;
    if o.shadowOffset.Some? { r := r.(shadowOffset := o.shadowOffset.value); }
    if o.background.Some? { r := r.(background := Some(BgColor(o.background.value))); }
    if o.borderRadius.Some? { r := r.(borderRadius := o.borderRadius.value); }
    if o.borderWidth.Some? { r := r.(borderWidth := o.borderWidth.value); }
    if o.borderColor.Some? { r := r.(borderColor := o.borderColor.value); }
    if o.textColor.Some? { r := r.(textColor := o.textColor.value); }
  }

  /** Hovered, before its override: the active appearance pushed down by one. */
  function HoveredBase(active: Appearance): Appearance {
    active.(shadowOffset := Add(active.shadowOffset, Vector(0.0, 1.0)))
  }

  /** Pressed, before its override: the active appearance without a shadow. */
  function PressedBase(active: Appearance): Appearance {
    active.(shadowOffset := ZeroVector)
  }

  /** Disabled, before its override: no shadow, and background and text at
      half their alpha. */
  function DisabledBase(active: Appearance): Appearance {
    active.(
      shadowOffset := ZeroVector,
      background := if active.background.Some?
                    then Some(BgColor(ScaleAlpha(active.background.value.color, 0.5)))
                    else None,
      textColor := ScaleAlpha(active.textColor, 0.5))
  }

  /** The cascade: active from the toolkit default, then each other state
      from the overridden active, then its own override. */
  function Cascade(base: Appearance, input: Input<Color>): Style {
    var active := Overlay(input.active, base);
    Style(
      active,
      Overlay(input.hovered, HoveredBase(active)),
      Overlay(input.pressed, PressedBase(active)),
      Overlay(input.disabled, DisabledBase(active)))
  }

  /** `Deserialize for Style`: the cascade as the sequence of `let mut` records. */
  method Deserialize(base: Appearance, input: Input<Color>) returns (style: Style)
    ensures style == Cascade(base, input)
  {
    var active := Overwrite(input.active, base);
    var hovered := HoveredBase(active);
    hovered := Overwrite(input.hovered, hovered);
    var pressed := PressedBase(active);
    pressed := Overwrite(input.pressed, pressed);
    var disabled := DisabledBase(active);
    disabled := Overwrite(input.disabled, disabled);
    style := Style(active, hovered, pressed, disabled);
  }

  /** The colour fields of an override resolved against the alias scope. */
  function ResolveInner(scope: AliasScope, o: Inner<ColorLiteral>): Result<Inner<Color>, string> {
    var background :- ResolveOpt(scope, o.background);
    var borderColor :- ResolveOpt(scope, o.borderColor);
    var textColor :- ResolveOpt(scope, o.textColor);
    Success(Inner(o.shadowOffset, background, o.borderRadius, o.borderWidth, borderColor, textColor))
  }

  function ResolveInput(scope: AliasScope, input: Input<ColorLiteral>): Result<Input<Color>, string> {
    var active :- ResolveInner(scope, input.active);
    var hovered :- ResolveInner(scope, input.hovered);
    var pressed :- ResolveInner(scope, input.pressed);
    var disabled :- ResolveInner(scope, input.disabled);
    Success(Input(active, hovered, pressed, disabled))
  }

  /** The flattened, optional style of a button sheet: the cascade of the
      resolved input, or no style when a colour does not resolve. */
  function FromInput(scope: AliasScope, base: Appearance, input: Input<ColorLiteral>): Option<Style> {
    match ResolveInput(scope, input)
    case Success(i) => Some(Cascade(base, i))
    case Failure(_) => None
  }

  // ---------------------------------------------------------------------------
  // Properties

  /** The field-wise merge of two overrides, the later one winning. */
  function Merge(first: Inner<Color>, second: Inner<Color>): Inner<Color> {
    Inner(
      if second.shadowOffset.Some? then second.shadowOffset else first.shadowOffset,
      if second.background.Some? then second.background else first.background,
      if second.borderRadius.Some? then second.borderRadius else first.borderRadius,
      if second.borderWidth.Some? then second.borderWidth else first.borderWidth,
      if second.borderColor.Some? then second.borderColor else first.borderColor,
      if second.textColor.Some? then second.textColor else first.textColor)
  }

  /** Overriding with nothing changes nothing, overriding twice with the same
      override is overriding once, and two overrides in a row are their merge. */
  lemma OverlayLaws(a: Inner<Color>, b: Inner<Color>, s: Appearance)
    ensures Overlay(NoOverride(), s) == s
    ensures Overlay(a, Overlay(a, s)) == Overlay(a, s)
    ensures Overlay(b, Overlay(a, s)) == Overlay(Merge(a, b), s)
  {
  }

  /** Each present field of an override is what the result holds, whatever
      the appearance it was applied to. */
  lemma OverlayPresentFields(o: Inner<Color>, s: Appearance, t: Appearance)
    ensures o.shadowOffset.Some? ==> Overlay(o, s).shadowOffset == Overlay(o, t).shadowOffset
    ensures o.background.Some? ==> Overlay(o, s).background == Some(BgColor(o.background.value))
    ensures o.borderRadius.Some? ==> Overlay(o, s).borderRadius == Overlay(o, t).borderRadius
    ensures o.borderWidth.Some? ==> Overlay(o, s).borderWidth == Overlay(o, t).borderWidth
    ensures o.borderColor.Some? ==> Overlay(o, s).borderColor == Overlay(o, t).borderColor
    ensures o.textColor.Some? ==> Overlay(o, s).textColor == Overlay(o, t).textColor
  {
  }

  /** Hovered, pressed and disabled all derive from active, so each state's
      override reaches only that state. */
  lemma OverridesIsolated(base: Appearance, input: Input<Color>, o: Inner<Color>)
    ensures var c := Cascade(base, input); var h := Cascade(base, input.(hovered := o));
      h.active == c.active && h.pressed == c.pressed && h.disabled == c.disabled
    ensures var c := Cascade(base, input); var p := Cascade(base, input.(pressed := o));
      p.active == c.active && p.hovered == c.hovered && p.disabled == c.disabled
    ensures var c := Cascade(base, input); var d := Cascade(base, input.(disabled := o));
      d.active == c.active && d.hovered == c.hovered && d.pressed == c.pressed
  {
  }

  /** Without their own overrides the dependent states are fixed tweaks of
      active: hovered is shifted down by one, pressed has no shadow, disabled
      has no shadow and half-transparent background and text, and everything
      else is copied from active. */
  lemma DerivedStatesWithoutOverrides(base: Appearance, a: Inner<Color>)
    ensures var c := Cascade(base, Input(a, NoOverride(), NoOverride(), NoOverride()));
      && c.active == Overlay(a, base)
      && c.hovered == c.active.(shadowOffset := Vector(c.active.shadowOffset.x, c.active.shadowOffset.y + 1.0))
      && c.pressed == c.active.(shadowOffset := Vector(0.0, 0.0))
      && c.disabled.shadowOffset == Vector(0.0, 0.0)
      && (c.active.background.None? ==> c.disabled.background.None?)
      && (c.active.background.Some? ==>
            c.disabled.background == Some(BgColor(c.active.background.value.color.(a := c.active.background.value.color.a * 0.5))))
      && c.disabled.textColor == c.active.textColor.(a := c.active.textColor.a * 0.5)
      && c.disabled.borderRadius == c.active.borderRadius
      && c.disabled.borderWidth == c.active.borderWidth
      && c.disabled.borderColor == c.active.borderColor
  {
    OverlayLaws(a, a, base);
    var c := Cascade(base, Input(a, NoOverride(), NoOverride(), NoOverride()));
    OverlayLaws(NoOverride(), NoOverride(), HoveredBase(c.active));
    OverlayLaws(NoOverride(), NoOverride(), PressedBase(c.active));
    OverlayLaws(NoOverride(), NoOverride(), DisabledBase(c.active));
  }
}
