/** The pick-list style cascade (src/widget/pick_list.rs): the drop-down menu
    style, and active and hovered appearances from a fixed baseline. */
module PickList {
  import opened Wrappers
  import opened Iced
  import opened ColorDe
  import Menu

  /** `iced_style::pick_list::Style`. */
  datatype Appearance = Appearance(
    textColor: Color,
    placeholderColor: Color,
    background: Background,
    borderRadius: real,
    borderWidth: real,
    borderColor: Color,
    iconSize: real)

  /** `de::Inner`. */
  datatype Inner<C> = Inner(
    textColor: Option<C>,
    placeholderColor: Option<C>,
    background: Option<C>,
    borderRadius: Option<real>,
    borderWidth: Option<real>,
    borderColor: Option<C>,
    iconSize: Option<real>)

  function NoOverride<C>(): Inner<C> {
    Inner(None, None, None, None, None, None, None)
  }

  /** `de::Style`; an absent `menu` table is the empty menu override, which
      yields the toolkit's default menu style either way. */
  datatype Input<C> = Input(menu: Menu.Input<C>, active: Inner<C>, hovered: Inner<C>)

  datatype Style = Style(menu: Menu.Appearance, active: Appearance, hovered: Appearance)

  const Baseline := Appearance(Black, FromArray3(0.4, 0.4, 0.4), BgColor(FromArray3(0.87, 0.87, 0.87)),
                               0.0, 1.0, FromArray3(0.7, 0.7, 0.7), 0.7)

  /** The appearance after an override: each of the seven fields independently. */
  function Overlay(o: Inner<Color>, s: Appearance): Appearance {
    Appearance(
      o.textColor.GetOr(s.textColor),
      o.placeholderColor.GetOr(s.placeholderColor),
      if o.background.Some? then BgColor(o.background.value) else s.background,
      o.borderRadius.GetOr(s.borderRadius),
      o.borderWidth.GetOr(s.borderWidth),
      o.borderColor.GetOr(s.borderColor),
      o.iconSize.GetOr(s.iconSize))
  }

  /** `Inner::overwrite(&self, &mut Style)`. */
  method Overwrite(o: Inner<Color>, s: Appearance) returns (r: Appearance)
    ensures r == Overlay(o, s)
  {
    r := s;
    if o.textColor.Some? { r := r.(textColor := o.textColor.value); }
    if o.placeholderColor.Some? { r := r.(placeholderColor := o.placeholderColor.value); }
    if o.background.Some? { r := r.(background := BgColor(o.background.value)); }
    if o.borderRadius.Some? { r := r.(borderRadius := o.borderRadius.value); }
    if o.borderWidth.Some? { r := r.(borderWidth := o.borderWidth.value); }
    if o.borderColor.Some? { r := r.(borderColor := o.borderColor.value); }
    if o.iconSize.Some? { r := r.(iconSize := o.iconSize.value); }
  }

  /** Hovered before its override: active with a black border. */
  function HoveredBase(active: Appearance): Appearance {
    active.(borderColor := Black)
  }

  /** The cascade: the menu over the toolkit's default menu; active from the
      baseline; hovered from the overridden active. */
  function Cascade(menuBase: Menu.Appearance, input: Input<Color>): Style {
    var active := Overlay(input.active, Baseline);
    Style(Menu.Overlay(input.menu, menuBase), active, Overlay(input.hovered, HoveredBase(active)))
  }

  /** `Deserialize for Style`. */
  method Deserialize(menuBase: Menu.Appearance, input: Input<Color>) returns (style: Style)
    ensures style == Cascade(menuBase, input)
  {
    var menu := Menu.Deserialize(menuBase, input.menu);
    var active := Overwrite(input.active, Baseline);
    var hovered := HoveredBase(active);
    hovered := Overwrite(input.hovered, hovered);
    style := Style(Menu.ToToolkit(menu), active, hovered);
  }

  function ResolveInner(scope: AliasScope, o: Inner<ColorLiteral>): Result<Inner<Color>, string> {
    var textColor :- ResolveOpt(scope, o.textColor);
    var placeholderColor :- ResolveOpt(scope, o.placeholderColor);
    var background :- ResolveOpt(scope, o.background);
    var borderColor :- ResolveOpt(scope, o.borderColor);
    Success(Inner(textColor, placeholderColor, background, o.borderRadius, o.borderWidth, borderColor, o.iconSize))
  }

  function ResolveInput(scope: AliasScope, input: Input<ColorLiteral>): Result<Input<Color>, string> {
    var menu :- Menu.ResolveInput(scope, input.menu);
    var active :- ResolveInner(scope, input.active);
    var hovered :- ResolveInner(scope, input.hovered);
    Success(Input(menu, active, hovered))
  }

  /** The flattened, optional style of a pick-list sheet. */
  function FromInput(scope: AliasScope, menuBase: Menu.Appearance, input: Input<ColorLiteral>): Option<Style> {
    match ResolveInput(scope, input)
    case Success(i) => Some(Cascade(menuBase, i))
    case Failure(_) => None
  }

  // ---------------------------------------------------------------------------
  // Properties

  /** Overriding with nothing changes nothing, and an override is idempotent. */
  lemma OverlayLaws(o: Inner<Color>, s: Appearance)
    ensures Overlay(NoOverride(), s) == s
    ensures Overlay(o, Overlay(o, s)) == Overlay(o, s)
  {
  }

  /** The baseline's values. */
  lemma BaselineValues()
    ensures Baseline == Appearance(Color(0.0, 0.0, 0.0, 1.0), Color(0.4, 0.4, 0.4, 1.0),
                                   BgColor(Color(0.87, 0.87, 0.87, 1.0)), 0.0, 1.0, Color(0.7, 0.7, 0.7, 1.0), 0.7)
  {
  }

  /** With no hovered override, hovered is active with a black border. */
  lemma HoveredWithoutOverride(menuBase: Menu.Appearance, input: Input<Color>)
    ensures var c := Cascade(menuBase, input.(hovered := NoOverride()));
      c.hovered == c.active.(borderColor := Color(0.0, 0.0, 0.0, 1.0))
  {
    OverlayLaws(NoOverride(), HoveredBase(Cascade(menuBase, input).active));
  }

  /** The menu style depends only on the menu override, and the menu override
      reaches nothing else. */
  lemma MenuIndependent(menuBase: Menu.Appearance, input: Input<Color>, a: Inner<Color>, h: Inner<Color>, m: Menu.Input<Color>)
    ensures Cascade(menuBase, input.(active := a, hovered := h)).menu == Cascade(menuBase, input).menu
    ensures Cascade(menuBase, input.(menu := m)).active == Cascade(menuBase, input).active
    ensures Cascade(menuBase, input.(menu := m)).hovered == Cascade(menuBase, input).hovered
  {
  }
}
