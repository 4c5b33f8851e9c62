/** The progress-bar style (src/widget/progress_bar.rs): a single appearance
    applied over a fixed baseline. */
module ProgressBar {
  import opened Wrappers
  import opened Iced
  import opened ColorDe

  /** `iced_style::progress_bar::Appearance`. */
  datatype Appearance = Appearance(background: Background, bar: Background, borderRadius: real)

  /** `de::Style`: the sparse override. */
  datatype Input<C> = Input(background: Option<C>, bar: Option<C>, borderRadius: Option<real>)

  function NoOverride<C>(): Input<C> {
    Input(None, None, None)
  }

  const Baseline := Appearance(BgColor(FromRgb(0.6, 0.6, 0.6)), BgColor(FromRgb(0.3, 0.9, 0.3)), 5.0)

  /** The baseline after the override. */
  function Overlay(o: Input<Color>, s: Appearance): Appearance {
    Appearance(
      if o.background.Some? then BgColor(o.background.value) else s.background,
      if o.bar.Some? then BgColor(o.bar.value) else s.bar,
      o.borderRadius.GetOr(s.borderRadius))
  }

  /** `Deserialize for Style`: the baseline, then one conditional assignment per field. */
  method Deserialize(input: Input<Color>) returns (style: Appearance)
    ensures style == Overlay(input, Baseline)
  {
    style := Baseline;
    if input.background.Some? { style := style.(background := BgColor(input.background.value)); }
    if input.bar.Some? { style := style.(bar := BgColor(input.bar.value)); }
    if input.borderRadius.Some? { style := style.(borderRadius := input.borderRadius.value); }
  }

  function ResolveInput(scope: AliasScope, input: Input<ColorLiteral>): Result<Input<Color>, string> {
    var background :- ResolveOpt(scope, input.background);
    var bar :- ResolveOpt(scope, input.bar);
    Success(Input(background, bar, input.borderRadius))
  }

  /** The flattened, optional style of a progress-bar sheet. */
  function FromInput(scope: AliasScope, input: Input<ColorLiteral>): Option<Appearance> {
    match ResolveInput(scope, input)
    case Success(i) => Some(Overlay(i, Baseline))
    case Failure(_) => None
  }

  // ---------------------------------------------------------------------------
  // Properties

  /** The baseline's values, and an empty input yields exactly the baseline. */
  lemma EmptyInputIsBaseline()
    ensures Baseline == Appearance(BgColor(Color(0.6, 0.6, 0.6, 1.0)), BgColor(Color(0.3, 0.9, 0.3, 1.0)), 5.0)
    ensures Overlay(NoOverride(), Baseline) == Baseline
  {
  }

  /** Each field is replaced exactly when present; an override of one field
      leaves the other two at the baseline. */
  lemma OverlayFields(input: Input<Color>)
    ensures var r := Overlay(input, Baseline);
      && (r.background == if input.background.Some? then BgColor(input.background.value) else Baseline.background)
      && (r.bar == if input.bar.Some? then BgColor(input.bar.value) else Baseline.bar)
      && (r.borderRadius == if input.borderRadius.Some? then input.borderRadius.value else Baseline.borderRadius)
  {
  }
}
