/** Theme assembly (src/theme.rs): one pass over the document's top-level
    tables in the order the TOML decoder presents them, threading the alias
    scope that the `color` table installs, then `init` on every widget map. */
module Themes {
  import opened Wrappers
  import opened Iced
  import opened ColorMaps
  import opened ColorDe
  import opened StyleMaps
  import Button
  import Checkbox
  import Container
  import Menu
  import PickList
  import ProgressBar
  import Radio
  import Scrollable
  import Slider
  import TextInput

  /** The values the parse takes from outside the crate: the compiled-in colour
      names, and the toolkit's default button, container and menu styles. */
  datatype Config = Config(
    builtins: map<string, Color>,
    buttonDefault: Button.Appearance,
    containerDefault: Container.Appearance,
    menuDefault: Menu.Appearance)

  /** The style of the image, image-viewer and svg sheets, which have none. */
  datatype NoStyle = NoStyle

  /** One top-level table of a decoded document. Widget tables list their
      variants in order; the text sheet's only style field is its `color`. */
  datatype Section =
    | ColorSection(entries: seq<(string, ColorLiteral)>)
    | ButtonSection(buttons: StyleMaps.Section<Button.Input<ColorLiteral>>)
    | CheckboxSection(checkboxes: StyleMaps.Section<Checkbox.Input<ColorLiteral>>)
    | ContainerSection(containers: StyleMaps.Section<Container.Input<ColorLiteral>>)
    | ImageSection(images: StyleMaps.Section<NoStyle>)
    | ImageViewerSection(viewers: StyleMaps.Section<NoStyle>)
    | PickListSection(pickLists: StyleMaps.Section<PickList.Input<ColorLiteral>>)
    | ProgressBarSection(progressBars: StyleMaps.Section<ProgressBar.Input<ColorLiteral>>)
    | RadioSection(radios: StyleMaps.Section<Radio.Input<ColorLiteral>>)
    | ScrollableSection(scrollables: StyleMaps.Section<Scrollable.Input<ColorLiteral>>)
    | SliderSection(sliders: StyleMaps.Section<Slider.Input<ColorLiteral>>)
    | SvgSection(svgs: StyleMaps.Section<NoStyle>)
    | TextSection(texts: StyleMaps.Section<ColorLiteral>)
    | TextInputSection(textInputs: StyleMaps.Section<TextInput.Input<ColorLiteral>>)
    | Unknown(key: string)

  /** A decoded document: its top-level tables in decoding order. */
  type Document = seq<Section>

  function Key(s: Section): string {
    match s
    case ColorSection(_) => "color"
    case ButtonSection(_) => "button"
    case CheckboxSection(_) => "checkbox"
    case ContainerSection(_) => "container"
    case ImageSection(_) => "image"
    case ImageViewerSection(_) => "image_viewer"
    case PickListSection(_) => "pick_list"
    case ProgressBarSection(_) => "progress_bar"
    case RadioSection(_) => "radio"
    case ScrollableSection(_) => "scrollable"
    case SliderSection(_) => "slider"
    case SvgSection(_) => "svg"
    case TextSection(_) => "text"
    case TextInputSection(_) => "text_input"
    case Unknown(k) => k
  }

  /** `ThemeInner`: the document's colour table and one map per widget kind. */
  datatype ThemeInner = ThemeInner(
    color: ColorMap,
    button: StyleMap<Button.Style>,
    checkbox: StyleMap<Checkbox.Style>,
    container: StyleMap<Container.Appearance>,
    image: StyleMap<NoStyle>,
    imageViewer: StyleMap<NoStyle>,
    pickList: StyleMap<PickList.Style>,
    progressBar: StyleMap<ProgressBar.Appearance>,
    radio: StyleMap<Radio.Style>,
    scrollable: StyleMap<Scrollable.Style>,
    slider: StyleMap<Slider.Style>,
    svg: StyleMap<NoStyle>,
    text: StyleMap<Color>,
    textInput: StyleMap<TextInput.Style>)

  /** The derived default: an empty colour table and empty widget maps. */
  const EmptyInner := ThemeInner(Empty, map[], map[], map[], map[], map[], map[], map[], map[], map[], map[], map[], map[], map[])

  /** `Theme`, a wrapper around `ThemeInner`. Each accessor of the source
      (`button()`, `checkbox()`, ...) is the projection of the field of that name. */
  datatype Theme = Theme(inner: ThemeInner) {
    /** `Theme::color`: the colour table parsed from the document. */
    function Colors(): ColorMap {
      inner.color
    }
  }

  /** `Theme::default()`. */
  const DefaultTheme := Theme(EmptyInner)

  function DuplicateMessage(key: string): string {
    "duplicate field `" + key + "`"
  }

  /** What the pass carries from table to table: the alias scope, the keys seen
      so far, and the fields decoded so far. */
  datatype ParseState = ParseState(scope: AliasScope, seen: set<string>, inner: ThemeInner)

  /** The text sheets: their colour field is not flattened, so an unresolvable
      colour fails the whole document. */
  function CollectText(scope: AliasScope, entries: StyleMaps.Section<ColorLiteral>): Result<StyleMap<Color>, string>
  {
    if entries == [] then Success(map[])
    else
      var last := entries[|entries| - 1];
      var init :- CollectText(scope, entries[..|entries| - 1]);
      var color :- ResolveOpt(scope, last.1.style);
      Success(init[last.0 := Sheet(last.1.layout, color)])
  }

  function NoConversion(s: NoStyle): Option<NoStyle> {
    None
  }

  /** One top-level table: a repeated key is an error; the `color` table is
      read against the scope in force and installs its table in the scope;
      each widget table is converted against the scope in force; unknown keys
      are ignored. `Unknown(k)` stands for a key `ThemeInner` has no field for,
      so the decoder never produces it with one of the named keys (`"button"`,
      `"color"`, ...); for such a key it would skip the duplicate check. */
  function Step(cfg: Config, st: ParseState, s: Section): Result<ParseState, string> {
    var scope := st.scope;
    var inner := st.inner;
    if !s.Unknown? && Key(s) in st.seen then Failure(DuplicateMessage(Key(s)))
    else
      var seen := st.seen + {Key(s)};
      match s
      case ColorSection(entries) =>
        var (m, scope') :- DeserializeAliases(scope, Some(entries));
        Success(ParseState(scope', seen, inner.(color := m)))
      case ButtonSection(e) =>
        Success(ParseState(scope, seen, inner.(button := Collect(e, i => Button.FromInput(scope, cfg.buttonDefault, i)))))
      case CheckboxSection(e) =>
        Success(ParseState(scope, seen, inner.(checkbox := Collect(e, i => Checkbox.FromInput(scope, i)))))
      case ContainerSection(e) =>
        Success(ParseState(scope, seen, inner.(container := Collect(e, i => Container.FromInput(scope, cfg.containerDefault, i)))))
      case ImageSection(e) =>
        Success(ParseState(scope, seen, inner.(image := Collect(e, NoConversion))))
      case ImageViewerSection(e) =>
        Success(ParseState(scope, seen, inner.(imageViewer := Collect(e, NoConversion))))
      case PickListSection(e) =>
        Success(ParseState(scope, seen, inner.(pickList := Collect(e, i => PickList.FromInput(scope, cfg.menuDefault, i)))))
      case ProgressBarSection(e) =>
        Success(ParseState(scope, seen, inner.(progressBar := Collect(e, i => ProgressBar.FromInput(scope, i)))))
      case RadioSection(e) =>
        Success(ParseState(scope, seen, inner.(radio := Collect(e, i => Radio.FromInput(scope, i)))))
      case ScrollableSection(e) =>
        Success(ParseState(scope, seen, inner.(scrollable := Collect(e, i => Scrollable.FromInput(scope, i)))))
      case SliderSection(e) =>
        Success(ParseState(scope, seen, inner.(slider := Collect(e, i => Slider.FromInput(scope, i)))))
      case SvgSection(e) =>
        Success(ParseState(scope, seen, inner.(svg := Collect(e, NoConversion))))
      case TextSection(e) =>
        var text :- CollectText(scope, e);
        Success(ParseState(scope, seen, inner.(text := text)))
      case TextInputSection(e) =>
        Success(ParseState(scope, seen, inner.(textInput := Collect(e, i => TextInput.FromInput(scope, i)))))
      case Unknown(_) =>
        Success(st)
  }

  /** `ThemeInner::deserialize`: the tables one after the other; the first
      failure ends the pass. */
  function Sections(cfg: Config, st: ParseState, doc: Document): Result<ParseState, string>
    decreases |doc|
  {
    if doc == [] then Success(st)
    else
      var st' :- Step(cfg, st, doc[0]);
      Sections(cfg, st', doc[1..])
  }

  /** The state a parse starts in: a fresh, empty document alias table. */
  function FreshState(cfg: Config): ParseState {
    ParseState(AliasScope(cfg.builtins, Empty), {}, EmptyInner)
  }

  /** Every widget map after `init`. */
  function InitAll(t: ThemeInner): ThemeInner {
    t.(button := WithDefault(t.button),
       checkbox := WithDefault(t.checkbox),
       container := WithDefault(t.container),
       image := WithDefault(t.image),
       imageViewer := WithDefault(t.imageViewer),
       pickList := WithDefault(t.pickList),
       progressBar := WithDefault(t.progressBar),
       radio := WithDefault(t.radio),
       scrollable := WithDefault(t.scrollable),
       slider := WithDefault(t.slider),
       svg := WithDefault(t.svg),
       text := WithDefault(t.text),
       textInput := WithDefault(t.textInput))
  }

  /** The result of `Deserialize for Theme` on one decoded document. */
  function Parse(cfg: Config, doc: Document): Result<Theme, string> {
    var st :- Sections(cfg, FreshState(cfg), doc);
    Success(Theme(InitAll(st.inner)))
  }

  /** `Deserialize for Theme`: a fresh alias scope, the inner pass, and `init`
      on every widget map in the order of the source; a failing pass returns
      its error before any `init`. */
  method Deserialize(cfg: Config, doc: Document) returns (r: Result<Theme, string>)
    ensures r == Parse(cfg, doc)
  {
    var scope := AliasScope(cfg.builtins, Empty);
    var pass := Sections(cfg, ParseState(scope, {}, EmptyInner), doc);
    if pass.Failure? {
      return Failure(pass.error);
    }
    var t := pass.value.inner;
    var button := Init(t.button);
    t := t.(button := button);
    var checkbox := Init(t.checkbox);
    t := t.(checkbox := checkbox);
    var container := Init(t.container);
    t := t.(container := container);
    var image := Init(t.image);
    t := t.(image := image);
    var imageViewer := Init(t.imageViewer);
    t := t.(imageViewer := imageViewer);
    var pickList := Init(t.pickList);
    t := t.(pickList := pickList);
    var progressBar := Init(t.progressBar);
    t := t.(progressBar := progressBar);
    var radio := Init(t.radio);
    t := t.(radio := radio);
    var scrollable := Init(t.scrollable);
    t := t.(scrollable := scrollable);
    var slider := Init(t.slider);
    t := t.(slider := slider);
    var svg := Init(t.svg);
    t := t.(svg := svg);
    var text := Init(t.text);
    t := t.(text := text);
    var textInput := Init(t.textInput);
    t := t.(textInput := textInput);
    r := Success(Theme(t));
  }

  // ---------------------------------------------------------------------------
  // Reading from text and from files

  /** The TOML text of a document: decodable into top-level tables, or not
      (a syntax error, or a value of the wrong shape). */
  datatype Text = Decoded(doc: Document) | Malformed(message: string)

  /** `ErrorKind`, the kinds of the crate's `Error`. */
  datatype ErrorKind = Io | Toml(message: string) | Notify

  /** A file-system path, compared component by component. */
  datatype Path = Path(components: seq<string>)

  /** `Theme::from_str`: every failure is a TOML error. */
  function FromStr(cfg: Config, text: Text): Result<Theme, ErrorKind> {
    match text
    case Malformed(m) => Failure(Toml(m))
    case Decoded(doc) => Parse(cfg, doc).MapFailure(m => Toml(m))
  }

  /** `Theme::from_file`: the file system is the map from the readable paths to
      their contents; an unreadable path is an I/O error. */
  function FromFile(cfg: Config, files: map<Path, Text>, p: Path): Result<Theme, ErrorKind> {
    if p !in files then Failure(Io) else FromStr(cfg, files[p])
  }

  // ---------------------------------------------------------------------------
  // Properties

  predicate AllInitialised(t: ThemeInner) {
    && DefaultKey in t.button && DefaultKey in t.checkbox && DefaultKey in t.container
    && DefaultKey in t.image && DefaultKey in t.imageViewer && DefaultKey in t.pickList
    && DefaultKey in t.progressBar && DefaultKey in t.radio && DefaultKey in t.scrollable
    && DefaultKey in t.slider && DefaultKey in t.svg && DefaultKey in t.text && DefaultKey in t.textInput
  }

  /** Every widget map of a parsed theme has a `"default"` variant. */
  lemma ParsedThemeInitialised(cfg: Config, doc: Document)
    requires Parse(cfg, doc).Success?
    ensures AllInitialised(Parse(cfg, doc).value.inner)
  {
  }

  /** The default theme's maps are empty, so the `"default"` invariant holds
      only for parsed themes. */
  lemma DefaultThemeNotInitialised()
    ensures !AllInitialised(DefaultTheme.inner)
    ensures DefaultTheme.Colors() == Empty
  {
  }

  /** A failing pass yields no theme and its own error. */
  lemma FailureBeforeInit(cfg: Config, doc: Document)
    requires Sections(cfg, FreshState(cfg), doc).Failure?
    ensures Parse(cfg, doc) == Failure(Sections(cfg, FreshState(cfg), doc).error)
  {
  }

  /** The entries of the first `color` table of a document, if any. */
  function ColorEntries(doc: Document): Option<seq<(string, ColorLiteral)>> {
    if doc == [] then None
    else if doc[0].ColorSection? then Some(doc[0].entries)
    else ColorEntries(doc[1..])
  }

  /** The pass keeps the scope's document table equal to the decoded colour
      table and the built-in table fixed, and the table stays empty until a
      `color` table has been read. */
  ghost predicate ScopeInvariant(cfg: Config, st: ParseState) {
    && st.scope == AliasScope(cfg.builtins, st.inner.color)
    && ("color" !in st.seen ==> st.inner.color == Empty)
  }

  lemma StepKeepsScopeInvariant(cfg: Config, st: ParseState, s: Section)
    requires ScopeInvariant(cfg, st)
    requires Step(cfg, st, s).Success?
    ensures ScopeInvariant(cfg, Step(cfg, st, s).value)
    ensures st.seen <= Step(cfg, st, s).value.seen
    ensures !s.ColorSection? ==> Step(cfg, st, s).value.inner.color == st.inner.color
    ensures s.ColorSection? ==> "color" !in st.seen
  {
  }

  /** The colour table after the pass: the one already read, or else the
      document's first `color` table converted against the built-in names only. */
  lemma {:induction false} SectionsColor(cfg: Config, st: ParseState, doc: Document)
    requires ScopeInvariant(cfg, st)
    requires Sections(cfg, st, doc).Success?
    ensures "color" in st.seen ==> Sections(cfg, st, doc).value.inner.color == st.inner.color
    ensures "color" !in st.seen && ColorEntries(doc).None? ==> Sections(cfg, st, doc).value.inner.color == Empty
    ensures "color" !in st.seen && ColorEntries(doc).Some? ==>
              var e := ResolveEntries(AliasScope(cfg.builtins, Empty), ColorEntries(doc).value);
              e.Success? && Sections(cfg, st, doc).value.inner.color == FromIter(e.value)
    decreases |doc|
  {
    if doc != [] {
      var st' := Step(cfg, st, doc[0]).value;
      StepKeepsScopeInvariant(cfg, st, doc[0]);
      SectionsColor(cfg, st', doc[1..]);
    }
  }

  /** `color()` returns exactly the table built from the document's `color`
      section, whose names may refer to built-in names only; without one it is empty. */
  lemma ThemeColors(cfg: Config, doc: Document)
    requires Parse(cfg, doc).Success?
    ensures ColorEntries(doc).None? ==> Parse(cfg, doc).value.Colors() == Empty
    ensures ColorEntries(doc).Some? ==>
              var e := ResolveEntries(AliasScope(cfg.builtins, Empty), ColorEntries(doc).value);
              e.Success? && Parse(cfg, doc).value.Colors() == FromIter(e.value)
  {
    SectionsColor(cfg, FreshState(cfg), doc);
  }

  /** A table written twice fails the parse. */
  lemma DuplicateRejected(cfg: Config, s: Section)
    requires !s.Unknown? && Step(cfg, FreshState(cfg), s).Success?
    ensures Parse(cfg, [s, s]) == Failure(DuplicateMessage(Key(s)))
  {
    var st := Step(cfg, FreshState(cfg), s).value;
    assert [s, s][1..] == [s];
    assert Key(s) in st.seen;
    assert Sections(cfg, st, [s]) == Failure(DuplicateMessage(Key(s)));
  }

  /** An unknown name in the `color` table fails the whole document. */
  lemma UnknownAliasInColorTable(cfg: Config, name: string)
    requires name == AsciiLower(name) && name !in cfg.builtins
    ensures Parse(cfg, [ColorSection([("c", Alias(name))])]) == Failure(UnknownAliasMessage(name))
  {
    var doc := [ColorSection([("c", Alias(name))])];
    assert doc[1..] == [];
    var entries := [("c", Alias(name))];
    assert entries[1..] == [];
    assert ResolveColorAlias(AliasScope(cfg.builtins, Empty), name) == Failure(UnknownAliasMessage(name));
  }

  /** A radio override whose background names the document colour `accent`. */
  function AccentRadio(): Radio.Input<ColorLiteral> {
    Radio.Input(Radio.Inner(Some(Alias("accent")), None, None, None, None), Radio.NoOverride())
  }

  /** A document alias is visible only to tables read after the `color` table:
      a radio sheet naming it after the `color` table gets its style, while the
      same sheet read before it silently loses its style (the flattened,
      optional style swallows the resolution error). */
  lemma AliasVisibleOnlyAfterColorTable(cfg: Config, c: Color)
    requires "accent" !in cfg.builtins
    ensures var colorTable := ColorSection([("accent", Rgba(c.r, c.g, c.b, c.a))]);
            var radios := RadioSection([(DefaultKey, Sheet(NoLayout, Some(AccentRadio())))]);
      && Parse(cfg, [colorTable, radios]).Success?
      && Parse(cfg, [colorTable, radios]).value.inner.radio[DefaultKey].style.Some?
      && Parse(cfg, [colorTable, radios]).value.inner.radio[DefaultKey].style.value.active.background == BgColor(c)
      && Parse(cfg, [radios, colorTable]).Success?
      && Parse(cfg, [radios, colorTable]).value.inner.radio[DefaultKey].style.None?
  {
    var colorTable := ColorSection([("accent", Rgba(c.r, c.g, c.b, c.a))]);
    var radios := RadioSection([(DefaultKey, Sheet(NoLayout, Some(AccentRadio())))]);
    var start := FreshState(cfg);
    assert AsciiLower("accent") == "accent";
    // The colour table resolves to a map holding `accent`.
    var entries := [("accent", Rgba(c.r, c.g, c.b, c.a))];
    assert entries[1..] == [];
    assert ToColor(start.scope, entries[0].1) == Success(c);
    assert ResolveEntries(start.scope, entries[1..]) == Success([]);
    assert [(entries[0].0, c)] + [] == [("accent", c)];
    assert ResolveEntries(start.scope, entries) == Success([("accent", c)]);
    var table := FromIter([("accent", c)]);
    assert [("accent", c)][..0] == [];
    assert table.Get("accent") == Some(c);
    var afterColor := Step(cfg, start, colorTable);
    assert afterColor.Success? && afterColor.value.scope == AliasScope(cfg.builtins, table);
    // A radio sheet read against each scope.
    var sheets := [(DefaultKey, Sheet(NoLayout, Some(AccentRadio())))];
    assert sheets[..0] == [];
    var withTable := AliasScope(cfg.builtins, table);
    assert ResolveColorAlias(withTable, "accent") == Success(c);
    assert Radio.ResolveInput(withTable, AccentRadio()).Success?;
    assert Radio.FromInput(withTable, AccentRadio()).Some?;
    assert Radio.FromInput(withTable, AccentRadio()).value.active.background == BgColor(c);
    assert ResolveColorAlias(start.scope, "accent").Failure?;
    assert Radio.FromInput(start.scope, AccentRadio()).None?;
    // Table order.
    var colorFirst := [colorTable, radios];
    assert colorFirst[1..] == [radios] && [radios][1..] == [];
    var afterRadios := Step(cfg, afterColor.value, radios);
    assert afterRadios.Success?;
    assert afterRadios.value.inner.radio[DefaultKey].style == Radio.FromInput(withTable, AccentRadio());
    assert Sections(cfg, afterColor.value, [radios]) == Sections(cfg, afterRadios.value, []);
    assert Sections(cfg, start, colorFirst) == afterRadios;
    var radiosFirst := [radios, colorTable];
    assert radiosFirst[1..] == [colorTable] && [colorTable][1..] == [];
    var early := Step(cfg, start, radios);
    assert early.Success? && early.value.inner.radio[DefaultKey].style.None?;
    assert early.value.scope == start.scope;
    var late := Step(cfg, early.value, colorTable);
    assert late.Success? && late.value.inner.radio == early.value.inner.radio;
    assert Sections(cfg, early.value, [colorTable]) == Sections(cfg, late.value, []);
    assert Sections(cfg, start, radiosFirst) == late;
  }

  /** A variant that no later variant of its table shadows. */
  predicate Unshadowed<I>(e: StyleMaps.Section<I>, i: nat) {
    i < |e| && forall j :: i < j < |e| ==> e[j].0 != e[i].0
  }

  /** Errors inside a button sheet stay local: a `button` table never fails the
      document, it changes only the button map, and each variant's style is
      missing exactly when its style fields do not decode to the expected
      shape (`style.None?` in the decoded section) or one of its colours does
      not resolve against the scope in force; otherwise it is that sheet's
      cascade. */
  lemma ButtonErrorsStayLocal(cfg: Config, st: ParseState, e: StyleMaps.Section<Button.Input<ColorLiteral>>)
    requires "button" !in st.seen
    ensures Step(cfg, st, ButtonSection(e)).Success?
    ensures var st' := Step(cfg, st, ButtonSection(e)).value;
            st'.scope == st.scope && st'.inner == st.inner.(button := st'.inner.button)
    ensures forall i: nat :: Unshadowed(e, i) ==>
              var sheet := Step(cfg, st, ButtonSection(e)).value.inner.button[e[i].0];
              && (sheet.style.None? <==>
                    e[i].1.style.None? || Button.ResolveInput(st.scope, e[i].1.style.value).Failure?)
              && (sheet.style.Some? ==>
                    sheet.style.value == Button.Cascade(cfg.buttonDefault, Button.ResolveInput(st.scope, e[i].1.style.value).value))
  {
    var convert := i => Button.FromInput(st.scope, cfg.buttonDefault, i);
    var m := Step(cfg, st, ButtonSection(e)).value.inner.button;
    assert m == Collect(e, convert);
    forall i: nat | Unshadowed(e, i)
      ensures m[e[i].0] == ConvertSheet(e[i].1, convert)
    {
      CollectLastWins(e, convert, i);
    }
  }

  /** A button variant with layout fields only still gets a style: every
      override field is optional, so the empty input decodes, and its style is
      the baseline cascade. */
  lemma EmptyButtonVariantGetsBaseline(cfg: Config, st: ParseState, name: string, layout: Layout)
    requires "button" !in st.seen
    ensures var empty := Button.Input(Button.NoOverride(), Button.NoOverride(), Button.NoOverride(), Button.NoOverride());
            var st' := Step(cfg, st, ButtonSection([(name, Sheet(layout, Some(empty)))]));
            && st'.Success?
            && st'.value.inner.button[name].style ==
               Some(Button.Cascade(cfg.buttonDefault, Button.Input(Button.NoOverride(), Button.NoOverride(), Button.NoOverride(), Button.NoOverride())))
  {
    var empty := Button.Input(Button.NoOverride(), Button.NoOverride(), Button.NoOverride(), Button.NoOverride());
    var e := [(name, Sheet(layout, Some(empty)))];
    ButtonErrorsStayLocal(cfg, st, e);
    assert Unshadowed(e, 0);
    assert Button.ResolveInput(st.scope, empty)
        == Success(Button.Input(Button.NoOverride(), Button.NoOverride(), Button.NoOverride(), Button.NoOverride()));
  }

  /** The text sheet's colour is not flattened: one variant whose colour does
      not resolve makes its table fail. */
  lemma {:induction false} UnresolvedTextColourFails(scope: AliasScope, e: StyleMaps.Section<ColorLiteral>, i: nat)
    requires i < |e| && e[i].1.style.Some? && ToColor(scope, e[i].1.style.value).Failure?
    ensures CollectText(scope, e).Failure?
  {
    var init := e[..|e| - 1];
    if i < |e| - 1 {
      assert init[i] == e[i];
      UnresolvedTextColourFails(scope, init, i);
    }
  }

  /** Unlike a widget sheet, a `text` table with an unresolvable colour fails
      the whole document. */
  lemma TextErrorFailsDocument(cfg: Config, st: ParseState, e: StyleMaps.Section<ColorLiteral>, i: nat)
    requires "text" !in st.seen
    requires i < |e| && e[i].1.style.Some? && ToColor(st.scope, e[i].1.style.value).Failure?
    ensures Step(cfg, st, TextSection(e)).Failure?
  {
    UnresolvedTextColourFails(st.scope, e, i);
  }

  /** `from_file` fails with an I/O error exactly when the path cannot be read,
      and otherwise behaves as `from_str` on the file's contents. */
  lemma FromFileErrors(cfg: Config, files: map<Path, Text>, p: Path)
    ensures FromFile(cfg, files, p) == Failure(Io) <==> p !in files
    ensures p in files ==> FromFile(cfg, files, p) == FromStr(cfg, files[p])
    ensures p in files && files[p].Malformed? ==> FromFile(cfg, files, p) == Failure(Toml(files[p].message))
  {
  }

  /** `from_str` fails only with TOML errors, and succeeds exactly when the
      document decodes and parses. */
  lemma FromStrMeaning(cfg: Config, text: Text)
    ensures FromStr(cfg, text).Failure? ==> FromStr(cfg, text).error.Toml?
    ensures FromStr(cfg, text).Success? <==> text.Decoded? && Parse(cfg, text.doc).Success?
    ensures FromStr(cfg, text).Success? ==> FromStr(cfg, text).value == Parse(cfg, text.doc).value
  {
  }
}
