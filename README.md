# iced_style_config, modelled in Dafny

`iced_style_config` reads a TOML theme document into per-widget style sheets
for the iced GUI toolkit, and can keep a theme tied to a file that it reloads
when the file changes. This project models its core:

- **Colours** (`color_map.dfy`, `color_de.dfy`, `hex.dfy`, `iced.dfy`).
  - `ColorMap` is the case-insensitive name-to-colour table.
  - Colour literals are converted to toolkit colours.
  - Colour names are resolved against the built-in table, then against the
    document's own `color` table.
  - `parse_hex` reads the `0x`-prefixed bytes of the 8-bit shapes. It follows
    the standard library's `u8::from_str_radix`.
- **Style maps** (`style_map.dfy`). These are the `BTreeMap`s generated by
  `widget_style_sheet_map!`, with `init`, `Deref` and `Index`.
- **Widget cascades** (`button.dfy` … `menu.dfy`). Each widget has:
  - a sparse `overwrite`;
  - its state cascade (baseline, primary override, derived states with fixed
    tweaks, their own overrides).
- **Theme assembly** (`theme.dfy`). A fresh alias scope, one pass over the
  document's top-level tables, then `init` of every widget map. Also
  `from_str` and `from_file`.
- **Reloadable theme** (`reloadable.dfy`). A class whose state is `Static` or
  file-backed, with `set_path` and `reload`. Also the event filter of its
  reload stream.

Modelling choices:

- Colour channels and lengths are reals.
- The TOML decoder's output is a tagged datatype. A decoded document is the
  sequence of its top-level tables, in the order the decoder presents them.
- The thread-local alias table is an explicit `AliasScope` value. It is
  threaded through the pass.
- Some values are parameters (`Themes.Config`):
  - the compiled-in colour table;
  - the toolkit's default button, container and menu styles.
- The file system and the file watcher are parameters (`Reloadable.Env`):
  - the readable files, as a map from path to decoded text;
  - whether a watcher can be created;
  - which paths it can register.
- `overwrite(&self, &mut T)` works on an owned record. It is modelled as a
  method that takes the record and returns the updated one. Its contract ties
  the result to an `Overlay` function.
- Each style `deserialize` is a method proved equal to a `Cascade` function.
  The properties are lemmas about these functions.

Behaviour of the code worth knowing:

- Built-in colour names shadow document aliases of the same name
  (`src/color.rs:185-190`).
- The unknown-name error reads "cannot found color alias `k`".
- Document aliases are visible only to tables decoded *after* the `color`
  table, and never to entries of the `color` table itself. The scope is set
  only once the whole table has been read. See
  `Themes.AliasVisibleOnlyAfterColorTable` and
  `ColorDe.NoForwardReferenceWithinTable`.
- The `"default"` sheet that `init` adds is the derived `StyleSheet::default()`.
  It has no style at all, not the baseline cascade.
- Each widget sheet's style is a flattened `Option<Style>`. An error inside it
  does not fail the document; the sheet silently gets no style. Such errors
  include an unknown colour name and an 8-bit channel that is not a valid
  `0x` byte. The text sheet's `color` is an ordinary field, so there an
  unknown name fails the document. See `Themes.ButtonErrorsStayLocal` and
  `Themes.TextErrorFailsDocument`.

## Model

| member | source | states |
|---|---|---|
| ColorMaps.ColorMap.Insert | src/color.rs:47-51 | the result stays lower-case-keyed; `get` with any casing of `k` returns `v`; every other key reads as before; the keys grow by exactly `lowercase(k)` |
| ColorMaps.ColorMap.GetOfValid | src/color.rs:53-64 | on a lower-case-keyed map, `get` (exact key first, then the lower-cased key) is the lookup of the lower-cased key |
| ColorMaps.ContainsKeyAnyCase | src/color.rs:66-71 | `contains_key(k)` holds exactly when `lowercase(k)` is stored |
| ColorMaps.AsciiLowerFacts | src/color.rs:49 | ASCII lower-casing yields a lower-case string, fixes lower-case strings and is idempotent |
| ColorMaps.FromIterKeys | src/color.rs:86-97 | a collected map has only lower-case keys, and its keys are exactly the lower-cased input keys |
| ColorMaps.FromIterLastWins | src/color.rs:86-97 | a pair that no later pair shadows (after lower-casing) is what `get` returns for any casing of its key |
| ColorMaps.ColorMap.Get | src/color.rs:53-64 | definition of `get`: the entry under the key as given, else under its lower-cased form; on a lower-case-keyed map it is stated by `GetOfValid` and `Insert` |
| ColorMaps.ColorMap.ContainsKey | src/color.rs:66-71 | definition: `get` finds an entry; `ContainsKeyAnyCase` states it as membership of the lower-cased key |
| ColorMaps.ColorMap.Index | src/color.rs:74-84 | definition: the entry `get` finds, callable only when `contains_key` holds, as indexing a missing key panics |
| ColorMaps.FromIter | src/color.rs:86-97 | definition: the pairs inserted in order under lower-cased keys; its keys are stated by `FromIterKeys`, its lookups by `FromIterLastWins` |
| ColorDe.ResolveColorAliasMeaning | src/color.rs:183-192 | the key is lower-cased; a built-in entry wins; otherwise the document entry; otherwise an error naming the lower-cased key |
| ColorDe.ResolveCaseInsensitive | src/color.rs:184 | two names that lower-case alike resolve alike |
| ColorDe.NumericLiteralsSucceed | src/color.rs:163-168 | the tuple and struct `rgb`/`rgba` shapes always convert, to exactly their channels, with alpha 1 when absent |
| ColorDe.AliasWithAlphaMeaning | src/color.rs:169-172 | `{ rgb, a }` fails exactly when the name fails, with its error; otherwise it is the named colour with alpha replaced by `a` |
| ColorDe.Rgb8Meaning | src/color.rs:125-175 | an 8-bit literal converts exactly when every channel is an accepted `0x` byte, each channel then being its byte over 255 |
| ColorDe.Rgba8Meaning | src/color.rs:176-177 | an 8-bit literal with alpha converts exactly when every channel is an accepted `0x` byte, each channel then being its byte over 255 and the alpha the written one |
| ColorDe.UnprefixedChannelRejected | src/color.rs:125-153 | an 8-bit literal with a channel lacking the `0x` prefix matches no shape |
| ColorDe.ResolveEntriesMeaning | src/color.rs:199 | the entries of a `color` table convert exactly when each one does, keeping names and order |
| ColorDe.DeserializeAliasesInstalls | src/color.rs:199-202 | a present table replaces the scope's document table with the returned table, whose keys are the lower-cased entry names; built-ins untouched |
| ColorDe.DeserializeAliasesAbsent | src/color.rs:203-205 | an absent table yields the empty table and leaves the scope untouched |
| ColorDe.NoForwardReferenceWithinTable | src/color.rs:199-201 | an entry cannot name an entry of its own table: `a = <c>, b = "a"` fails when `a` is not built in |
| ColorDe.ResolveColorAlias | src/color.rs:183-192 | definition of `resolve_color_alias`; stated by `ResolveColorAliasMeaning` and `ResolveCaseInsensitive` |
| ColorDe.ToColor | src/color.rs:156-181 | definition of the colour conversion, one case per shape; stated by `NumericLiteralsSucceed`, `AliasWithAlphaMeaning`, `Rgb8Meaning` and `UnprefixedChannelRejected` |
| ColorDe.DeserializeAliases | src/color.rs:194-207 | definition of the `color` table's conversion; stated by `DeserializeAliasesInstalls` and `DeserializeAliasesAbsent` |
| Hex.ParseHexMeaning | src/lib.rs:141-150 | `parse_hex` succeeds exactly on `0x`, an optional `+`, then 1 or more hex digits of value at most 255; the value is the positional value of the digits |
| Hex.AccumulateMeaning | src/lib.rs:146 | the digit loop of `from_str_radix` succeeds exactly when all characters are digits and no prefix of them exceeds 255, with the positional value as result |
| Hex.MissingPrefixRejected | src/lib.rs:145-149 | any input without the exact prefix `0x` fails with `invalid hex: <s>` |
| Hex.UpperCasePrefixRejected | src/lib.rs:145 | the upper-case prefix `0X` is rejected |
| Hex.NoDigitsRejected | src/lib.rs:146 | `0x` with no digits is the empty-string error |
| Hex.ThreeDigitOverflow | src/lib.rs:146 | `0x100` is the overflow error |
| Hex.ByteRoundTrip | src/lib.rs:145-146 | every byte written as `0x` and two digits, in either case, parses back to itself |
| Hex.ParseHex | src/lib.rs:141-150 | definition of `parse_hex`; stated by `ParseHexMeaning`, `MissingPrefixRejected`, `UpperCasePrefixRejected` and `ByteRoundTrip` |
| Hex.FromStrRadix16 | src/lib.rs:146 | definition of `u8::from_str_radix(_, 16)`: empty input, a lone sign, one skipped `+`; stated through `ParseHexMeaning`, `NoDigitsRejected` and `ThreeDigitOverflow` |
| Hex.Accumulate | src/lib.rs:146 | definition of the digit loop, invalid digit before overflow; stated by `AccumulateMeaning` |
| StyleMaps.Init | src/widget/mod.rs:9-13 | the conditional insert leaves exactly the map `WithDefault` describes |
| StyleMaps.WithDefault | src/widget/mod.rs:9-13 | after `init` the map has `"default"`; keys are the old keys plus `"default"`; old entries are kept; a missing default becomes the default sheet |
| StyleMaps.InitKeepsInitialised | src/widget/mod.rs:10 | a map that already has `"default"` is unchanged |
| StyleMaps.InitAddsOnlyDefault | src/widget/mod.rs:11 | no key but `"default"` is added and no other entry changes |
| StyleMaps.InitIdempotent | src/widget/mod.rs:9-13 | `init` twice is `init` once |
| StyleMaps.DefaultLookupAfterInit | src/widget/mod.rs:16-21 | on an initialised map the default lookup is the stored default or the default sheet |
| StyleMaps.DefaultLookup | src/widget/mod.rs:16-21 | definition of `Deref`: the sheet under `"default"`, callable only on a map that has it, as indexing a missing key panics; stated by `DefaultLookupAfterInit` |
| StyleMaps.Lookup | src/widget/mod.rs:24-33 | definition of `Index`: the sheet under a name that must be present, as indexing a missing key panics |
| StyleMaps.Collect | src/widget/mod.rs:5-6 | the keys of a widget map are exactly the variant names of its table |
| StyleMaps.CollectLastWins | src/widget/mod.rs:5-6 | the sheet kept under a name is the converted sheet written last under it |
| Button.Overwrite | src/widget/button.rs:100-119 | the conditional field assignments compute `Overlay` |
| Button.OverlayLaws | src/widget/button.rs:100-119 | an empty override changes nothing, an override is idempotent, and two overrides compose to their field-wise merge |
| Button.OverlayPresentFields | src/widget/button.rs:100-119 | each present field is the override's value whatever the target, the background stored as `Some` |
| Button.Deserialize | src/widget/button.rs:122-163 | the `let mut` cascade computes `Cascade` |
| Button.DerivedStatesWithoutOverrides | src/widget/button.rs:129-160 | hovered is active with shadow + (0,1); pressed is active with zero shadow; disabled has zero shadow, halved background alpha (None stays None), halved text alpha, other fields from active |
| Button.OverridesIsolated | src/widget/button.rs:132-160 | the hovered, pressed and disabled overrides each change only their own state |
| Button.Overlay | src/widget/button.rs:100-119 | definition of the sparse override, a present field replacing the target's; stated by `Overwrite`, `OverlayLaws` and `OverlayPresentFields` |
| Button.Cascade | src/widget/button.rs:122-163 | definition of the state cascade; stated by `Deserialize`, `DerivedStatesWithoutOverrides` and `OverridesIsolated` |
| Button.FromInput | src/widget/button.rs:7-16 | definition of the sheet's style: the colours resolved, then the style built, any error giving no style; stated in the document by `Themes.ButtonErrorsStayLocal` |
| Checkbox.Overwrite | src/widget/checkbox.rs:116-135 | the conditional field assignments compute `Overlay` |
| Checkbox.Deserialize | src/widget/checkbox.rs:138-176 | the four `let mut` appearances compute `Cascade` |
| Checkbox.OverlayLaws | src/widget/checkbox.rs:116-135 | identity, idempotence and composition by merge |
| Checkbox.BaselineAndTextColour | src/widget/checkbox.rs:132-155 | the baseline is bg 0.95, checkmark 0.3, radius 5, width 1, border 0.6, no text colour; a present text colour is stored as `Some` |
| Checkbox.HoveredCheckedMeaning | src/widget/checkbox.rs:165-173 | hovered-checked is active-checked on 0.90 with the merged hovered overrides, `checked` winning |
| Checkbox.SelectionMeaning | src/widget/checkbox.rs:66-80 | `active(c)`/`hovered(c)` return the checked appearance iff `c`, each stated as the baseline under its merged overrides |
| Checkbox.NoOverrides | src/widget/checkbox.rs:145-173 | with no overrides, checked equals unchecked and hovering changes only the background |
| Checkbox.OverridesIsolated | src/widget/checkbox.rs:156-173 | hovered overrides never reach resting states; checked overrides never reach unchecked states |
| Checkbox.Overlay | src/widget/checkbox.rs:116-135 | definition of the sparse override, a present field replacing the target's; stated by `Overwrite` and `OverlayLaws` |
| Checkbox.Cascade | src/widget/checkbox.rs:138-176 | definition of the state cascade; stated by `Deserialize`, `HoveredCheckedMeaning`, `NoOverrides` and `OverridesIsolated` |
| Checkbox.FromInput | src/widget/checkbox.rs:7-17 | definition of the sheet's style: the colours resolved, then the style built, any error giving no style; the flattened `Option<Style>` |
| Checkbox.Active | src/widget/checkbox.rs:66-72 | definition of `active(is_checked)`; stated by `SelectionMeaning` |
| Checkbox.Hovered | src/widget/checkbox.rs:74-80 | definition of `hovered(is_checked)`; stated by `SelectionMeaning` |
| Scrollable.Overwrite | src/widget/scrollable.rs:115-142 | the conditional assignments, nested scroller included, compute `Overlay` |
| Scrollable.Deserialize | src/widget/scrollable.rs:154-185 | the `let mut` cascade computes `Cascade` |
| Scrollable.OverlayLaws | src/widget/scrollable.rs:115-142 | identity and idempotence of the override |
| Scrollable.ScrollerIndependence | src/widget/scrollable.rs:128-141 | scroller fields change only with a `scroller` part, each field independently and to the given value |
| Scrollable.BaselineValues | src/widget/scrollable.rs:161-172 | no background, radius 5, width 0, transparent border, scroller (0,0,0,0.7) |
| Scrollable.HoveredWithoutOverride | src/widget/scrollable.rs:175-179 | without its override hovered is active on background (0,0,0,0.3) |
| Scrollable.DraggingFollowsHovered | src/widget/scrollable.rs:181-182 | without its override dragging equals hovered, and hovered overrides flow into dragging |
| Scrollable.Overlay | src/widget/scrollable.rs:115-142 | definition of the sparse override, a present field replacing the target's; stated by `Overwrite`, `OverlayLaws` and `ScrollerIndependence` |
| Scrollable.Cascade | src/widget/scrollable.rs:154-185 | definition of the state cascade; stated by `Deserialize`, `HoveredWithoutOverride` and `DraggingFollowsHovered` |
| Scrollable.FromInput | src/widget/scrollable.rs:7-23 | definition of the sheet's style: the colours resolved, then the style built, any error giving no style; the flattened `Option<Style>` |
| Slider.ShapeRoundTrip | src/widget/slider.rs:133-142 | the handle-shape conversion keeps variant and payload and has an inverse |
| Slider.Overwrite | src/widget/slider.rs:95-113 | the conditional assignments, nested handle included, compute `Overlay` |
| Slider.Deserialize | src/widget/slider.rs:144-181 | the `let mut` cascade computes `Cascade` |
| Slider.OverlayLaws | src/widget/slider.rs:95-113 | identity and idempotence of the override |
| Slider.OverlayParts | src/widget/slider.rs:96-112 | the rail pair is replaced whole; handle fields change only with a `handle` part, each independently |
| Slider.DerivedStatesWithoutOverrides | src/widget/slider.rs:162-178 | without overrides hovered and dragging are active with handle colour 0.90 and 0.85 |
| Slider.DraggingIgnoresHovered | src/widget/slider.rs:171-178 | a hovered override reaches neither dragging nor active |
| Slider.BaselineValues | src/widget/slider.rs:151-160 | rails (0.6,0.6,0.6,0.5) and white; handle rectangle 8 by radius 4, colour 0.95, border 0.6, width 1 |
| Slider.ToShape | src/widget/slider.rs:133-142 | definition of the handle-shape conversion; stated by `ShapeRoundTrip` |
| Slider.FromShape | src/widget/slider.rs:133-142 | inverse of the handle-shape conversion; stated by `ShapeRoundTrip` |
| Slider.Overlay | src/widget/slider.rs:95-113 | definition of the sparse override, a present field replacing the target's; stated by `Overwrite`, `OverlayLaws` and `OverlayParts` |
| Slider.Cascade | src/widget/slider.rs:144-181 | definition of the state cascade; stated by `Deserialize`, `DerivedStatesWithoutOverrides` and `DraggingIgnoresHovered` |
| Slider.FromInput | src/widget/slider.rs:7-15 | definition of the sheet's style: the colours resolved, then the style built, any error giving no style; the flattened `Option<Style>` |
| TextInput.Overwrite | src/widget/text_input.rs:117-130 | the four conditional assignments compute `Overlay` |
| TextInput.Deserialize | src/widget/text_input.rs:133-167 | the `let mut` cascade and the three colours compute `Cascade` |
| TextInput.OverlayLaws | src/widget/text_input.rs:117-130 | identity and idempotence of the override |
| TextInput.FocusedWithoutOverride | src/widget/text_input.rs:148-152 | without its override focused is active with border 0.5 |
| TextInput.HoveredFollowsFocused | src/widget/text_input.rs:154-155 | hovered starts from the overridden focused |
| TextInput.TextColours | src/widget/text_input.rs:140-164 | placeholder, value and selection colours are the given ones or 0.7, 0.3 and (0.8,0.8,1.0); baseline white, radius 5, width 1, border 0.7 |
| TextInput.TextColoursIndependent | src/widget/text_input.rs:157-164 | the appearance overrides do not affect the three text colours |
| TextInput.Overlay | src/widget/text_input.rs:117-130 | definition of the sparse override, a present field replacing the target's; stated by `Overwrite` and `OverlayLaws` |
| TextInput.Cascade | src/widget/text_input.rs:133-167 | definition of the state cascade; stated by `Deserialize`, `FocusedWithoutOverride`, `HoveredFollowsFocused`, `TextColours` and `TextColoursIndependent` |
| TextInput.FromInput | src/widget/text_input.rs:7-16 | definition of the sheet's style: the colours resolved, then the style built, any error giving no style; the flattened `Option<Style>` |
| PickList.Overwrite | src/widget/pick_list.rs:98-120 | the seven conditional assignments compute `Overlay` |
| PickList.Deserialize | src/widget/pick_list.rs:123-148 | menu, active and hovered compute `Cascade` |
| PickList.OverlayLaws | src/widget/pick_list.rs:98-120 | identity and idempotence of the override |
| PickList.BaselineValues | src/widget/pick_list.rs:132-140 | text black, placeholder 0.4, bg 0.87, radius 0, width 1, border 0.7, icon size 0.7 |
| PickList.HoveredWithoutOverride | src/widget/pick_list.rs:143-145 | without its override hovered is active with a black border |
| PickList.MenuIndependent | src/widget/pick_list.rs:130 | the menu style and the active/hovered styles do not affect each other |
| PickList.Overlay | src/widget/pick_list.rs:98-120 | definition of the sparse override, a present field replacing the target's; stated by `Overwrite` and `OverlayLaws` |
| PickList.Cascade | src/widget/pick_list.rs:123-148 | definition of the state cascade; stated by `Deserialize`, `HoveredWithoutOverride` and `MenuIndependent` |
| PickList.FromInput | src/widget/pick_list.rs:7-16 | definition of the sheet's style: the colours resolved, then the style built, any error giving no style; the flattened `Option<Style>` |
| Radio.Overwrite | src/widget/radio.rs:98-114 | the conditional assignments compute `Overlay` |
| Radio.Deserialize | src/widget/radio.rs:117-144 | the `let mut` cascade computes `Cascade` |
| Radio.OverlayLaws | src/widget/radio.rs:98-114 | identity and idempotence of the override |
| Radio.BaselineAndTextColour | src/widget/radio.rs:111-133 | baseline bg 0.95, dot 0.3, width 1, border 0.6, no text colour; a present text colour is stored as `Some` |
| Radio.HoveredWithoutOverride | src/widget/radio.rs:135-140 | without its override hovered differs from active only in its 0.90 background |
| Radio.HoveredOverrideIsolated | src/widget/radio.rs:135-141 | the hovered override never reaches active |
| Radio.Overlay | src/widget/radio.rs:98-114 | definition of the sparse override, a present field replacing the target's; stated by `Overwrite` and `OverlayLaws` |
| Radio.Cascade | src/widget/radio.rs:117-144 | definition of the state cascade; stated by `Deserialize`, `HoveredWithoutOverride` and `HoveredOverrideIsolated` |
| Radio.FromInput | src/widget/radio.rs:7-17 | definition of the sheet's style: the colours resolved, then the style built, any error giving no style; the flattened `Option<Style>` |
| Container.Deserialize | src/widget/container.rs:79-104 | the result is the default container style under the override |
| Container.EmptyInputIsDefault | src/widget/container.rs:85-103 | an empty input yields exactly the default style |
| Container.OverlayFields | src/widget/container.rs:87-101 | each of the five fields is replaced iff present, text colour and background as `Some` |
| Container.OverlayIdempotent | src/widget/container.rs:87-101 | an override is idempotent |
| Container.Overlay | src/widget/container.rs:87-101 | definition of the sparse override, a present field replacing the target's; stated by `Deserialize`, `OverlayFields` and `OverlayIdempotent` |
| Container.FromInput | src/widget/container.rs:7-20 | definition of the sheet's style: the colours resolved, then the style built, any error giving no style; the flattened `Option<Style>` |
| ProgressBar.Deserialize | src/widget/progress_bar.rs:65-90 | the result is the fixed baseline under the override |
| ProgressBar.EmptyInputIsBaseline | src/widget/progress_bar.rs:71-89 | baseline bg 0.6 grey, bar (0.3,0.9,0.3), radius 5; an empty input yields it exactly |
| ProgressBar.OverlayFields | src/widget/progress_bar.rs:79-87 | each of the three fields is replaced iff present, else keeps its baseline value |
| ProgressBar.Overlay | src/widget/progress_bar.rs:79-87 | definition of the sparse override, a present field replacing the target's; stated by `Deserialize` and `OverlayFields` |
| ProgressBar.FromInput | src/widget/progress_bar.rs:7-15 | definition of the sheet's style: the colours resolved, then the style built, any error giving no style; the flattened `Option<Style>` |
| Menu.Deserialize | src/widget/menu.rs:24-52 | the result wraps the default menu style under the override |
| Menu.EmptyInputIsDefault | src/widget/menu.rs:4-51 | an empty input yields exactly the default; the toolkit conversion returns the wrapped value |
| Menu.OverlayFields | src/widget/menu.rs:32-49 | each of the six fields is replaced iff present |
| Menu.OverlayIdempotent | src/widget/menu.rs:32-49 | an override is idempotent |
| Menu.ToToolkit | src/widget/menu.rs:4-8 | definition of the conversion to the toolkit's menu style; stated by `EmptyInputIsDefault` |
| Menu.Overlay | src/widget/menu.rs:32-49 | definition of the sparse override, a present field replacing the target's; stated by `Deserialize`, `OverlayFields` and `OverlayIdempotent` |
| Themes.Deserialize | src/theme.rs:7-31 | a fresh scope, the pass, then `init` on the thirteen maps, computes `Parse`; an error is returned before any `init` |
| Themes.ParsedThemeInitialised | src/theme.rs:13-28 | every widget map of a parsed theme has `"default"` |
| Themes.DefaultThemeNotInitialised | src/theme.rs:4-34 | the derived default theme has empty maps, so no `"default"`, and an empty colour table |
| Themes.FailureBeforeInit | src/theme.rs:13 | a failing pass yields that error and no theme |
| Themes.StepKeepsScopeInvariant | src/theme.rs:12-13 | each table keeps the scope's document table equal to the decoded colour table, and empty until the `color` table is read |
| Themes.SectionsColor | src/theme.rs:12-13 | after the pass the colour table is the first `color` table converted against the built-ins only, or empty |
| Themes.ThemeColors | src/theme.rs:12-128 | `color()` is exactly the table built from the document's `color` table against a fresh scope, or empty without one |
| Themes.DuplicateRejected | src/theme.rs:34-85 | a table written twice fails with `duplicate field` |
| Themes.UnknownAliasInColorTable | src/color.rs:162-199 | an unknown name in the `color` table fails the whole document |
| Themes.AliasVisibleOnlyAfterColorTable | src/theme.rs:12-13 | a radio sheet naming a document colour gets it when decoded after the `color` table, and silently loses its style when decoded before |
| Themes.ButtonErrorsStayLocal | src/widget/button.rs:7-16 | a `button` table never fails the document and changes only the button map; a variant not shadowed later has no style exactly when its style fields do not decode to the expected shape or a colour does not resolve against the scope in force, and otherwise has the cascade |
| Themes.EmptyButtonVariantGetsBaseline | src/widget/button.rs:14-15 | a button variant with layout fields only still gets a style, the baseline cascade of the empty input |
| Themes.UnresolvedTextColourFails | src/widget/text.rs:7-15 | the text sheets' `color` is an ordinary field: any variant whose colour does not resolve fails the conversion of its table |
| Themes.TextErrorFailsDocument | src/widget/text.rs:7-15 | unlike a widget table, a `text` table with an unresolvable colour fails the document |
| Themes.FromFileErrors | src/theme.rs:120-123 | `from_file` is an I/O error iff the path cannot be read, a TOML error on a malformed file, else `from_str` |
| Themes.FromStrMeaning | src/theme.rs:101-103 | `from_str` fails only with TOML errors and succeeds iff the text decodes and parses |
| Themes.Parse | src/theme.rs:7-31 | definition of `Theme::deserialize`; computed by `Deserialize`, stated by `ParsedThemeInitialised`, `FailureBeforeInit` and `ThemeColors` |
| Themes.Sections | src/theme.rs:34-85 | definition of the pass over the top-level tables in document order; stated by `SectionsColor` and `StepKeepsScopeInvariant` |
| Themes.Step | src/theme.rs:34-85 | definition of one table's conversion, a repeated table failing; stated by `StepKeepsScopeInvariant`, `DuplicateRejected` and `AliasVisibleOnlyAfterColorTable` |
| Themes.FromStr | src/theme.rs:101-103 | definition of `from_str`; stated by `FromStrMeaning` |
| Themes.FromFile | src/theme.rs:120-123 | definition of `from_file`; stated by `FromFileErrors` |
| Themes.Theme.Colors | src/theme.rs:126-128 | definition of `color()`; stated by `ThemeColors` |
| Reloadable.FromStr | src/reloadable.rs:39-41 | definition: the parsed theme in the `Static` state, or the parse error; its meaning is `FromStrHasNoPath` and `NewFromStr` |
| Reloadable.FromStrHasNoPath | src/reloadable.rs:39-74 | a theme from text is `Static`, so it has no path |
| Reloadable.OpenMeaning | src/reloadable.rs:51-65 | `from_file` parses first, then needs a watcher and the registration; it succeeds iff all three do, watching exactly its path |
| Reloadable.Open | src/reloadable.rs:51-66 | definition of `from_file`'s state: parse, create the watcher, register the path; stated by `OpenMeaning` |
| Reloadable.ReloadableTheme.CurrentPath | src/reloadable.rs:68-74 | definition of `path()`: the path of a file-backed state, none for `Static`; what it is after each operation is stated by `NewFromStr`, `NewFromFile`, `SetPath` and `Reload` |
| Reloadable.ReloadableTheme.Deref | src/reloadable.rs:137-147 | definition of `Deref`: the theme held in either state; what it is after each operation is stated by `NewFromStr`, `NewFromFile`, `SetPath` and `Reload` |
| Reloadable.ReloadableTheme.SetPath | src/reloadable.rs:84-103 | the new state and result are those of `SetPathStep`; the watcher keeps watching exactly the current path; on success `path()` is the new path and the theme is its parse, or is unchanged when the path was already current; on failure `path()` and the theme are unchanged |
| Reloadable.ReloadableTheme.Reload | src/reloadable.rs:114-122 | the new state and result are those of `ReloadStep`; `path()` never changes; a `Static` theme succeeds unchanged; a file-backed one succeeds iff its path re-parses, the theme then being the new parse and otherwise the old one |
| Reloadable.ReloadableTheme.Of | src/reloadable.rs:19-20 | wraps a state whose watcher is on exactly its path, establishing the class invariant |
| Reloadable.ReloadableTheme.FromTheme | src/reloadable.rs:149-153 | `From<Theme>`: the `Static` state holding the theme |
| Reloadable.ReloadableTheme.Default | src/reloadable.rs:155-159 | `Default`: the `Static` state holding the default theme |
| Reloadable.SetPathStep | src/reloadable.rs:84-103 | definition of `set_path`'s effect; stated by `SetSamePathIsNoop`, `SetPathFailureUnchanged`, `SetPathOnFileBacked`, `SetPathOnStatic` and `SetPathKeepsWatching` |
| Reloadable.ReloadStep | src/reloadable.rs:114-122 | definition of `reload`'s effect; stated by `ReloadMeaning` |
| Reloadable.NewFromFile | src/reloadable.rs:51-66 | allocates the file-backed theme `from_file` describes, or returns its error; on success `path()` is the opened path and the theme is that file's parse |
| Reloadable.NewFromStr | src/reloadable.rs:35-42 | allocates the `Static` theme `from_str` describes, or returns its error; on success `path()` is none and the theme is the text's parse |
| Reloadable.SetSamePathIsNoop | src/reloadable.rs:88 | setting the current path again succeeds and changes nothing |
| Reloadable.SetPathFailureUnchanged | src/reloadable.rs:89-99 | any failing `set_path` leaves the state as it was |
| Reloadable.SetPathOnFileBacked | src/reloadable.rs:87-97 | a parse failure and then a watch failure are reported in that order; success replaces theme and path together and moves the watch to the new path |
| Reloadable.SetPathOnStatic | src/reloadable.rs:99 | on a `Static` theme `set_path` is `from_file` |
| Reloadable.SetPathKeepsWatching | src/reloadable.rs:92-95 | `set_path` keeps the watcher on exactly the current path |
| Reloadable.ReloadMeaning | src/reloadable.rs:114-122 | `Static` is untouched; file-backed re-parses its path, keeping path and watches; on failure the old theme stays |
| Reloadable.StreamYields | src/reloadable.rs:183-205 | the `while`/`continue` loop yields `Reloads(obs)` events for a file-backed theme and none for a `Static` one |
| Reloadable.Reloads | src/reloadable.rs:189-204 | definition of the event filter: one event per `Modify` or `Create` observation; stated by `ReloadsAppend` and `ReloadsBounds` |
| Reloadable.ReloadsAppend | src/reloadable.rs:189-204 | the events of two stretches of observations add up |
| Reloadable.ReloadsBounds | src/reloadable.rs:192-203 | at most one event per observation; one each when all are Modify/Create; none when none is |

## Left out

- TOML syntax, decoding and serde's machinery are not modelled. This covers `untagged` trial order, `flatten`, `transparent` and derived field handling. The decoder's output is the input of the model.
- The tuple and struct spellings of each colour shape share one constructor, because they convert identically once decoded (`src/color.rs:163-177`).
- Under serde's `untagged` trial order the struct shapes `RgbaStruct` (`src/color.rs:115-120`) and `Rgba8Struct` (`src/color.rs:144-153`) are never reached: `RgbStruct` (`src/color.rs:109-113`) and `Rgb8Struct` (`src/color.rs:130-137`) are tried first and ignore the unknown field `a`. A struct-spelled alpha is therefore dropped. The model starts from the decoded shape, so it does not capture this.
- Floating point is not modelled: channels and lengths are reals. `from_f32` (`src/lib.rs:152-158`) is left out. The source reads an 8-bit literal's alpha from a string and parses it; the model starts from the parsed number, so it does not represent a numeric or unparsable alpha, which matches no shape in the source (failing the document in the `color` table, dropping the style in a widget sheet).
- `from_hex` only decodes a string and calls `parse_hex`; the 8-bit literals carry their channel strings and call `ParseHex` directly.
- The built-in colour table and the toolkit's default button, container and menu styles are foreign constants. They are parameters.
- ColorMaps.FromIter: the `color` table is decoded into a `HashMap` before it is collected, so entries whose names differ only in case are collected in hash order. The model collects them in document order, the later entry winning.
- Reloadable.StreamYields: the `tokio` watch channel keeps only its latest value, so events that arrive between two polls coalesce. The model counts over the sequence of values the stream actually observes. The async stream, `Recipe::hash` and the iced `Subscription` are left out.
- The notify watcher is reduced to the set of registered paths. `unwatch` errors are ignored, as in the source.
- Each widget's `StyleSheet::new` builder, and the image, image-viewer, svg, text and qr-code builders, are iced plumbing and are left out. Their layout fields are kept as an uninterpreted map.
- `qr_code` is behind a feature flag, and `rule` is commented out of the theme; neither is modelled.
- The `schema` feature (JSON schema and the `unimplemented!` serializers) is not modelled.
- `src/core.rs` and `src/error.rs` are only mirrored: an `ErrorKind` datatype and toolkit records.
- Themes.Theme: the accessors `button()` … `text_input()` are the field projections of `ThemeInner`; only `color()` has a member of its own (`Themes.Theme.Colors`).
- ColorMaps.ColorMap.Index and StyleMaps.Lookup: indexing panics on a missing key, so these require the key to be present.
