/** The per-widget style-sheet maps generated by `widget_style_sheet_map!`
    (src/widget/mod.rs): an ordered map from variant name to style sheet, the
    `init` step that guarantees a `"default"` variant, and the two lookups. */
module StyleMaps {
  import opened Wrappers

  /** The layout settings of a sheet (widths, paddings, sizes). They only feed
      the toolkit's builder calls, so they are carried uninterpreted. */
  datatype Layout = Layout(settings: map<string, string>)

  const NoLayout := Layout(map[])

  /** A widget's `StyleSheet`: its layout settings and, for the widgets that
      have one, its resolved style (`style: Option<Style>`). */
  datatype Sheet<S> = Sheet(layout: Layout, style: Option<S>)

  /** The derived `StyleSheet::default()`: no layout settings and no style. */
  function DefaultSheet<S>(): Sheet<S> {
    Sheet(NoLayout, None)
  }

  const DefaultKey := "default"

  type StyleMap<S> = map<string, Sheet<S>>

  /** The map `init` leaves behind: a missing `"default"` variant is added as
      the default sheet, and every entry already present is kept. */
  function WithDefault<S>(m: StyleMap<S>): (r: StyleMap<S>)
    ensures DefaultKey in r
    ensures r.Keys == m.Keys + {DefaultKey}
    ensures forall k :: k in m ==> r[k] == m[k]
    ensures DefaultKey !in m ==> r[DefaultKey] == DefaultSheet()
  {
    if DefaultKey in m then m else m[DefaultKey := DefaultSheet()]
  }

  /** `init(&mut self)`: inserts the default sheet under `"default"` unless
      that key is already present. The map is owned by the theme being built,
      so the update is returned as the new value. */
  method Init<S>(m: StyleMap<S>) returns (r: StyleMap<S>)
    ensures r == WithDefault(m)
  {
    r := m;
    if DefaultKey !in r {
      r := r[DefaultKey := DefaultSheet()];
    }
  }

  /** An already initialised map is left exactly as it was. */
  lemma InitKeepsInitialised<S>(m: StyleMap<S>)
    requires DefaultKey in m
    ensures WithDefault(m) == m
  {
  }

  /** Adding the default changes no other entry and adds no other key. */
  lemma InitAddsOnlyDefault<S>(m: StyleMap<S>, k: string)
    requires k != DefaultKey
    ensures k in WithDefault(m) <==> k in m
    ensures k in m ==> WithDefault(m)[k] == m[k]
  {
  }

  /** `init` is idempotent. */
  lemma InitIdempotent<S>(m: StyleMap<S>)
    ensures WithDefault(WithDefault(m)) == WithDefault(m)
  {
  }

  /** `Deref`: the sheet stored under `"default"`. Indexing a `BTreeMap` with a
      missing key panics, so the lookup requires an initialised map. */
  function DefaultLookup<S>(m: StyleMap<S>): Sheet<S>
    requires DefaultKey in m
  {
    m[DefaultKey]
  }

  /** `Index`: the sheet stored under a variant name; the name must be present. */
  function Lookup<S>(m: StyleMap<S>, name: string): Sheet<S>
    requires name in m
  {
    m[name]
  }

  /** On an initialised map the default lookup is total: it yields the
      document's `"default"` variant when there was one, else the default sheet. */
  lemma DefaultLookupAfterInit<S>(m: StyleMap<S>)
    ensures DefaultLookup(WithDefault(m)) == if DefaultKey in m then m[DefaultKey] else DefaultSheet()
  {
  }

  /** A widget section as decoded: its variants in document order, each with
      its layout settings and the decoded style fields (`None` when the
      flattened style fields do not have the expected shape). */
  type Section<I> = seq<(string, Sheet<I>)>

  /** The sheet of one variant with its style converted. */
  function ConvertSheet<I, S>(d: Sheet<I>, convert: I -> Option<S>): Sheet<S> {
    Sheet(d.layout, if d.style.Some? then convert(d.style.value) else None)
  }

  /** The `BTreeMap` of a widget section: the variants are inserted in order. */
  function Collect<I, S>(entries: Section<I>, convert: I -> Option<S>): (r: StyleMap<S>)
    ensures r.Keys == set i | 0 <= i < |entries| :: entries[i].0
  {
    if entries == [] then map[]
    else
      var last := entries[|entries| - 1];
      var init := entries[..|entries| - 1];
      var r := Collect(init, convert)[last.0 := ConvertSheet(last.1, convert)];
      assert forall i :: 0 <= i < |init| ==> init[i] == entries[i];
      r
  }

  /** The sheet kept for a variant name is the one written last. */
  lemma {:induction false} CollectLastWins<I, S>(entries: Section<I>, convert: I -> Option<S>, i: nat)
    requires i < |entries|
    requires forall j :: i < j < |entries| ==> entries[j].0 != entries[i].0
    ensures Collect(entries, convert)[entries[i].0] == ConvertSheet(entries[i].1, convert)
  {
    if i < |entries| - 1 {
      var init := entries[..|entries| - 1];
      assert init[i] == entries[i];
      CollectLastWins(init, convert, i);
    }
  }
}
