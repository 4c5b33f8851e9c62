/** Deserialization of colours (src/color.rs, module `de`): the literal shapes a
    document may write, their conversion to a toolkit colour, the resolution of
    colour names against the built-in table and the document's own table, and
    the reading of the document's `color` section. */
module ColorDe {
  import opened Wrappers
  import opened Iced
  import opened ColorMaps
  import Hex

  /** The literal shapes of a colour. The tuple and struct spellings of each
      shape convert identically and share a constructor. The 8-bit shapes keep
      their channels as the written `0x..` strings. Their alpha is written as a
      string that `from_f32` parses; the model starts from the parsed number. */
  datatype ColorLiteral =
    | Alias(name: string)
    | Rgb(r: real, g: real, b: real)
    | Rgba(r: real, g: real, b: real, a: real)
    | AliasWithAlpha(rgb: string, a: real)
    | Rgb8(r8: string, g8: string, b8: string)
    | Rgba8(r8: string, g8: string, b8: string, alpha: real)

  /** What a colour name is looked up in: the compiled-in table
      (`DEFAULT_COLOR_ALIASES`, exact lookup) and the table the document's
      `color` section installed (`COLOR_ALIASES`, a `ColorMap`). */
  datatype AliasScope = AliasScope(builtins: map<string, Color>, document: ColorMap)

  /** The error of an unknown name, worded as the code words it. */
  function UnknownAliasMessage(key: string): string {
    "cannot found color alias `" + key + "`"
  }

  /** The error serde reports when an untagged literal fits no shape, which is
      what an 8-bit literal with a bad hex channel ends as. */
  const NoShapeMessage := "data did not match any variant of untagged enum Color"

  /** `resolve_color_alias`: the name is lower-cased, then looked up in the
      built-in table, then in the document's table. */
  function ResolveColorAlias(scope: AliasScope, key: string): Result<Color, string> {
    var k := AsciiLower(key);
    if k in scope.builtins then Success(scope.builtins[k])
    else match scope.document.Get(k)
      case Some(c) => Success(c)
      case None => Failure(UnknownAliasMessage(k))
  }

  /** `from_hex` on the three channels of an 8-bit literal. */
  function ParseChannels(r: string, g: string, b: string): Result<(uint8, uint8, uint8), string> {
    match (Hex.ParseHex(r), Hex.ParseHex(g), Hex.ParseHex(b))
    case (Success(x), Success(y), Success(z)) => Success((x, y, z))
    case _ => Failure(NoShapeMessage)
  }

  /** `Deserialize for Color`: the conversion of each literal shape. */
  function ToColor(scope: AliasScope, lit: ColorLiteral): Result<Color, string> {
    match lit
    case Alias(name) => ResolveColorAlias(scope, name)
    case Rgb(r, g, b) => Success(FromRgb(r, g, b))
    case Rgba(r, g, b, a) => Success(FromRgba(r, g, b, a))
    case AliasWithAlpha(rgb, a) =>
      var c :- ResolveColorAlias(scope, rgb);
      Success(FromRgba(c.r, c.g, c.b, a))
    case Rgb8(r, g, b) =>
      var t :- ParseChannels(r, g, b);
      Success(FromRgb8(t.0, t.1, t.2))
    case Rgba8(r, g, b, a) =>
      var t :- ParseChannels(r, g, b);
      Success(FromRgba8(t.0, t.1, t.2, a))
  }

  /** An optional colour field: absent stays absent, present is converted. */
  function ResolveOpt(scope: AliasScope, lit: Option<ColorLiteral>): Result<Option<Color>, string> {
    match lit
    case None => Success(None)
    case Some(l) =>
      var c :- ToColor(scope, l);
      Success(Some(c))
  }

  /** The entries of the `color` table converted one after the other against
      the scope in force; the first failure ends the conversion. */
  function ResolveEntries(scope: AliasScope, entries: seq<(string, ColorLiteral)>): Result<seq<(string, Color)>, string>
  {
    if entries == [] then Success([])
    else
      var c :- ToColor(scope, entries[0].1);
      var rest :- ResolveEntries(scope, entries[1..]);
      Success([(entries[0].0, c)] + rest)
  }

  /** `Deserialize for ColorAliases`: an absent table leaves the scope alone and
      gives an empty table; a present one is converted entry by entry against
      the current scope, collected into a `ColorMap`, and that map replaces the
      document table of the scope. */
  function DeserializeAliases(scope: AliasScope, section: Option<seq<(string, ColorLiteral)>>): Result<(ColorMap, AliasScope), string>
  {
    match section
    case None => Success((Empty, scope))
    case Some(entries) =>
      var pairs :- ResolveEntries(scope, entries);
      var m := FromIter(pairs);
      Success((m, scope.(document := m)))
  }

  // ---------------------------------------------------------------------------
  // Properties

  /** Names are case-insensitive: two spellings that lower-case alike resolve alike. */
  lemma ResolveCaseInsensitive(scope: AliasScope, a: string, b: string)
    requires AsciiLower(a) == AsciiLower(b)
    ensures ResolveColorAlias(scope, a) == ResolveColorAlias(scope, b)
  {
  }

  /** What a name resolves to: a built-in entry shadows a document entry of the
      same lower-cased name; otherwise the document entry; otherwise the error
      names the lower-cased key. */
  lemma ResolveColorAliasMeaning(scope: AliasScope, key: string)
    requires scope.document.Valid()
    ensures var k := AsciiLower(key);
      && (k in scope.builtins ==> ResolveColorAlias(scope, key) == Success(scope.builtins[k]))
      && (k !in scope.builtins && k in scope.document.entries ==>
            ResolveColorAlias(scope, key) == Success(scope.document.entries[k]))
      && (k !in scope.builtins && k !in scope.document.entries ==>
            ResolveColorAlias(scope, key) == Failure(UnknownAliasMessage(k)))
  {
    AsciiLowerFacts(key);
    scope.document.GetOfValid(AsciiLower(key));
  }

  /** Only the name-based shapes and the 8-bit shapes can fail. */
  lemma NumericLiteralsSucceed(scope: AliasScope, lit: ColorLiteral)
    requires lit.Rgb? || lit.Rgba?
    ensures ToColor(scope, lit).Success?
    ensures ToColor(scope, lit).value.r == lit.r
    ensures ToColor(scope, lit).value.g == lit.g
    ensures ToColor(scope, lit).value.b == lit.b
    ensures ToColor(scope, lit).value.a == (if lit.Rgb? then 1.0 else lit.a)
  {
  }

  /** `{ rgb = <name>, a = <alpha> }` keeps the named colour's channels and
      takes the written alpha; it fails exactly when the name does. */
  lemma AliasWithAlphaMeaning(scope: AliasScope, name: string, a: real)
    ensures ToColor(scope, AliasWithAlpha(name, a)).Success? <==> ResolveColorAlias(scope, name).Success?
    ensures ResolveColorAlias(scope, name).Success? ==>
              ToColor(scope, AliasWithAlpha(name, a)) == Success(ResolveColorAlias(scope, name).value.(a := a))
    ensures ResolveColorAlias(scope, name).Failure? ==>
              ToColor(scope, AliasWithAlpha(name, a)) == Failure(ResolveColorAlias(scope, name).error)
  {
  }

  /** An 8-bit literal converts exactly when each channel is an accepted `0x`
      literal, and each channel is then its byte value over 255. */
  lemma Rgb8Meaning(scope: AliasScope, r: string, g: string, b: string)
    ensures ToColor(scope, Rgb8(r, g, b)).Success? <==> Hex.Accepted(r) && Hex.Accepted(g) && Hex.Accepted(b)
    ensures ToColor(scope, Rgb8(r, g, b)).Success? ==>
              ToColor(scope, Rgb8(r, g, b)).value ==
              Color(Hex.ParseHex(r).value as real / 255.0, Hex.ParseHex(g).value as real / 255.0,
                    Hex.ParseHex(b).value as real / 255.0, 1.0)
  {
    Hex.ParseHexMeaning(r);
    Hex.ParseHexMeaning(g);
    Hex.ParseHexMeaning(b);
  }

  /** An 8-bit literal with alpha converts exactly when each channel is an
      accepted `0x` literal; each channel is then its byte value over 255, and
      the alpha is the written one. */
  lemma Rgba8Meaning(scope: AliasScope, r: string, g: string, b: string, a: real)
    ensures ToColor(scope, Rgba8(r, g, b, a)).Success? <==> Hex.Accepted(r) && Hex.Accepted(g) && Hex.Accepted(b)
    ensures ToColor(scope, Rgba8(r, g, b, a)).Success? ==>
              ToColor(scope, Rgba8(r, g, b, a)).value ==
              Color(Hex.ParseHex(r).value as real / 255.0, Hex.ParseHex(g).value as real / 255.0,
                    Hex.ParseHex(b).value as real / 255.0, a)
  {
    Hex.ParseHexMeaning(r);
    Hex.ParseHexMeaning(g);
    Hex.ParseHexMeaning(b);
  }

  /** A channel without the `0x` prefix is an error, never a default value. */
  lemma UnprefixedChannelRejected(scope: AliasScope, r: string, g: string, b: string, a: real)
    requires !Hex.HasHexPrefix(r) || !Hex.HasHexPrefix(g) || !Hex.HasHexPrefix(b)
    ensures ToColor(scope, Rgb8(r, g, b)) == Failure(NoShapeMessage)
    ensures ToColor(scope, Rgba8(r, g, b, a)) == Failure(NoShapeMessage)
  {
  }

  /** Converted entries keep their names and order, and each colour is the
      conversion of its literal; conversion fails exactly when some entry fails. */
  lemma {:induction false} ResolveEntriesMeaning(scope: AliasScope, entries: seq<(string, ColorLiteral)>)
    ensures ResolveEntries(scope, entries).Success? <==>
              forall i :: 0 <= i < |entries| ==> ToColor(scope, entries[i].1).Success?
    ensures ResolveEntries(scope, entries).Success? ==>
              var pairs := ResolveEntries(scope, entries).value;
              && |pairs| == |entries|
              && forall i :: 0 <= i < |entries| ==>
                   pairs[i] == (entries[i].0, ToColor(scope, entries[i].1).value)
  {
    if entries != [] {
      ResolveEntriesMeaning(scope, entries[1..]);
      assert forall i :: 1 <= i < |entries| ==> entries[i] == entries[1..][i - 1];
    }
  }

  /** After a present `color` table is read, the scope's document table is the
      returned table, built from the converted entries, with lower-case keys;
      the built-in table is untouched. */
  lemma DeserializeAliasesInstalls(scope: AliasScope, entries: seq<(string, ColorLiteral)>)
    requires DeserializeAliases(scope, Some(entries)).Success?
    ensures var (m, scope') := DeserializeAliases(scope, Some(entries)).value;
      && scope'.document == m
      && scope'.builtins == scope.builtins
      && m.Valid()
      && m.entries.Keys == set i | 0 <= i < |entries| :: AsciiLower(entries[i].0)
  {
    var pairs := ResolveEntries(scope, entries).value;
    ResolveEntriesMeaning(scope, entries);
    FromIterKeys(pairs);
    assert (set i | 0 <= i < |pairs| :: AsciiLower(pairs[i].0))
        == (set i | 0 <= i < |entries| :: AsciiLower(entries[i].0));
  }

  /** An absent `color` table gives the empty table and leaves the scope as it was. */
  lemma DeserializeAliasesAbsent(scope: AliasScope)
    ensures DeserializeAliases(scope, None) == Success((Empty, scope))
  {
  }

  /** Names within one `color` table are resolved against the scope in force
      before the table, so an entry cannot name another entry of its own table:
      with an empty document table, `b = "a"` fails even though `a` is defined
      just before it (unless `a` is a built-in name). */
  lemma NoForwardReferenceWithinTable(builtins: map<string, Color>, c: ColorLiteral)
    requires "a" !in builtins && ToColor(AliasScope(builtins, Empty), c).Success?
    ensures DeserializeAliases(AliasScope(builtins, Empty), Some([("a", c), ("b", Alias("a"))]))
            == Failure(UnknownAliasMessage("a"))
  {
    assert AsciiLower("a") == "a";
    var entries := [("a", c), ("b", Alias("a"))];
    assert entries[1..] == [("b", Alias("a"))];
    assert entries[1..][1..] == [];
    var scope := AliasScope(builtins, Empty);
    assert AsciiLower("a") !in Empty.entries;
    assert ResolveColorAlias(scope, "a") == Failure(UnknownAliasMessage("a"));
    assert ResolveEntries(scope, entries[1..]) == Failure(UnknownAliasMessage("a"));
  }
}
