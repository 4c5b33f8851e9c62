/** `ColorMap` (src/color.rs, module `map`): a case-insensitive table from
    colour names to colours. Every way of building one stores its keys
    ASCII-lower-cased; a lookup tries the key exactly as given and then its
    lower-cased form. */
module ColorMaps {
  import opened Wrappers
  import opened Iced

  /** `char::make_ascii_lowercase`: only `A`..`Z` change. */
  function LowerChar(c: char): char {
    if 'A' <= c <= 'Z' then (c as int + 32) as char else c
  }

  /** `str::make_ascii_lowercase`. */
  function AsciiLower(s: string): string {
    seq(|s|, i requires 0 <= i < |s| => LowerChar(s[i]))
  }

  predicate IsAsciiLower(s: string) {
    forall i :: 0 <= i < |s| ==> !('A' <= s[i] <= 'Z')
  }

  /** Lower-casing yields a lower-case string and fixes every lower-case one;
      hence it is idempotent. */
  lemma AsciiLowerFacts(s: string)
    ensures IsAsciiLower(AsciiLower(s))
    ensures IsAsciiLower(s) ==> AsciiLower(s) == s
    ensures AsciiLower(AsciiLower(s)) == AsciiLower(s)
  {
  }

  datatype ColorMap = ColorMap(entries: map<string, Color>) {

    /** The representation invariant: no stored key has an upper-case letter. */
    ghost predicate Valid() {
      forall k :: k in entries ==> IsAsciiLower(k)
    }

    /** `ColorMap::get`: the entry under the key as given, else the entry
        under its lower-cased form. */
    function Get(k: string): Option<Color> {
      if k in entries then Some(entries[k])
      else if AsciiLower(k) in entries then Some(entries[AsciiLower(k)])
      else None
    }

    /** `ColorMap::contains_key`. */
    function ContainsKey(k: string): bool {
      Get(k).Some?
    }

    /** `Index for ColorMap`: panics (here: may not be called) on a missing key. */
    function Index(k: string): Color
      requires ContainsKey(k)
    {
      Get(k).value
    }

    /** `ColorMap::insert(&mut self, k, v)`: the key is stored lower-cased.
        The map is owned, so the update is returned as the new value. */
    method Insert(k: string, v: Color) returns (r: ColorMap)
      requires Valid()
      ensures r.Valid()
      ensures forall k' {:trigger r.Get(k')} :: AsciiLower(k') == AsciiLower(k) ==> r.Get(k') == Some(v)
      ensures forall k' {:trigger r.Get(k')} :: AsciiLower(k') != AsciiLower(k) ==> r.Get(k') == Get(k')
      ensures r.entries.Keys == entries.Keys + {AsciiLower(k)}
    {
      var lowered := AsciiLower(k);
      AsciiLowerFacts(k);
      r := ColorMap(entries[lowered := v]);
      forall k' ensures r.Get(k') == r.LookupLowered(k') && Get(k') == LookupLowered(k') {
        GetOfValid(k');
        r.GetOfValid(k');
      }
    }

    /** The entry under the lower-cased key, ignoring the exact-key fast path. */
    function LookupLowered(k: string): Option<Color> {
      if AsciiLower(k) in entries then Some(entries[AsciiLower(k)]) else None
    }

    /** On a valid map the exact-key fast path never finds anything the
        lower-cased lookup would not, so `get` is a lookup of the lower-cased key. */
    lemma GetOfValid(k: string)
      requires Valid()
      ensures Get(k) == LookupLowered(k)
    {
      if k in entries {
        AsciiLowerFacts(k);
      }
    }
  }

  /** `ColorMap::default` and `ColorMap::with_capacity`. */
  const Empty := ColorMap(map[])

  /** `FromIterator<(String, Color)> for ColorMap`: every key lower-cased,
      collected in iteration order, so a later pair wins over an earlier pair
      whose key lower-cases to the same string. */
  function FromIter(pairs: seq<(string, Color)>): ColorMap
  {
    if pairs == [] then Empty
    else
      var last := pairs[|pairs| - 1];
      ColorMap(FromIter(pairs[..|pairs| - 1]).entries[AsciiLower(last.0) := last.1])
  }

  /** `contains_key` is true exactly when the lower-cased key is stored. */
  lemma ContainsKeyAnyCase(m: ColorMap, k: string)
    requires m.Valid()
    ensures m.ContainsKey(k) <==> AsciiLower(k) in m.entries
  {
    m.GetOfValid(k);
  }

  /** Every key of a collected map is lower-case, and the keys are exactly the
      lower-cased input keys. */
  lemma {:induction false} FromIterKeys(pairs: seq<(string, Color)>)
    ensures FromIter(pairs).Valid()
    ensures FromIter(pairs).entries.Keys == set i | 0 <= i < |pairs| :: AsciiLower(pairs[i].0)
  {
    if pairs != [] {
      var init := pairs[..|pairs| - 1];
      FromIterKeys(init);
      AsciiLowerFacts(pairs[|pairs| - 1].0);
      var lhs := FromIter(pairs).entries.Keys;
      var rhs := set i | 0 <= i < |pairs| :: AsciiLower(pairs[i].0);
      forall k | k in rhs ensures k in lhs {
        var i :| 0 <= i < |pairs| && AsciiLower(pairs[i].0) == k;
        if i < |pairs| - 1 { assert init[i] == pairs[i]; }
      }
      forall k | k in lhs ensures k in rhs {
        if k != AsciiLower(pairs[|pairs| - 1].0) {
          var i :| 0 <= i < |init| && AsciiLower(init[i].0) == k;
          assert pairs[i] == init[i];
        }
      }
    }
  }

  /** A pair whose key no later pair shadows (after lower-casing) is found by
      `get` under any casing of its key. */
  lemma {:induction false} FromIterLastWins(pairs: seq<(string, Color)>, i: nat, k: string)
    requires i < |pairs|
    requires AsciiLower(k) == AsciiLower(pairs[i].0)
    requires forall j :: i < j < |pairs| ==> AsciiLower(pairs[j].0) != AsciiLower(pairs[i].0)
    ensures FromIter(pairs).Get(k) == Some(pairs[i].1)
  {
    var init := pairs[..|pairs| - 1];
    FromIterKeys(pairs);
    FromIter(pairs).GetOfValid(k);
    if i < |pairs| - 1 {
      assert init[i] == pairs[i];
      FromIterLastWins(init, i, k);
      FromIterKeys(init);
      FromIter(init).GetOfValid(k);
    }
  }
}
