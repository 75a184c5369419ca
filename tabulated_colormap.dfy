/** `TabulatedColorMap`: a palette of RGB triples stored flat in a
    `std::vector<float>`, looked up by truncating `v (n - 1)`. The palette
    data are abstract sequences. */
module TabulatedColorMaps {
  import opened Wrappers
  import opened CStrings
  import opened CNumeric
  import opened MathFacts

  /** Every named palette has 256 entries. */
  const PaletteSize: nat := 256

  /** The four built-in palettes, flat RGB triples. */
  datatype Palettes = Palettes(magma: seq<real>, inferno: seq<real>, plasma: seq<real>, viridis: seq<real>)

  /** Each palette holds at least the 3 * 256 values the constructor copies. */
  predicate ValidPalettes(p: Palettes)
  {
    && |p.magma| >= 3 * PaletteSize
    && |p.inferno| >= 3 * PaletteSize
    && |p.plasma| >= 3 * PaletteSize
    && |p.viridis| >= 3 * PaletteSize
  }

  const TabulatedNames: set<string> := {"magma", "inferno", "plasma", "viridis"}

  /** `_array.size()/3 - 1` in `size_t`: it wraps to SIZE_MAX when the
      table holds fewer than three values. */
  function IndexScale(size: nat): (k: int)
    requires size <= SizeMax
    ensures 0 <= k <= SizeMax
    ensures size >= 3 ==> k == size / 3 - 1
    ensures size < 3 ==> k == SizeMax
  {
    var d := size / 3 - 1;
    // unsigned subtraction: -1 wraps to SIZE_MAX
    if d >= 0 then d else d + (SizeMax + 1)
  }

  /** `int closet_idx = v * (_array.size()/3 - 1)`: a truncation. */
  function LookupIndex(v: real, size: nat): int
    requires size <= SizeMax
  {
    TruncToInt(v * IndexScale(size) as real)
  }

  /** The triple at index `i` lies inside a table of `size` values. */
  predicate EntryInBounds(i: int, size: nat)
  {
    0 <= i && 3 * i + 3 <= size
  }

  /** On a 256-entry table every v in [0, 1] reads an entry in [0, 255]:
      0 reads the first and 1 the last. */
  lemma LookupInBounds(v: real)
    requires 0.0 <= v <= 1.0
    ensures 0 <= LookupIndex(v, 3 * PaletteSize) <= PaletteSize - 1
    ensures EntryInBounds(LookupIndex(v, 3 * PaletteSize), 3 * PaletteSize)
    ensures v == 0.0 ==> LookupIndex(v, 3 * PaletteSize) == 0
    ensures v == 1.0 ==> LookupIndex(v, 3 * PaletteSize) == PaletteSize - 1
  {
    assert IndexScale(3 * PaletteSize) == 255;
  }

  /** The index is `floor(255 v)` for v >= 0: truncated, not rounded, so
      0.999 reads entry 254, not 255. */
  lemma LookupTruncates(v: real)
    requires v >= 0.0
    ensures var i := LookupIndex(v, 3 * PaletteSize);
      i as real <= 255.0 * v < i as real + 1.0
    ensures LookupIndex(0.999, 3 * PaletteSize) == 254
  {
    assert IndexScale(3 * PaletteSize) == 255;
    assert 254.0 <= 0.999 * 255.0 < 255.0;
  }

  /** Truncation goes toward zero: slightly negative values still read
      entry 0. */
  lemma LookupOfSlightlyNegative(v: real)
    requires -1.0 / 255.0 < v <= 0.0
    ensures LookupIndex(v, 3 * PaletteSize) == 0
  {
    assert IndexScale(3 * PaletteSize) == 255;
  }

  /** The default map's single value holds no complete triple, so no
      lookup in it stays in bounds. */
  lemma DefaultMapHasNoEntry(v: real)
    ensures !EntryInBounds(LookupIndex(v, 1), 1)
  {
  }

  /** The two-value overload normalises by (v - lo) / (hi - lo) without
      clamping; with lo < hi and v in [lo, hi] its read is in bounds. */
  lemma QuotientLookupInBounds(v: real, lo: real, hi: real)
    requires lo < hi && lo <= v <= hi
    ensures EntryInBounds(LookupIndex((v - lo) / (hi - lo), 3 * PaletteSize), 3 * PaletteSize)
  {
    var q := (v - lo) / (hi - lo);
    QuotientBounds(v - lo, hi - lo);
    LookupInBounds(q);
  }

  class TabulatedColorMap {
    var table: seq<real>

    /** The default constructor: a one-value `_array`, not a palette. */
    constructor Default()
      ensures table == [0.0]
    {
      table := [0.0];
    }

    /** The named constructor starts from an empty `_array`. */
    constructor Empty()
      ensures table == []
    {
      table := [];
    }

    /** `init`: resizes the table to `3 n` values and copies them in. */
    method Init(source: seq<real>, nElems: nat)
      requires 3 * nElems <= |source|
      modifies this
      ensures table == source[..3 * nElems]
    {
      table := source[..3 * nElems];
    }

    /** `TabulatedColorMap(const char* name)`: one of the four palettes by
        name, or error -1 for any other. */
    static method FromName(name: string, palettes: Palettes) returns (r: Result<TabulatedColorMap>)
      requires ValidPalettes(palettes)
      ensures r.Ok? <==> CStr(name) in TabulatedNames
      ensures r.Err? ==> r.code == -1
      ensures r.Ok? ==> fresh(r.value) && |r.value.table| == 3 * PaletteSize
      ensures r.Ok? && CStr(name) == "magma" ==> r.value.table == palettes.magma[..3 * PaletteSize]
      ensures r.Ok? && CStr(name) == "inferno" ==> r.value.table == palettes.inferno[..3 * PaletteSize]
      ensures r.Ok? && CStr(name) == "plasma" ==> r.value.table == palettes.plasma[..3 * PaletteSize]
      ensures r.Ok? && CStr(name) == "viridis" ==> r.value.table == palettes.viridis[..3 * PaletteSize]
    {
      var cname := CStr(name);
      var colorMap := new TabulatedColorMap.Empty();
      if cname == "magma" {
        colorMap.Init(palettes.magma, PaletteSize);
      } else if cname == "inferno" {
        colorMap.Init(palettes.inferno, PaletteSize);
      } else if cname == "plasma" {
        colorMap.Init(palettes.plasma, PaletteSize);
      } else if cname == "viridis" {
        colorMap.Init(palettes.viridis, PaletteSize);
      } else {
        return Err(-1);
      }
      return Ok(colorMap);
    }

    /** `getRGBValue(v)`: copies the triple at the truncated index. The
        source reads out of bounds when the index is not in the table. */
    method GetRgbValue(v: real, rgb: array<real>)
      requires rgb.Length == 3 && |table| <= SizeMax
      requires EntryInBounds(LookupIndex(v, |table|), |table|)
      modifies rgb
      ensures var i := LookupIndex(v, |table|); rgb[..] == table[3 * i .. 3 * i + 3]
    {
      var closestIdx := TruncToInt(v * IndexScale(|table|) as real);
      // memcpy of one triple
      rgb[0], rgb[1], rgb[2] := table[3 * closestIdx], table[3 * closestIdx + 1], table[3 * closestIdx + 2];
      assert rgb[..] == table[3 * closestIdx .. 3 * closestIdx + 3];
    }

    /** `getRGBValue(v, lo, hi)`: delegates with `(v - lo) / (hi - lo)`. */
    method GetRgbValueIn(v: real, vMin: real, vMax: real, rgb: array<real>)
      requires rgb.Length == 3 && vMin != vMax && |table| <= SizeMax
      requires EntryInBounds(LookupIndex((v - vMin) / (vMax - vMin), |table|), |table|)
      modifies rgb
      ensures var i := LookupIndex((v - vMin) / (vMax - vMin), |table|);
        rgb[..] == table[3 * i .. 3 * i + 3]
    {
      GetRgbValue((v - vMin) / (vMax - vMin), rgb);
    }
  }
}
