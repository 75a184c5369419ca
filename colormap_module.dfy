/** `ColorMapModule::create`: the colour map named on the command line.
    The abstract `ColorMap` interface becomes a datatype with one variant
    per implementation. */
module ColorMapModules {
  import opened Wrappers
  import opened CStrings
  import opened BbgrColorMaps
  import opened TabulatedColorMaps

  /** A constructed colour map: the ramp or a tabulated palette. */
  datatype ColorMap = Ramp(bbgr: BbgrColorMap) | Tabulated(tab: TabulatedColorMap)

  /** Which map `create` builds, before anything is allocated. A tabulated
      choice carries the name `create` passes to the palette constructor. */
  datatype Choice = RampChoice | TabulatedChoice(name: string)

  const ColorMapNames: set<string> := {"bbgr"} + TabulatedNames

  /** The if/else chain of `create`: `strcmp` against each literal on the
      name's `c_str()`; any other name throws -1. */
  function Dispatch(name: string): (r: Result<Choice>)
    ensures r.Ok? <==> CStr(name) in ColorMapNames
    ensures r.Err? ==> r.code == -1
    ensures r == Ok(RampChoice) <==> CStr(name) == "bbgr"
    ensures r.Ok? && r.value.TabulatedChoice? ==>
      r.value.name == CStr(name) && r.value.name in TabulatedNames
  {
    var cname := CStr(name);
    if cname == "bbgr" then Ok(RampChoice)
    else if cname == "magma" || cname == "inferno" || cname == "plasma" || cname == "viridis" then
      Ok(TabulatedChoice(cname))
    else Err(-1)
  }

  /** `c_str()` of a `c_str()` is the same C string. */
  lemma {:induction false} CStrIsIdempotent(s: string)
    ensures CStr(CStr(s)) == CStr(s)
  {
    CStrOfNulFree(CStr(s));
  }

  /** Every name forwarded to the palette constructor is one it accepts,
      so `create` never reaches the constructor's own throw. */
  lemma ForwardedNameIsAccepted(name: string)
    requires Dispatch(name).Ok? && Dispatch(name).value.TabulatedChoice?
    ensures CStr(Dispatch(name).value.name) in TabulatedNames
  {
    CStrIsIdempotent(name);
  }

  /** For a name without NUL the accepted names are exactly the five
      literals, matched exactly and case-sensitively. */
  lemma AcceptedNames(name: string)
    requires Nul !in name
    ensures Dispatch(name).Ok? <==>
      name in {"bbgr", "magma", "inferno", "plasma", "viridis"}
  {
    CStrOfNulFree(name);
  }

  /** Case matters: "BBGR" and "Magma" are refused. */
  lemma NamesAreCaseSensitive()
    ensures Dispatch("BBGR") == Err(-1)
    ensures Dispatch("Magma") == Err(-1)
  {
    CStrOfNulFree("BBGR");
    CStrOfNulFree("Magma");
  }

  /** `strcmp` stops at the first NUL: "bbgr" followed by a NUL and more
      characters still selects the ramp. */
  lemma EmbeddedNulIsIgnored()
    ensures Dispatch("bbgr\0x") == Ok(RampChoice)
  {
    assert CStr("bbgr\0x") == "bbgr" by {
      assert "bbgr\0x"[4] == Nul;
      assert CStr("\0x") == [];
      assert CStr("bbgr\0x") == [ 'b' ] + CStr("bgr\0x");
      assert CStr("bgr\0x") == [ 'b' ] + CStr("gr\0x");
      assert CStr("gr\0x") == [ 'g' ] + CStr("r\0x");
      assert CStr("r\0x") == [ 'r' ] + CStr("\0x");
    }
  }

  /** `create`: builds the map `Dispatch` chooses, or reports error -1. */
  method Create(name: string, palettes: Palettes) returns (r: Result<ColorMap>)
    requires ValidPalettes(palettes)
    ensures r.Ok? <==> Dispatch(name).Ok?
    ensures r.Err? ==> r.code == -1
    ensures r.Ok? ==> (r.value.Ramp? <==> Dispatch(name) == Ok(RampChoice))
    ensures r.Ok? && r.value.Ramp? ==> fresh(r.value.bbgr)
    ensures r.Ok? && r.value.Tabulated? ==>
      fresh(r.value.tab) && |r.value.tab.table| == 3 * PaletteSize
    ensures r.Ok? && r.value.Tabulated? && CStr(name) == "magma" ==>
      r.value.tab.table == palettes.magma[..3 * PaletteSize]
    ensures r.Ok? && r.value.Tabulated? && CStr(name) == "inferno" ==>
      r.value.tab.table == palettes.inferno[..3 * PaletteSize]
    ensures r.Ok? && r.value.Tabulated? && CStr(name) == "plasma" ==>
      r.value.tab.table == palettes.plasma[..3 * PaletteSize]
    ensures r.Ok? && r.value.Tabulated? && CStr(name) == "viridis" ==>
      r.value.tab.table == palettes.viridis[..3 * PaletteSize]
  {
    var choice := Dispatch(name);
    if choice.Err? {
      return Err(choice.code);
    }
    match choice.value
    case RampChoice =>
      var bbgr := new BbgrColorMap();
      return Ok(Ramp(bbgr));
    case TabulatedChoice(cname) =>
      CStrIsIdempotent(name);
      var t := TabulatedColorMap.FromName(cname, palettes);
      return Ok(Tabulated(t.value));
  }
}
