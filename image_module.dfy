/** `ImageModule::load`: picks the loader from the file name's last four
    bytes. Each element of a name stands for one byte of the `std::string`,
    so its length is `filename.size()`. The loader itself is not part of
    this model. */
module ImageModules {
  import opened Wrappers
  import opened CStrings

  /** The formats `load` knows: only OpenEXR. */
  datatype Format = Exr

  /** `&filename.c_str()[size - 4]`: the last four bytes of the name. */
  function Extension(filename: string): (e: string)
    requires |filename| >= 4
    ensures |e| == 4 && filename == filename[..|filename| - 4] + e
  {
    filename[|filename| - 4..]
  }

  /** `load`'s decision: error -1 for a name shorter than five bytes,
      the EXR loader for a C-string suffix ".exr" or ".EXR", error -2 for
      anything else. */
  function LoadFormat(filename: string): (r: Result<Format>)
    ensures |filename| < 5 ==> r == Err(-1)
    ensures |filename| >= 5 ==>
      (r == Ok(Exr) <==> CStr(Extension(filename)) in {".exr", ".EXR"})
    ensures r.Err? ==> r.code == -1 || r.code == -2
  {
    if |filename| < 5 then Err(-1)
    else
      var ext := CStr(Extension(filename));
      if ext == ".exr" || ext == ".EXR" then Ok(Exr) else Err(-2)
  }

  /** The bare name ".exr" is refused as too short. */
  lemma BareExtensionIsTooShort()
    ensures LoadFormat(".exr") == Err(-1)
  {
  }

  /** The match is case-sensitive: ".Exr" is an unknown format. */
  lemma MixedCaseIsUnknown()
    ensures LoadFormat("a.Exr") == Err(-2)
    ensures LoadFormat("a.exr") == Ok(Exr)
    ensures LoadFormat("a.EXR") == Ok(Exr)
  {
    CStrOfNulFree(".Exr");
    CStrOfNulFree(".exr");
    CStrOfNulFree(".EXR");
  }

  /** A NUL-free suffix is compared whole: for it the decision is the raw
      suffix comparison. */
  lemma NulFreeExtension(filename: string)
    requires |filename| >= 5 && Nul !in Extension(filename)
    ensures LoadFormat(filename) == Ok(Exr) <==> Extension(filename) in {".exr", ".EXR"}
  {
    CStrOfNulFree(Extension(filename));
  }

  /** The decision depends only on the length and the last four bytes. */
  lemma DependsOnlyOnExtension(f: string, g: string)
    requires |f| >= 5 && |g| >= 5 && Extension(f) == Extension(g)
    ensures LoadFormat(f) == LoadFormat(g)
  {
  }
}
