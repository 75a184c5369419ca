/** C-string views of `std::string` values. `strcmp` on `c_str()` compares
    characters only up to the first NUL, so the source's name tests see the
    prefix of the string that precedes its first '\0'. */
module CStrings {

  const Nul: char := '\0'

  /** The characters `strcmp` sees when given `s.c_str()`. */
  function CStr(s: string): (r: string)
    ensures |r| <= |s| && r == s[..|r|]
    ensures Nul !in r
    ensures |r| < |s| ==> s[|r|] == Nul
  {
    if s == [] then []
    else if s[0] == Nul then []
    else [s[0]] + CStr(s[1..])
  }

  /** A string without NUL is its own C-string view. */
  lemma {:induction false} CStrOfNulFree(s: string)
    requires Nul !in s
    ensures CStr(s) == s
  {
  }
}
