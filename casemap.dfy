/** Character case mapping as Python's str.lower / str.upper perform it, over a
    modelled alphabet: Basic Latin, Latin-1 Supplement and Latin Extended-A
    (U+0000..U+017F), with the letters whose Python mapping is not a single
    paired character left out (see IsModelled). Every other character is
    treated as caseless. */
module CaseMap {

  /** Characters on which Lower and Upper agree with Python's own mapping. */
  predicate IsModelled(c: char) {
    c <= '\U{17F}' &&
    c != '\U{B5}' &&   // micro sign: upper-cases to a Greek letter
    c != '\U{DF}' &&   // sharp s: upper-cases to two letters
    c != '\U{130}' &&  // dotted capital I: lower-cases to two characters
    c != '\U{131}' &&  // dotless small i: upper-cases to ASCII I
    c != '\U{149}' &&  // n preceded by apostrophe: upper-cases to two characters
    c != '\U{17F}'     // long s: upper-cases to ASCII S
  }

  /** Capital letters whose small letter lies 32 code points above. */
  predicate IsUpperLatin1(c: char) {
    ('A' <= c <= 'Z') || ('\U{C0}' <= c <= '\U{DE}' && c != '\U{D7}')
  }

  /** Small letters whose capital letter lies 32 code points below. */
  predicate IsLowerLatin1(c: char) {
    ('a' <= c <= 'z') || ('\U{E0}' <= c <= '\U{FE}' && c != '\U{F7}')
  }

  /** Capital letters of Latin Extended-A whose small letter is the next code point. */
  predicate IsUpperExtended(c: char) {
    ('\U{100}' <= c <= '\U{137}' && c as int % 2 == 0 && c != '\U{130}') ||
    ('\U{139}' <= c <= '\U{148}' && c as int % 2 == 1) ||
    ('\U{14A}' <= c <= '\U{177}' && c as int % 2 == 0) ||
    ('\U{179}' <= c <= '\U{17E}' && c as int % 2 == 1)
  }

  /** Small letters of Latin Extended-A whose capital letter is the previous code point. */
  predicate IsLowerExtended(c: char) {
    ('\U{101}' <= c <= '\U{137}' && c as int % 2 == 1 && c != '\U{131}') ||
    ('\U{13A}' <= c <= '\U{148}' && c as int % 2 == 0) ||
    ('\U{14B}' <= c <= '\U{177}' && c as int % 2 == 1) ||
    ('\U{17A}' <= c <= '\U{17E}' && c as int % 2 == 0)
  }

  predicate IsUpper(c: char) {
    IsUpperLatin1(c) || IsUpperExtended(c) || c == '\U{178}'
  }

  predicate IsLower(c: char) {
    IsLowerLatin1(c) || IsLowerExtended(c) || c == '\U{FF}'
  }

  /** A capital becomes its small letter; every other character is kept, so
      the result is never a capital. */
  function Lower(c: char): (r: char)
    ensures IsUpper(c) ==> IsLower(r)
    ensures !IsUpper(c) ==> r == c
    ensures !IsUpper(r)
  {
    if IsUpperLatin1(c) then (c as int + 32) as char
    else if IsUpperExtended(c) then (c as int + 1) as char
    else if c == '\U{178}' then '\U{FF}'
    else c
  }

  /** A small letter becomes its capital; every other character is kept, so
      the result is never a small letter. */
  function Upper(c: char): (r: char)
    ensures IsLower(c) ==> IsUpper(r)
    ensures !IsLower(c) ==> r == c
    ensures !IsLower(r)
  {
    if IsLowerLatin1(c) then (c as int - 32) as char
    else if IsLowerExtended(c) then (c as int - 1) as char
    else if c == '\U{FF}' then '\U{178}'
    else c
  }

  /** Lower and Upper pair the capital and the small letters one to one, so
      upper-casing first is invisible to Lower and lower-casing first is
      invisible to Upper. */
  lemma CasePairing(c: char)
    ensures Lower(Upper(c)) == Lower(c)
    ensures Upper(Lower(c)) == Upper(c)
    ensures Lower(Lower(c)) == Lower(c)
    ensures Upper(Upper(c)) == Upper(c)
  {
    assert !(IsUpper(c) && IsLower(c));
  }

  /** str.lower: the character map applied at every position. No capital is
      left, and each character equals the input's one up to case. */
  function LowerStr(s: string): (r: string)
    ensures |r| == |s|
    ensures forall i :: 0 <= i < |s| ==> r[i] == Lower(s[i])
    ensures forall i :: 0 <= i < |s| ==> !IsUpper(r[i]) && Upper(r[i]) == Upper(s[i])
  {
    seq(|s|, i requires 0 <= i < |s| => Lower(s[i]))
  }

  /** str.upper: the character map applied at every position. No small
      letter is left, and each character equals the input's one up to case. */
  function UpperStr(s: string): (r: string)
    ensures |r| == |s|
    ensures forall i :: 0 <= i < |s| ==> r[i] == Upper(s[i])
    ensures forall i :: 0 <= i < |s| ==> !IsLower(r[i]) && Lower(r[i]) == Lower(s[i])
  {
    seq(|s|, i requires 0 <= i < |s| => Upper(s[i]))
  }

  /** Over the modelled alphabet, lower-casing a string ignores how it was
      cased before. */
  lemma LowerIgnoresCase(s: string)
    requires forall i :: 0 <= i < |s| ==> IsModelled(s[i])
    ensures LowerStr(UpperStr(s)) == LowerStr(s)
    ensures LowerStr(LowerStr(s)) == LowerStr(s)
  {
    forall i | 0 <= i < |s|
      ensures LowerStr(UpperStr(s))[i] == LowerStr(s)[i]
      ensures LowerStr(LowerStr(s))[i] == LowerStr(s)[i]
    {
      CasePairing(s[i]);
    }
  }

  lemma LowerStrConcat(a: string, b: string)
    ensures LowerStr(a + b) == LowerStr(a) + LowerStr(b)
  {
    assert forall i :: 0 <= i < |a + b| ==> LowerStr(a + b)[i] == (LowerStr(a) + LowerStr(b))[i];
  }

  lemma UpperStrConcat(a: string, b: string)
    ensures UpperStr(a + b) == UpperStr(a) + UpperStr(b)
  {
    assert forall i :: 0 <= i < |a + b| ==> UpperStr(a + b)[i] == (UpperStr(a) + UpperStr(b))[i];
  }
}
