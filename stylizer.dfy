/** The text transform of bot.py: lower-case the text, substitute each
    character through a fixed table, upper-case the result. */
module Stylizer {
  import opened CaseMap

  /** REPLACE_MAP: seven small letters and the accented capitals that replace them. */
  const ReplaceMap: map<char, char> := map[
    'a' := '\U{C5}',   // A with ring above
    'e' := '\U{CB}',   // E with diaeresis
    'i' := '\U{CF}',   // I with diaeresis
    'o' := '\U{D8}',   // O with stroke
    'u' := '\U{DC}',   // U with diaeresis
    's' := '\U{15A}',  // S with acute
    'c' := '\U{C7}'    // C with cedilla
  ]

  /** REPLACE_MAP.get(c, c): a listed small letter becomes a capital, every
      other character is kept. */
  function Substitute(c: char): (d: char)
    ensures c in ReplaceMap ==> IsUpper(d) && !IsLower(d) && d != c
    ensures c !in ReplaceMap ==> d == c
  {
    if c in ReplaceMap then ReplaceMap[c] else c
  }

  function SubstituteAll(s: string): (r: string)
    ensures |r| == |s|
    ensures forall i :: 0 <= i < |s| ==> r[i] == Substitute(s[i])
  {
    seq(|s|, i requires 0 <= i < |s| => Substitute(s[i]))
  }

  /** stylize(text): the three stages of the pipeline, whole-string each. The
      result is as long as the text and holds no small letter. */
  function Stylize(text: string): (r: string)
    ensures |r| == |text|
    ensures forall i :: 0 <= i < |r| ==> !IsLower(r[i])
  {
    UpperStr(SubstituteAll(LowerStr(text)))
  }

  /** What one input character turns into. */
  function StylizeChar(c: char): (d: char) {
    Upper(Substitute(Lower(c)))
  }

  /** Over the modelled alphabet the pipeline acts position by position: the
      output has the input's length and its i-th character depends on the
      i-th input character only. */
  lemma StylizeAt(text: string, i: int)
    requires forall j :: 0 <= j < |text| ==> IsModelled(text[j])
    requires 0 <= i < |text|
    ensures |Stylize(text)| == |text|
    ensures Stylize(text)[i] == StylizeChar(text[i])
    ensures Lower(text[i]) in ReplaceMap ==> Stylize(text)[i] == ReplaceMap[Lower(text[i])]
    ensures Lower(text[i]) !in ReplaceMap ==> Stylize(text)[i] == Upper(text[i])
  {
    var c := text[i];
    CasePairing(c);
    if Lower(c) in ReplaceMap {
      var d := ReplaceMap[Lower(c)];
      assert IsUpper(d) && !IsLower(d);
    }
  }

  /** Stylizing a concatenation is concatenating the stylized parts. */
  lemma StylizeConcat(a: string, b: string)
    ensures Stylize(a + b) == Stylize(a) + Stylize(b)
  {
    LowerStrConcat(a, b);
    assert SubstituteAll(LowerStr(a) + LowerStr(b)) == SubstituteAll(LowerStr(a)) + SubstituteAll(LowerStr(b));
    UpperStrConcat(SubstituteAll(LowerStr(a)), SubstituteAll(LowerStr(b)));
  }

  predicate IsPlainTarget(c: char) {
    c == 'A' || c == 'E' || c == 'I' || c == 'O' || c == 'U' || c == 'S' || c == 'C'
  }

  /** On text over the modelled alphabet the output never holds a plain A, E,
      I, O, U, S or C: each of those letters, small or capital, comes out as
      its accented form. */
  lemma StylizeHidesPlainLetters(text: string)
    requires forall i :: 0 <= i < |text| ==> IsModelled(text[i])
    ensures forall i :: 0 <= i < |Stylize(text)| ==> !IsPlainTarget(Stylize(text)[i])
  {
    forall i | 0 <= i < |Stylize(text)|
      ensures !IsPlainTarget(Stylize(text)[i])
    {
      StylizeAt(text, i);
    }
  }

  /** A stylized character of the modelled alphabet is again one of it, and a
      fixed point of the character transform. */
  lemma StylizeCharIdempotent(c: char)
    requires IsModelled(c)
    ensures IsModelled(StylizeChar(c))
    ensures StylizeChar(StylizeChar(c)) == StylizeChar(c)
  {
    CasePairing(c);
    var d := Substitute(Lower(c));
    if Lower(c) in ReplaceMap {
      assert IsUpper(d) && !IsLower(d) && Lower(d) !in ReplaceMap;
    } else {
      CasePairing(d);
    }
  }

  /** On text over the modelled alphabet the output stays in that alphabet and
      stylizing it again changes nothing, so a second pass cannot double-encode. */
  lemma StylizeIdempotent(text: string)
    requires forall i :: 0 <= i < |text| ==> IsModelled(text[i])
    ensures forall i :: 0 <= i < |Stylize(text)| ==> IsModelled(Stylize(text)[i])
    ensures Stylize(Stylize(text)) == Stylize(text)
  {
    var s := Stylize(text);
    forall i | 0 <= i < |s|
      ensures IsModelled(s[i])
    {
      StylizeAt(text, i);
      StylizeCharIdempotent(text[i]);
    }
    forall i | 0 <= i < |s|
      ensures Stylize(s)[i] == s[i]
    {
      StylizeAt(text, i);
      StylizeAt(s, i);
      StylizeCharIdempotent(text[i]);
    }
  }

  /** The source's loop: accumulate the substituted characters of the
      lower-cased text, then upper-case the accumulation. */
  method StylizeText(text: string) returns (out: string)
    ensures out == Stylize(text)
  {
    var lowered := LowerStr(text);
    out := "";
    for i := 0 to |lowered|
      invariant |out| == i
      invariant forall j :: 0 <= j < i ==> out[j] == Substitute(lowered[j])
    {
      out := out + [Substitute(lowered[i])];
    }
    assert out == SubstituteAll(lowered);
    out := UpperStr(out);
  }
}
