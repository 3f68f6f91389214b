/** Keyword lookup of bot.py: the first table key that occurs in the
    lower-cased product name chooses the product's icon. */
module Icons {
  import opened CaseMap

  const Herb: string := "\U{1F33F}"                 // herb
  const Snow: string := "\U{2744}\U{FE0F}"          // snowflake with emoji presentation
  const Pill: string := "\U{1F48A}"                 // pill
  const TestTube: string := "\U{1F9EA}"             // test tube
  const DefaultIcon: string := "\U{1F539}"          // small blue diamond

  /** ICONS in its insertion order, which is the order Python iterates it in. */
  const IconTable: seq<(string, string)> := [
    ("weed", Herb),
    ("buch", Herb),
    ("marihuana", Herb),
    ("kokaina", Snow),
    ("koks", Snow),
    ("xanax", Pill),
    ("tabletki", Pill),
    ("mdma", Pill),
    ("lsd", TestTube)
  ]

  predicate OccursAt(k: string, s: string, i: int) {
    0 <= i && i + |k| <= |s| && s[i..i + |k|] == k
  }

  /** Python's `k in s` on two strings: k is a substring of s. */
  predicate OccursIn(k: string, s: string)
    ensures OccursIn(k, s) ==> |k| <= |s|
    ensures |k| == 0 ==> OccursIn(k, s)
  {
    assert |k| == 0 ==> OccursAt(k, s, 0);
    exists i | 0 <= i <= |s| - |k| :: OccursAt(k, s, i)
  }

  /** The value of the first entry of table whose key occurs in n, or the
      default icon when none does. */
  function FirstIcon(table: seq<(string, string)>, n: string): (r: string)
    ensures r == DefaultIcon || exists i :: 0 <= i < |table| && OccursIn(table[i].0, n) && r == table[i].1
  {
    if |table| == 0 then DefaultIcon
    else if OccursIn(table[0].0, n) then table[0].1
    else FirstIcon(table[1..], n)
  }

  /** pick_icon(name): the icon of a table key found in the lower-cased name,
      or the default icon. */
  function PickIcon(name: string): (r: string)
    ensures r == DefaultIcon ||
            exists i :: 0 <= i < |IconTable| && OccursIn(IconTable[i].0, LowerStr(name)) && r == IconTable[i].1
  {
    FirstIcon(IconTable, LowerStr(name))
  }

  /** FirstIcon returns the value of the earliest matching key. */
  lemma {:induction false} FirstIconSpec(table: seq<(string, string)>, n: string, j: int)
    requires 0 <= j < |table|
    requires OccursIn(table[j].0, n)
    requires forall i :: 0 <= i < j ==> !OccursIn(table[i].0, n)
    ensures FirstIcon(table, n) == table[j].1
  {
    if j > 0 {
      assert !OccursIn(table[0].0, n);
      FirstIconSpec(table[1..], n, j - 1);
    }
  }

  /** FirstIcon returns the default when no key matches. */
  lemma {:induction false} FirstIconNoMatch(table: seq<(string, string)>, n: string)
    requires forall i :: 0 <= i < |table| ==> !OccursIn(table[i].0, n)
    ensures FirstIcon(table, n) == DefaultIcon
  {
    if |table| > 0 {
      assert !OccursIn(table[0].0, n);
      FirstIconNoMatch(table[1..], n);
    }
  }

  /** When some key occurs, the result is the value of a key at or before it. */
  lemma {:induction false} FirstIconSomeMatch(table: seq<(string, string)>, n: string, j: int)
    requires 0 <= j < |table|
    requires OccursIn(table[j].0, n)
    ensures exists i :: 0 <= i <= j && FirstIcon(table, n) == table[i].1
  {
    if !OccursIn(table[0].0, n) {
      FirstIconSomeMatch(table[1..], n, j - 1);
      var i :| 0 <= i <= j - 1 && FirstIcon(table[1..], n) == table[1..][i].1;
      assert table[1..][i] == table[i + 1];
    }
  }

  /** pick_icon returns the icon of the first key, in table order, that is a
      substring of the lower-cased name. */
  lemma PickIconFirstMatch(name: string, j: int)
    requires 0 <= j < |IconTable|
    requires OccursIn(IconTable[j].0, LowerStr(name))
    requires forall i :: 0 <= i < j ==> !OccursIn(IconTable[i].0, LowerStr(name))
    ensures PickIcon(name) == IconTable[j].1
  {
    FirstIconSpec(IconTable, LowerStr(name), j);
  }

  /** pick_icon falls back to the default icon exactly when no key occurs in
      the lower-cased name. */
  lemma PickIconDefault(name: string)
    ensures PickIcon(name) == DefaultIcon <==>
            forall i :: 0 <= i < |IconTable| ==> !OccursIn(IconTable[i].0, LowerStr(name))
  {
    var n := LowerStr(name);
    if forall i :: 0 <= i < |IconTable| ==> !OccursIn(IconTable[i].0, n) {
      FirstIconNoMatch(IconTable, n);
    } else {
      var j :| 0 <= j < |IconTable| && OccursIn(IconTable[j].0, n);
      FirstIconSomeMatch(IconTable, n, j);
    }
  }

  /** Over the modelled alphabet the icon does not depend on how the name is
      cased. */
  lemma PickIconIgnoresCase(name: string)
    requires forall i :: 0 <= i < |name| ==> IsModelled(name[i])
    ensures PickIcon(UpperStr(name)) == PickIcon(name)
    ensures PickIcon(LowerStr(name)) == PickIcon(name)
  {
    LowerIgnoresCase(name);
  }

  /** The source's early-return scan over ICONS. */
  method PickIconScan(name: string) returns (icon: string)
    ensures icon == PickIcon(name)
  {
    var n := LowerStr(name);
    var k := 0;
    while k < |IconTable|
      invariant 0 <= k <= |IconTable|
      invariant FirstIcon(IconTable[k..], n) == PickIcon(name)
    {
      if OccursIn(IconTable[k].0, n) {
        return IconTable[k].1;
      }
      assert IconTable[k..][1..] == IconTable[k + 1..];
      k := k + 1;
    }
    return DefaultIcon;
  }
}
