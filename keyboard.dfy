/** The inline keyboards bot.py offers and the parsing of the callback data
    `count_<k>` that the amount buttons send back. */
module Keyboard {
  import opened Wrappers

  /** InlineKeyboardButton(caption, callback_data=data) */
  datatype Button = Button(caption: string, data: string)

  /** A keyboard is a list of rows of buttons. */
  type Markup = seq<seq<Button>>

  predicate IsDigit(c: char) {
    '0' <= c <= '9'
  }

  predicate AllDigits(s: string) {
    forall i :: 0 <= i < |s| ==> IsDigit(s[i])
  }

  function DigitChar(d: int): (c: char)
    requires 0 <= d < 10
    ensures IsDigit(c) && c as int - '0' as int == d
  {
    ('0' as int + d) as char
  }

  /** str(n) for a natural number: its decimal digits, most significant first. */
  function Digits(n: nat): (r: string)
    ensures |r| > 0 && AllDigits(r)
  {
    if n < 10 then [DigitChar(n)] else Digits(n / 10) + [DigitChar(n % 10)]
  }

  /** The number a string of decimal digits denotes. */
  function DigitsValue(s: string): (v: nat)
    requires AllDigits(s)
  {
    if |s| == 0 then 0 else DigitsValue(s[..|s| - 1]) * 10 + (s[|s| - 1] as int - '0' as int)
  }

  /** int(s), for an optionally signed string of ASCII decimal digits; None
      stands for the ValueError int raises. The empty string is refused, a
      string of digits denotes its decimal value, a signed one the value of
      its digits with the sign applied, and every other string is refused. */
  function ParseInt(s: string): (r: Option<int>)
    ensures |s| == 0 ==> r.None?
    ensures |s| > 0 && AllDigits(s) ==> r == Some(DigitsValue(s))
    ensures |s| > 1 && s[0] == '-' && AllDigits(s[1..]) ==> r == Some(0 - DigitsValue(s[1..]))
    ensures |s| > 1 && s[0] == '+' && AllDigits(s[1..]) ==> r == Some(DigitsValue(s[1..]))
    ensures r.Some? ==>
            (|s| > 0 && AllDigits(s)) || (|s| > 1 && (s[0] == '+' || s[0] == '-') && AllDigits(s[1..]))
    ensures r.Some? && r.value < 0 ==> s[0] == '-'
  {
    if |s| > 1 && (s[0] == '+' || s[0] == '-') && AllDigits(s[1..]) then
      Some(if s[0] == '-' then 0 - DigitsValue(s[1..]) else DigitsValue(s[1..]))
    else if |s| > 0 && AllDigits(s) then
      Some(DigitsValue(s))
    else
      None
  }

  /** s.split(sep): the pieces between the occurrences of sep, in order;
      there is always at least one. */
  function Split(s: string, sep: char): (r: seq<string>)
    ensures |r| > 0
  {
    if |s| == 0 then [""]
    else
      var rest := Split(s[1..], sep);
      if s[0] == sep then [""] + rest else [[s[0]] + rest[0]] + rest[1..]
  }

  /** int(data.split("_")[1]); None stands for the IndexError or ValueError
      raised. Data without an underscore is refused. */
  function ParseCount(data: string): (r: Option<int>)
    ensures r.Some? ==> '_' in data
  {
    SplitPieces(data, '_');
    var parts := Split(data, '_');
    if |parts| < 2 then None else ParseInt(parts[1])
  }

  /** "sep".join(parts), the inverse of Split. */
  function Join(parts: seq<string>, sep: char): (s: string)
    requires |parts| > 0
  {
    if |parts| == 1 then parts[0] else parts[0] + [sep] + Join(parts[1..], sep)
  }

  /** The amount keyboard of start: one row per amount 1..10, each button
      labelled str(i) and sending count_i. */
  function CountKeyboard(): (m: Markup)
    ensures |m| == 10
    ensures forall i :: 0 <= i < 10 ==> |m[i]| == 1
  {
    seq(10, i requires 0 <= i < 10 => [Button(Digits(i + 1), "count_" + Digits(i + 1))])
  }

  /** The single row of confirm and cancel buttons that collect offers; they
      send the data that publish and cancel are routed on. */
  function ConfirmKeyboard(): (m: Markup)
    ensures |m| == 1 && |m[0]| == 2
    ensures m[0][0].data == "send" && m[0][1].data == "cancel"
  {
    [[Button("\U{2705} WY\U{15A}LIJ", "send"), Button("\U{274C} ANULUJ", "cancel")]]
  }

  /** Reading back the digits str(n) writes gives n. */
  lemma {:induction false} DigitsRoundTrip(n: nat)
    ensures DigitsValue(Digits(n)) == n
  {
    if n >= 10 {
      var d := Digits(n);
      assert d[..|d| - 1] == Digits(n / 10);
      DigitsRoundTrip(n / 10);
    }
  }

  lemma ParseIntDigits(n: nat)
    ensures ParseInt(Digits(n)) == Some(n)
  {
    DigitsRoundTrip(n);
    var d := Digits(n);
    assert d[0] != '+' && d[0] != '-';
  }

  lemma {:induction false} SplitWithout(s: string, sep: char)
    requires forall i :: 0 <= i < |s| ==> s[i] != sep
    ensures Split(s, sep) == [s]
  {
    if |s| > 0 {
      SplitWithout(s[1..], sep);
      assert [s[0]] + s[1..] == s;
    }
  }

  /** No piece holds the separator, and there is more than one piece only
      when the string holds the separator. */
  lemma {:induction false} SplitPieces(s: string, sep: char)
    ensures forall k :: 0 <= k < |Split(s, sep)| ==> sep !in Split(s, sep)[k]
    ensures |Split(s, sep)| > 1 ==> sep in s
  {
    if |s| > 0 {
      SplitPieces(s[1..], sep);
      var rest := Split(s[1..], sep);
      if s[0] != sep {
        assert |rest| > 1 ==> sep in s[1..];
        assert ([s[0]] + rest[0])[1..] == rest[0];
      }
    }
  }

  /** Joining the pieces with the separator gives back the string split. */
  lemma {:induction false} SplitJoin(s: string, sep: char)
    ensures Join(Split(s, sep), sep) == s
  {
    if |s| > 0 {
      var rest := Split(s[1..], sep);
      SplitJoin(s[1..], sep);
      if s[0] == sep {
        assert Split(s, sep) == [""] + rest;
        assert ([""] + rest)[1..] == rest;
        assert [s[0]] + s[1..] == s;
      } else if |rest| == 1 {
        assert [s[0]] + s[1..] == s;
      } else {
        var head := [s[0]] + rest[0];
        assert Split(s, sep) == [head] + rest[1..];
        assert ([head] + rest[1..])[1..] == rest[1..];
        assert Join(rest, sep) == rest[0] + [sep] + Join(rest[1..], sep);
        assert head + [sep] + Join(rest[1..], sep) == [s[0]] + (rest[0] + [sep] + Join(rest[1..], sep));
        assert [s[0]] + s[1..] == s;
      }
    }
  }

  /** Splitting at the first separator peels off the piece before it. */
  lemma {:induction false} SplitAtFirst(p: string, sep: char, t: string)
    requires forall i :: 0 <= i < |p| ==> p[i] != sep
    ensures Split(p + [sep] + t, sep) == [p] + Split(t, sep)
  {
    if |p| == 0 {
      assert p + [sep] + t == [sep] + t;
      assert ([sep] + t)[1..] == t;
    } else {
      assert (p + [sep] + t)[1..] == p[1..] + [sep] + t;
      SplitAtFirst(p[1..], sep, t);
      assert [p[0]] + p[1..] == p;
    }
  }

  /** The piece after the first underscore decides: data made of a piece p,
      an underscore, a piece q and a rest that is empty or starts with another
      underscore parses exactly as int(q) does, refused when q is not a number. */
  lemma ParseCountPiece(p: string, q: string, t: string)
    requires '_' !in p && '_' !in q
    requires t == [] || t[0] == '_'
    ensures ParseCount(p + "_" + q + t) == ParseInt(q)
  {
    assert p + "_" + q + t == p + ['_'] + (q + t);
    SplitAtFirst(p, '_', q + t);
    if t == [] {
      assert q + t == q;
      SplitWithout(q, '_');
    } else {
      assert q + t == q + ['_'] + t[1..];
      SplitAtFirst(q, '_', t[1..]);
    }
  }

  /** The callback data count_k is read back as k. */
  lemma ParseCountOf(k: nat)
    ensures ParseCount("count_" + Digits(k)) == Some(k)
  {
    var d := Digits(k);
    assert "count_" + d == "count" + ['_'] + d;
    SplitAtFirst("count", '_', d);
    SplitWithout(d, '_');
    ParseIntDigits(k);
  }

  /** Every amount button sends back the amount written on it, and the
      amounts run from 1 to 10 in order: choose_count can only receive one of
      these through the keyboard. */
  lemma CountKeyboardRoundTrip(i: int)
    requires 0 <= i < 10
    ensures |CountKeyboard()| == 10
    ensures |CountKeyboard()[i]| == 1
    ensures ParseCount(CountKeyboard()[i][0].data) == Some(i + 1)
    ensures ParseInt(CountKeyboard()[i][0].caption) == Some(i + 1)
  {
    ParseCountOf(i + 1);
    ParseIntDigits(i + 1);
  }
}
