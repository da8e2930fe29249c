/** Text handling of an OpenStreetMap `voltage` tag: splitting at `;`,
    reading each piece as a decimal integer, and taking the largest value. */
module Voltage {
  import opened Wrappers

  const Separator: char := ';'

  /** Splits `s` at every `sep`, keeping empty pieces, as Python's `str.split(sep)` does. */
  function Split(s: string, sep: char): (r: seq<string>)
    ensures |r| >= 1
    ensures forall k :: 0 <= k < |r| ==> sep !in r[k]
    decreases |s|
  {
    if |s| == 0 then [""]
    else if s[0] == sep then [""] + Split(s[1..], sep)
    else
      var rest := Split(s[1..], sep);
      [[s[0]] + rest[0]] + rest[1..]
  }

  /** Glues pieces back together with `sep` between neighbours. */
  function Join(pieces: seq<string>, sep: char): string
    requires |pieces| >= 1
    decreases |pieces|
  {
    if |pieces| == 1 then pieces[0]
    else pieces[0] + [sep] + Join(pieces[1..], sep)
  }

  lemma {:induction false} JoinSplit(s: string, sep: char)
    ensures Join(Split(s, sep), sep) == s
    decreases |s|
  {
    if |s| == 0 {
    } else if s[0] == sep {
      JoinSplit(s[1..], sep);
      assert s == [sep] + s[1..];
    } else {
      var rest := Split(s[1..], sep);
      JoinSplit(s[1..], sep);
      if |rest| == 1 {
        assert s == [s[0]] + s[1..];
      } else {
        assert Join(rest, sep) == rest[0] + [sep] + Join(rest[1..], sep);
        assert ([[s[0]] + rest[0]] + rest[1..])[1..] == rest[1..];
        assert s == [s[0]] + s[1..];
      }
    }
  }

  lemma {:induction false} SplitJoin(pieces: seq<string>, sep: char)
    requires |pieces| >= 1
    requires forall k :: 0 <= k < |pieces| ==> sep !in pieces[k]
    ensures Split(Join(pieces, sep), sep) == pieces
    decreases |pieces|, |pieces[0]|
  {
    var p := pieces[0];
    if |p| == 0 {
      if |pieces| == 1 {
      } else {
        var tail := Join(pieces[1..], sep);
        assert Join(pieces, sep) == [sep] + tail;
        SplitJoin(pieces[1..], sep);
        assert pieces == [""] + pieces[1..];
      }
    } else {
      var shorter := [p[1..]] + pieces[1..];
      assert forall k :: 0 <= k < |shorter| ==> sep !in shorter[k] by {
        forall k | 0 <= k < |shorter| ensures sep !in shorter[k] {
          if k > 0 {
            assert shorter[k] == pieces[k];
          } else {
            assert forall c :: c in p[1..] ==> c in p;
          }
        }
      }
      SplitJoin(shorter, sep);
      JoinCons(pieces, sep);
      JoinCons(shorter, sep);
      assert shorter[1..] == pieces[1..];
      var s := Join(pieces, sep);
      assert s == [p[0]] + Join(shorter, sep);
      assert p[0] != sep by { assert p[0] in p; }
      assert s[0] == p[0] && s[1..] == Join(shorter, sep);
      var rest := Split(s[1..], sep);
      assert rest == shorter;
      assert [[p[0]] + p[1..]] + pieces[1..] == pieces by {
        assert [p[0]] + p[1..] == p;
      }
    }
  }

  /** The first piece of a join can be peeled off on its own. */
  lemma JoinCons(pieces: seq<string>, sep: char)
    requires |pieces| >= 1
    ensures Join(pieces, sep) == pieces[0] + (if |pieces| == 1 then "" else [sep] + Join(pieces[1..], sep))
  {
  }

  predicate IsDigit(c: char) {
    '0' <= c <= '9'
  }

  predicate AllDigits(s: string) {
    forall k :: 0 <= k < |s| ==> IsDigit(s[k])
  }

  /** A decimal integer literal: an optional sign followed by at least one ASCII digit.
      This is the part of Python's `int()` syntax the model accepts. */
  predicate IsIntLiteral(s: string) {
    if |s| > 0 && (s[0] == '+' || s[0] == '-') then |s| > 1 && AllDigits(s[1..])
    else |s| > 0 && AllDigits(s)
  }

  function DigitValue(c: char): (d: nat)
    requires IsDigit(c)
    ensures d < 10
  {
    (c as int) - ('0' as int)
  }

  /** The number a string of digits denotes, most significant digit first. */
  function DigitsValue(s: string): nat
    requires AllDigits(s)
    decreases |s|
  {
    if |s| == 0 then 0
    else DigitsValue(s[..|s| - 1]) * 10 + DigitValue(s[|s| - 1])
  }

  /** Python's `int(s)` restricted to `IsIntLiteral`: `None` stands for the `ValueError`. */
  function ParseInt(s: string): (r: Option<int>)
    ensures r.Some? <==> IsIntLiteral(s)
    ensures r.Some? && s[0] == '-' ==> r.value <= 0
    ensures r.Some? && s[0] != '-' ==> r.value >= 0
  {
    if !IsIntLiteral(s) then None
    else if s[0] == '-' then Some(-(DigitsValue(s[1..]) as int))
    else if s[0] == '+' then Some(DigitsValue(s[1..]))
    else Some(DigitsValue(s))
  }

  function DigitChar(d: nat): (c: char)
    requires d < 10
    ensures IsDigit(c) && DigitValue(c) == d
  {
    ('0' as int + d) as char
  }

  /** Decimal spelling of a natural number, without leading zeros. */
  function ShowNat(n: nat): (s: string)
    ensures |s| > 0 && AllDigits(s)
    decreases n
  {
    if n < 10 then [DigitChar(n)] else ShowNat(n / 10) + [DigitChar(n % 10)]
  }

  /** Decimal spelling of an integer, with `-` for negative numbers. */
  function ShowInt(n: int): string {
    if n < 0 then "-" + ShowNat(-n) else ShowNat(n)
  }

  lemma {:induction false} DigitsShowNat(n: nat)
    ensures DigitsValue(ShowNat(n)) == n
    decreases n
  {
    var s := ShowNat(n);
    if n >= 10 {
      DigitsShowNat(n / 10);
      assert s[..|s| - 1] == ShowNat(n / 10);
    }
  }

  /** Reading back a printed integer gives the integer: `int(str(n)) == n`. */
  lemma ParseShowInt(n: int)
    ensures IsIntLiteral(ShowInt(n))
    ensures ParseInt(ShowInt(n)) == Some(n)
  {
    if n < 0 {
      var s := ShowInt(n);
      assert s[1..] == ShowNat(-n);
      DigitsShowNat(-n);
    } else {
      DigitsShowNat(n);
      assert ShowNat(n)[0] != '-' && ShowNat(n)[0] != '+' by { assert IsDigit(ShowNat(n)[0]); }
    }
  }

  /** A leading zero does not change the value of a digit string. */
  lemma {:induction false} DigitsLeadingZero(d: string)
    requires AllDigits(d)
    ensures AllDigits("0" + d)
    ensures DigitsValue("0" + d) == DigitsValue(d)
    decreases |d|
  {
    assert forall k :: 0 < k <= |d| ==> ("0" + d)[k] == d[k - 1];
    if |d| > 0 {
      var n := |d| - 1;
      assert ("0" + d)[..|d|] == "0" + d[..n];
      assert forall k :: 0 <= k < n ==> d[..n][k] == d[k];
      DigitsLeadingZero(d[..n]);
    }
  }

  /** The value of every literal spelling, as `int()` reads it: digits denote their
      decimal value, `+` changes nothing, `-` negates, and leading zeros are ignored. */
  lemma LiteralForms(d: string)
    requires |d| > 0 && AllDigits(d)
    ensures ParseInt(d) == Some(DigitsValue(d))
    ensures ParseInt("+" + d) == ParseInt(d)
    ensures ParseInt("-" + d) == Some(-ParseInt(d).value)
    ensures ParseInt("0" + d) == ParseInt(d)
  {
    UnsignedLiteral(d);
    PlusLiteral(d);
    MinusLiteral(d);
    ZeroLiteral(d);
  }

  lemma PlusLiteral(d: string)
    requires |d| > 0 && AllDigits(d)
    ensures ParseInt("+" + d) == ParseInt(d)
  {
    UnsignedLiteral(d);
    SignedLiteral('+', d);
    assert "+" + d == ['+'] + d;
  }

  lemma MinusLiteral(d: string)
    requires |d| > 0 && AllDigits(d)
    ensures ParseInt("-" + d) == Some(-ParseInt(d).value)
  {
    UnsignedLiteral(d);
    SignedLiteral('-', d);
    assert "-" + d == ['-'] + d;
  }

  lemma ZeroLiteral(d: string)
    requires |d| > 0 && AllDigits(d)
    ensures ParseInt("0" + d) == ParseInt(d)
  {
    UnsignedLiteral(d);
    DigitsLeadingZero(d);
    UnsignedLiteral("0" + d);
  }

  lemma UnsignedLiteral(d: string)
    requires |d| > 0 && AllDigits(d)
    ensures ParseInt(d) == Some(DigitsValue(d))
  {
    assert IsDigit(d[0]);
  }

  lemma SignedLiteral(sign: char, d: string)
    requires sign == '+' || sign == '-'
    requires |d| > 0 && AllDigits(d)
    ensures ParseInt([sign] + d) == Some(if sign == '-' then -(DigitsValue(d) as int) else DigitsValue(d))
  {
    var s := [sign] + d;
    assert s[0] == sign && s[1..] == d;
  }

  lemma NonCanonicalLiterals()
    ensures ParseInt("+5") == Some(5)
    ensures ParseInt("007") == Some(7)
    ensures ParseInt("-0") == Some(0)
  {
    LiteralForms("5");
    LiteralForms("07");
    LiteralForms("7");
    LiteralForms("0");
    assert "+5" == "+" + "5" && "007" == "0" + "07" && "07" == "0" + "7" && "-0" == "-" + "0";
  }

  /** Every piece read as an integer: `None` as soon as one piece is not an integer literal. */
  function ParseAll(pieces: seq<string>): (r: Option<seq<int>>)
    ensures r.Some? <==> forall k :: 0 <= k < |pieces| ==> IsIntLiteral(pieces[k])
    ensures r.Some? ==> |r.value| == |pieces|
    ensures r.Some? ==> forall k :: 0 <= k < |pieces| ==> ParseInt(pieces[k]) == Some(r.value[k])
    decreases |pieces|
  {
    if |pieces| == 0 then Some([])
    else
      match ParseInt(pieces[0])
      case None => None
      case Some(v) =>
        match ParseAll(pieces[1..])
        case None => None
        case Some(vs) => Some([v] + vs)
  }

  /** Python's `max` over a non-empty list: an element that no element exceeds. */
  function MaxOf(xs: seq<int>): (m: int)
    requires |xs| > 0
    ensures m in xs
    ensures forall k :: 0 <= k < |xs| ==> xs[k] <= m
    decreases |xs|
  {
    if |xs| == 1 then xs[0]
    else
      var rest := MaxOf(xs[1..]);
      if xs[0] >= rest then xs[0] else rest
  }

  /** The pieces of a non-empty voltage tag are all integer literals. */
  predicate WellFormed(v: string) {
    |v| > 0 && ParseAll(Split(v, Separator)).Some?
  }

  /** The largest voltage a well-formed tag lists. */
  function MaxVoltage(v: string): (m: int)
    requires WellFormed(v)
    ensures exists k :: 0 <= k < |Split(v, Separator)| && ParseInt(Split(v, Separator)[k]) == Some(m)
    ensures forall k :: 0 <= k < |Split(v, Separator)| ==> ParseInt(Split(v, Separator)[k]).value <= m
  {
    var vs := ParseAll(Split(v, Separator)).value;
    MaxOf(vs)
  }
}
