// Decimal text and separator-joined fields, as the signed text uses them.
module ControlText {
  import opened Types

  const BAR := '|'

  // ---------- integers ----------

  function DigitChar(d: nat): char
    requires d < 10
  {
    "0123456789"[d]
  }

  predicate IsDigit(c: char) {
    '0' <= c <= '9'
  }

  function NatText(n: nat): (s: string)
    ensures s != "" && forall c :: c in s ==> IsDigit(c)
  {
    if n < 10 then [DigitChar(n)] else NatText(n / 10) + [DigitChar(n % 10)]
  }

  function NatOf(s: string): nat
    requires forall c :: c in s ==> IsDigit(c)
  {
    if s == "" then 0 else
      var c := s[|s| - 1];
      assert c in s && IsDigit(c);
      10 * NatOf(s[..|s| - 1]) + (c as int - '0' as int)
  }

  lemma {:induction false} NatRoundTrip(n: nat)
    ensures NatOf(NatText(n)) == n
  {
    if n < 10 {
      assert NatText(n)[..0] == "";
    } else {
      NatRoundTrip(n / 10);
      assert NatText(n)[..|NatText(n)| - 1] == NatText(n / 10);
    }
  }

  function IntText(n: int): string {
    if n < 0 then "-" + NatText(-n) else NatText(n)
  }

  lemma DigitsInOrder(d: nat)
    requires d < 10
    ensures NatText(d) == [('0' as int + d) as char] && NatOf(NatText(d)) == d
  {
    NatRoundTrip(d);
  }

  lemma IntTextSign(n: int)
    ensures IntText(n) != "" && (n < 0 <==> IntText(n)[0] == '-')
  {
    if n >= 0 { assert NatText(n)[0] in NatText(n); }
  }

  lemma IntTextIsInjective(m: int, n: int)
    requires IntText(m) == IntText(n)
    ensures m == n
  {
    IntTextSign(m);
    IntTextSign(n);
    if m < 0 {
      assert NatText(-m) == IntText(m)[1..] == IntText(n)[1..] == NatText(-n);
    }
    NatRoundTrip(if m < 0 then -m else m);
    NatRoundTrip(if n < 0 then -n else n);
  }

  // ---------- numerals ----------

  predicate NumeralChar(c: char) {
    IsDigit(c) || c == '-' || c == '+' || c == '.' || c == 'e'
  }

  function IndexOf(s: string, c: char): (i: nat)
    ensures i <= |s| && c !in s[..i]
    ensures i < |s| ==> s[i] == c
    ensures i == |s| <==> c !in s
  {
    if s == "" then 0 else if s[0] == c then 0 else
      assert forall i: nat :: i <= |s[1..]| ==> s[..i + 1] == [s[0]] + s[1..][..i];
      1 + IndexOf(s[1..], c)
  }

  // The decimal point moved by n places.
  function Shift(x: real, n: nat, right: bool): real
    decreases n
  {
    if n == 0 then x else Shift(if right then x * 10.0 else x / 10.0, n - 1, right)
  }

  function DigitsValue(s: string): Option<nat> {
    if s != "" && (forall c :: c in s ==> IsDigit(c)) then Some(NatOf(s)) else None
  }

  // Whole digits, and part digits over so many places.
  function Pointed(whole: Option<nat>, part: Option<nat>, places: nat): Option<real> {
    if whole.None? || part.None? then None
    else Some(whole.value as real + Shift(part.value as real, places, false))
  }

  // digits [ '.' digits ]
  function DecimalValue(s: string): Option<real> {
    var i := IndexOf(s, '.');
    if i == |s| then Pointed(DigitsValue(s), Some(0), 0)
    else Pointed(DigitsValue(s[..i]), DigitsValue(s[i + 1..]), |s| - i - 1)
  }

  // decimal [ 'e' ('+'|'-') digits ]
  function ScientificValue(s: string): Option<real> {
    var i := IndexOf(s, 'e');
    if i == |s| then DecimalValue(s)
    else if i + 1 == |s| || (s[i + 1] != '+' && s[i + 1] != '-') then None
    else
      var m, x := DecimalValue(s[..i]), DigitsValue(s[i + 2..]);
      if m.None? || x.None? then None else Some(Shift(m.value, x.value, s[i + 1] == '+'))
  }

  // float(): the value of a canonical numeral, or None for text that is not one.
  function Float(s: string): Option<real> {
    if s != "" && s[0] == '-' then
      var x := ScientificValue(s[1..]);
      if x.None? then None else Some(-x.value)
    else ScientificValue(s)
  }

  // A printed integer reads as that integer ...
  lemma FloatOfInteger(n: int)
    ensures Float(IntText(n)) == Some(n as real)
  {
    var m := if n < 0 then -n else n;
    NatRoundTrip(m);
    IntTextSign(n);
    WholeValue(NatText(m), m);
    if n < 0 { assert IntText(n)[1..] == NatText(m); }
  }

  lemma DigitsHaveNoMark(s: string, n: nat)
    requires DigitsValue(s) == Some(n)
    ensures '.' !in s && 'e' !in s && s[0] != '-'
  {
    assert s[0] in s;
  }

  lemma WholeValue(s: string, n: nat)
    requires DigitsValue(s) == Some(n)
    ensures ScientificValue(s) == Some(n as real)
  {
    DigitsHaveNoMark(s, n);
  }

  lemma PointBetween(s: string, whole: string, part: string, a: nat, b: nat)
    requires DigitsValue(whole) == Some(a) && DigitsValue(part) == Some(b) && s == whole + ['.'] + part
    ensures IndexOf(s, '.') == |whole| < |s| && s[..|whole|] == whole && s[|whole| + 1..] == part
    ensures 'e' !in s && s[0] != '-'
  {
    DigitsHaveNoMark(whole, a);
    DigitsHaveNoMark(part, b);
    assert s[..|whole|] == whole;
    IndexOfFirst(s, '.', |whole|);
  }

  lemma DecimalAt(s: string, whole: string, part: string)
    requires IndexOf(s, '.') == |whole| < |s| && s[..|whole|] == whole && s[|whole| + 1..] == part
    ensures DecimalValue(s) == Pointed(DigitsValue(whole), DigitsValue(part), |part|)
  {
  }

  lemma WithoutExponent(s: string)
    requires 'e' !in s
    ensures ScientificValue(s) == DecimalValue(s)
  {
  }

  // ... a minus changes the sign of what follows ...
  lemma SignedFloat(s: string, t: string)
    requires s != "" && s[0] != '-' && t == ['-'] + s
    ensures Float(s) == ScientificValue(s)
    ensures Float(t) == if ScientificValue(s).Some? then Some(-ScientificValue(s).value) else None
  {
    assert t[1..] == s;
  }

  lemma {:induction false} ShiftAdds(x: real, y: real, n: nat)
    ensures Shift(x + y, n, true) == Shift(x, n, true) + Shift(y, n, true)
    decreases n
  {
    if n > 0 { ShiftAdds(x * 10.0, y * 10.0, n - 1); }
  }

  lemma {:induction false} ShiftTen(x: real, n: nat)
    ensures Shift(x * 10.0, n, true) == Shift(x, n, true) * 10.0
    decreases n
  {
    if n > 0 { ShiftTen(x * 10.0, n - 1); }
  }

  lemma {:induction false} ShiftBack(x: real, n: nat)
    ensures Shift(Shift(x, n, false), n, true) == x
    decreases n
  {
    if n > 0 {
      ShiftBack(x / 10.0, n - 1);
      ShiftTen(Shift(x, n, false), n - 1);
    }
  }

  // Two runs of digits read as one number: the first with its point moved behind the second.
  lemma {:induction false} NatConcat(a: string, b: string)
    requires forall c :: c in a + b ==> IsDigit(c)
    requires (forall c :: c in a ==> IsDigit(c)) && (forall c :: c in b ==> IsDigit(c))
    ensures NatOf(a + b) as real == Shift(NatOf(a) as real, |b|, true) + NatOf(b) as real
    decreases |b|
  {
    if b == "" {
      assert a + b == a;
    } else {
      var front := b[..|b| - 1];
      assert (a + b)[..|a + b| - 1] == a + front;
      NatConcat(a, front);
      ShiftTen(NatOf(a) as real, |front|);
    }
  }

  // ... a decimal reads as the number whose point, moved right past its fraction, gives the integer of all
  // its digits ...
  lemma DecimalReads(s: string, whole: string, part: string, a: nat, b: nat)
    requires DigitsValue(whole) == Some(a) && DigitsValue(part) == Some(b) && s == whole + ['.'] + part
    ensures s[0] != '-' && ScientificValue(s).Some? && DigitsValue(whole + part).Some?
    ensures Shift(ScientificValue(s).value, |part|, true) == DigitsValue(whole + part).value as real
  {
    PointBetween(s, whole, part, a, b);
    DecimalAt(s, whole, part);
    WithoutExponent(s);
    NatConcat(whole, part);
    ShiftBack(b as real, |part|);
    ShiftAdds(a as real, Shift(b as real, |part|, false), |part|);
  }

  // ... and an exponent moves the point of what stands before it, to the right for a plus and to the left
  // for a minus.
  lemma ExponentReads(s: string, m: string, x: string, n: nat, plus: bool)
    requires 'e' !in m && DigitsValue(x) == Some(n) && s == m + ['e', if plus then '+' else '-'] + x
    ensures ScientificValue(s).Some? <==> DecimalValue(m).Some?
    ensures ScientificValue(s).Some? ==>
              if plus then ScientificValue(s).value == Shift(DecimalValue(m).value, n, true)
              else Shift(ScientificValue(s).value, n, true) == DecimalValue(m).value
  {
    assert s[..|m|] == m && s[|m| + 2..] == x;
    IndexOfFirst(s, 'e', |m|);
    if !plus && DecimalValue(m).Some? { ShiftBack(DecimalValue(m).value, n); }
  }

  // The point moves by tens.
  lemma OnePlace(x: real)
    ensures Shift(x, 0, true) == x && Shift(x, 1, true) == 10.0 * x
  {
  }

  predicate AllNumeral(s: string) {
    forall c :: c in s ==> NumeralChar(c)
  }

  lemma NumeralParts(a: string, b: string)
    requires AllNumeral(a) && AllNumeral(b)
    ensures AllNumeral(a + b)
  {
  }

  lemma ScientificChars(s: string)
    requires ScientificValue(s).Some?
    ensures AllNumeral(s)
  {
    var i := IndexOf(s, 'e');
    if i == |s| {
      DecimalChars(s);
    } else {
      DecimalChars(s[..i]);
      NumeralParts([s[i + 1]], s[i + 2..]);
      AtPosition(s[i + 1..], 0);
      assert s[i + 1..][1..] == s[i + 2..] && s[i + 1..][..0] + [s[i + 1]] == [s[i + 1]];
      NumeralParts(s[..i], [s[i]]);
      NumeralParts(s[..i] + [s[i]], s[i + 1..]);
      AtPosition(s, i);
    }
  }

  lemma DecimalChars(s: string)
    requires DecimalValue(s).Some?
    ensures AllNumeral(s)
  {
    var i := IndexOf(s, '.');
    if i < |s| {
      NumeralParts([s[i]], s[i + 1..]);
      NumeralParts(s[..i], [s[i]] + s[i + 1..]);
      assert s[i..] == [s[i]] + s[i + 1..];
      assert s == s[..i] + s[i..];
    } else {
      assert s[..i] == s;
    }
  }

  lemma NumeralsUseNumeralChars(s: string)
    requires Float(s).Some?
    ensures AllNumeral(s)
  {
    if s != "" && s[0] == '-' {
      ScientificChars(s[1..]);
      NumeralParts([s[0]], s[1..]);
      AtPosition(s, 0);
      assert s[..0] + [s[0]] == [s[0]];
    } else {
      ScientificChars(s);
    }
  }

  // ---------- joined fields ----------

  function Join(fields: seq<string>): string
    requires fields != []
  {
    if |fields| == 1 then fields[0] else fields[0] + [BAR] + Join(fields[1..])
  }

  function Split(s: string): (fields: seq<string>)
    ensures fields != []
    decreases |s|
  {
    var i := IndexOf(s, BAR);
    if i == |s| then [s] else [s[..i]] + Split(s[i + 1..])
  }

  lemma {:induction false} IndexOfFirst(s: string, c: char, k: nat)
    requires k < |s| && s[k] == c && c !in s[..k]
    ensures IndexOf(s, c) == k
  {
    if k > 0 {
      assert s[0] == s[..k][0];
      assert s[1..][..k - 1] == s[..k][1..];
      IndexOfFirst(s[1..], c, k - 1);
    }
  }

  lemma SplitCons(a: string, rest: string)
    requires BAR !in a
    ensures Split(a + [BAR] + rest) == [a] + Split(rest)
  {
    var s := a + [BAR] + rest;
    assert s[..|a|] == a && s[|a| + 1..] == rest;
    IndexOfFirst(s, BAR, |a|);
  }

  lemma AtPosition(s: string, i: nat)
    requires i < |s|
    ensures s == s[..i] + [s[i]] + s[i + 1..]
  {
  }

  // The first field of a text that holds a separator.
  lemma SplitFirst(s: string) returns (a: string, rest: string)
    requires BAR in s
    ensures s == a + [BAR] + rest && BAR !in a && |rest| < |s|
  {
    var i := IndexOf(s, BAR);
    a, rest := s[..i], s[i + 1..];
    AtPosition(s, i);
  }

  lemma Regroup(a: string, b: string, c: string)
    ensures (a + [BAR] + b) + [BAR] + c == a + [BAR] + (b + [BAR] + c)
  {
  }

  lemma SplitConcatStep(first: string, rest: string, b: string)
    requires BAR !in first && Split(rest + [BAR] + b) == Split(rest) + Split(b)
    ensures Split((first + [BAR] + rest) + [BAR] + b) == Split(first + [BAR] + rest) + Split(b)
  {
    var whole := rest + [BAR] + b;
    Regroup(first, rest, b);
    SplitCons(first, whole);
    SplitCons(first, rest);
    Associate([first], Split(rest), Split(b));
  }

  lemma Associate(a: seq<string>, b: seq<string>, c: seq<string>)
    ensures a + (b + c) == (a + b) + c
  {
  }

  lemma {:induction false} SplitConcat(a: string, b: string)
    ensures Split(a + [BAR] + b) == Split(a) + Split(b)
    decreases |a|
  {
    if BAR !in a {
      SplitCons(a, b);
      assert Split(a) == [a];
    } else {
      var first, rest := SplitFirst(a);
      SplitConcat(rest, b);
      SplitConcatStep(first, rest, b);
    }
  }

  lemma JoinCons(a: string, fields: seq<string>)
    requires fields != []
    ensures Join([a] + fields) == a + [BAR] + Join(fields)
  {
    assert ([a] + fields)[1..] == fields;
  }

  lemma {:induction false} JoinSplit(s: string)
    ensures Join(Split(s)) == s
    decreases |s|
  {
    if BAR in s {
      var first, rest := SplitFirst(s);
      SplitCons(first, rest);
      JoinSplit(rest);
      JoinCons(first, Split(rest));
    } else {
      assert Split(s) == [s];
    }
  }

  // Splitting joined fields that hold no separator gives the fields back.
  lemma {:induction false} SplitJoin(fields: seq<string>)
    requires fields != [] && forall f :: f in fields ==> BAR !in f
    ensures Split(Join(fields)) == fields
  {
    if |fields| > 1 {
      SplitCons(fields[0], Join(fields[1..]));
      SplitJoin(fields[1..]);
    }
  }

  lemma {:induction false} JoinConcat(a: seq<string>, b: seq<string>)
    requires a != [] && b != []
    ensures Join(a + b) == Join(a) + [BAR] + Join(b)
  {
    if |a| == 1 {
      assert (a + b)[1..] == b;
    } else {
      JoinConcat(a[1..], b);
      assert (a + b)[1..] == a[1..] + b;
    }
  }
}
