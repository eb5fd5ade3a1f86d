// Exactly which texts the ledger reader accepts, and as what: the forms of numbers, scalars, entries and documents.
module LedgerTextLanguage {
  import opened Options
  import opened PythonText
  import opened LedgerText
  import opened LedgerTextRoundTrip

  // --- Numbers ---

  // No leading zero.
  ghost predicate Whole(s: string) {
    |s| > 0 && AllDigits(s) && (s[0] == '0' ==> |s| == 1)
  }

  // Nothing, or the mark, an optional sign and digits.
  ghost predicate ExponentForm(text: string, downward: bool, digits: string) {
    if digits == "" then text == "" && !downward
    else
      && AllDigits(digits)
      && if downward then text == "e-" + digits || text == "E-" + digits
         else text == "e" + digits || text == "E" + digits || text == "e+" + digits || text == "E+" + digits
  }

  // An optional minus sign, the whole part, an optional point and fraction, and an optional exponent.
  datatype Number = Number(negative: bool, whole: string, part: string, exponent: string, downward: bool,
                           digits: string)

  ghost function Written(n: Number): string {
    (if n.negative then "-" else "") + Unsigned(n)
  }

  ghost function Unsigned(n: Number): string {
    if n.part == "" then n.whole + n.exponent else n.whole + ("." + (n.part + n.exponent))
  }

  ghost predicate ValidNumber(n: Number) {
    Whole(n.whole) && AllDigits(n.part) && ExponentForm(n.exponent, n.downward, n.digits)
  }

  ghost function Size(n: Number): real {
    Numeral(n.whole) as real + Numeral(n.part) as real / PowerOfTen(|n.part|)
  }

  ghost function Value(n: Number): real {
    var signed := if n.negative then -Size(n) else Size(n);
    var power := if Numeral(n.digits) >= 0 then PowerOfTen(Numeral(n.digits)) else 1.0;
    if n.downward then signed / power else signed * power
  }

  ghost predicate Writes(n: Number, s: string, x: real) {
    ValidNumber(n) && Written(n) == s && Value(n) == x
  }

  ghost predicate NumberForm(s: string, x: real) {
    exists n: Number :: Writes(n, s, x)
  }

  lemma {:induction false} NumeralNonNegative(s: string)
    requires AllDigits(s)
    ensures Numeral(s) >= 0
  {
    if |s| > 0 {
      NumeralNonNegative(s[..|s| - 1]);
    }
  }

  // Where a text splits into two parts.
  lemma Segments(s: string, i: nat, a: string, b: string)
    requires i <= |s| && s[i..] == a + b
    ensures i + |a| <= |s| && s[i..i + |a|] == a && s[i + |a|..] == b
    ensures forall k :: i <= k < i + |a| ==> s[k] == a[k - i]
    ensures b != "" ==> i + |a| < |s| && s[i + |a|] == b[0]
  {
    assert |s[i..]| == |a| + |b|;
    forall k | i <= k < i + |a|
      ensures s[k] == a[k - i]
    {
      assert s[i..][k - i] == (a + b)[k - i];
    }
    if b != "" {
      assert s[i..][|a|] == (a + b)[|a|];
    }
  }

  // Digits and then something else.
  lemma DigitsRead(s: string, i: nat, digits: string, rest: string)
    requires i <= |s| && s[i..] == digits + rest && AllDigits(digits) && (rest != "" ==> !Digit(rest[0]))
    ensures DigitsEnd(s, i) == i + |digits| <= |s| && s[i..i + |digits|] == digits && s[i + |digits|..] == rest
    ensures rest != "" ==> i + |digits| < |s| && s[i + |digits|] == rest[0]
  {
    Segments(s, i, digits, rest);
    DigitsEndIs(s, i, i + |digits|);
  }

  lemma FractionWhole(s: string, i: nat, whole: string, rest: string)
    requires i <= |s| && s[i..] == whole + rest && Whole(whole)
    requires rest != "" ==> !Digit(rest[0]) && rest[0] != '.'
    ensures Fraction(s, i) == Some((PointValue(whole, ""), |s| - |rest|))
    ensures |rest| <= |s| && s[|s| - |rest|..] == rest && s[i] == whole[0]
  {
    hide PointValue, DigitsEnd;
    DigitsRead(s, i, whole, rest);
    assert s[i] == whole[0];
  }

  lemma FractionPoint(s: string, i: nat, whole: string, part: string, rest: string)
    requires i <= |s| && s[i..] == whole + ("." + (part + rest)) && Whole(whole) && AllDigits(part) && part != ""
    requires rest != "" ==> !Digit(rest[0])
    ensures Fraction(s, i) == Some((PointValue(whole, part), |s| - |rest|))
    ensures |rest| <= |s| && s[|s| - |rest|..] == rest && s[i] == whole[0]
  {
    hide PointValue, DigitsEnd;
    DigitsRead(s, i, whole, "." + (part + rest));
    assert s[i] == whole[0];
    var w := i + |whole|;
    assert s[w + 1..] == part + rest by {
      assert s[w..][1..] == s[w + 1..];
    }
    DigitsRead(s, w + 1, part, rest);
  }

  lemma ExponentStart(text: string, downward: bool, digits: string)
    requires ExponentForm(text, downward, digits) && digits != ""
    ensures |text| >= 2 && (text[0] == 'e' || text[0] == 'E') && (downward <==> text[1] == '-')
    ensures var d := if text[1] == '+' || text[1] == '-' then 2 else 1; d < |text| && text[d..] == digits
    ensures AllDigits(digits)
  {
    assert Digit(digits[0]);
  }

  lemma RestAfter(n: Number)
    requires ValidNumber(n)
    ensures n.exponent != "" <==> n.digits != ""
    ensures n.exponent != "" ==> !Digit(n.exponent[0]) && n.exponent[0] != '.'
  {
    if n.digits != "" {
      ExponentStart(n.exponent, n.downward, n.digits);
    }
  }

  lemma UnsignedRead(n: Number, s: string, i: nat)
    requires ValidNumber(n) && i <= |s| && s[i..] == Unsigned(n)
    ensures Fraction(s, i) == Some((PointValue(n.whole, n.part), |s| - |n.exponent|))
    ensures |n.exponent| <= |s| && s[|s| - |n.exponent|..] == n.exponent && i < |s| && Digit(s[i])
  {
    hide Fraction, PointValue, ExponentForm;
    RestAfter(n);
    if n.part == "" {
      FractionWhole(s, i, n.whole, n.exponent);
    } else {
      FractionPoint(s, i, n.whole, n.part, n.exponent);
    }
    assert Digit(n.whole[0]);
  }

  lemma SignRead(sign: string, rest: string)
    requires sign == "-" || (sign == "" && rest != "" && Digit(rest[0]))
    ensures StartsWith(sign + rest, "-") <==> sign == "-"
    ensures (sign + rest)[|sign|..] == rest
  {
    var s := sign + rest;
    assert s[..1] == [s[0]];
  }

  // The sign, the whole part and the fraction of a written number.
  lemma MantissaRead(n: Number)
    requires ValidNumber(n)
    ensures var s := Written(n);
            && |n.exponent| <= |s| && s[|s| - |n.exponent|..] == n.exponent
            && (StartsWith(s, "-") <==> n.negative) && (n.negative ==> |s| > 0)
            && Fraction(s, if n.negative then 1 else 0) ==
               Some((PointValue(n.whole, n.part), |s| - |n.exponent|))
  {
    hide Fraction, PointValue, ExponentForm, StartsWith, Whole, Unsigned, ValidNumber;
    UnsignedStart(n);
    SignRead(if n.negative then "-" else "", Unsigned(n));
    UnsignedRead(n, Written(n), if n.negative then 1 else 0);
  }

  lemma UnsignedStart(n: Number)
    requires ValidNumber(n)
    ensures Unsigned(n) != "" && Digit(Unsigned(n)[0])
  {
    hide ExponentForm;
    assert Unsigned(n)[0] == n.whole[0];
  }

  // The exponent of a written number.
  lemma ExponentRead(s: string, end: nat, downward: bool, digits: string)
    requires end <= |s| && ExponentForm(s[end..], downward, digits) && digits != ""
    ensures end + 1 < |s| && (s[end] == 'e' || s[end] == 'E') && (downward <==> s[end + 1] == '-')
    ensures var d := if s[end + 1] == '+' || s[end + 1] == '-' then end + 2 else end + 1;
            d < |s| && s[d..] == digits && DigitsEnd(s, d) == |s|
  {
    hide ExponentForm;
    ExponentStart(s[end..], downward, digits);
    var d := if s[end + 1] == '+' || s[end + 1] == '-' then end + 2 else end + 1;
    assert s[d..] == s[end..][d - end..];
    assert s[d..] == digits + "";
    DigitsRead(s, d, digits, "");
  }

  lemma ReadPlain(s: string, x: real)
    requires Fraction(s, if StartsWith(s, "-") then 1 else 0) == Some((x, |s|))
    ensures NumberText(s) == Some(if StartsWith(s, "-") then -x else x)
  {
    hide Fraction, Scaled, Natural;
  }

  ghost predicate Exponent(s: string, end: nat, d: nat) {
    && end < d < |s| && (s[end] == 'e' || s[end] == 'E')
    && d == (if s[end + 1] == '+' || s[end + 1] == '-' then end + 2 else end + 1)
    && DigitsEnd(s, d) == |s|
  }

  lemma ReadExponent(s: string, x: real, end: nat, d: nat)
    requires Fraction(s, if StartsWith(s, "-") then 1 else 0) == Some((x, end)) && Exponent(s, end, d)
    ensures NumberText(s) ==
            Some(Scaled(if StartsWith(s, "-") then -x else x, s[end + 1] == '-', Natural(s[d..])))
  {
    hide Fraction, Scaled, Natural, DigitsEnd, StartsWith;
  }

  lemma NeedsExponent(s: string)
    requires NumberText(s).Some?
    ensures var f := Fraction(s, if StartsWith(s, "-") then 1 else 0);
            && f.Some?
            && var end := f.value.1;
               end < |s| ==> Exponent(s, end, if end + 1 < |s| && (s[end + 1] == '+' || s[end + 1] == '-') then end + 2
                                              else end + 1)
  {
    hide Fraction, Scaled, Natural, DigitsEnd, StartsWith;
  }

  // Every written number is read as its value.
  lemma NumberIsRead(n: Number)
    requires ValidNumber(n)
    ensures NumberText(Written(n)) == Some(Value(n))
  {
    hide Fraction, PointValue, ExponentForm, Whole, DigitsEnd, StartsWith, NumberText, Scaled, Natural, Size, Value,
      Written;
    MantissaRead(n);
    RestAfter(n);
    SizeIs(n);
    var s := Written(n);
    var end := |s| - |n.exponent|;
    if n.digits == "" {
      NoExponent(n);
      ReadPlain(s, Size(n));
    } else {
      ExponentRead(s, end, n.downward, n.digits);
      ReadExponent(s, Size(n), end, if s[end + 1] == '+' || s[end + 1] == '-' then end + 2 else end + 1);
      ValueIs(n);
    }
  }

  lemma ValueIs(n: Number)
    requires ValidNumber(n) && n.digits != ""
    ensures Value(n) == Scaled(if n.negative then -Size(n) else Size(n), n.downward, Natural(n.digits))
  {
    ExponentStart(n.exponent, n.downward, n.digits);
    NumeralNonNegative(n.digits);
  }

  lemma SizeIs(n: Number)
    ensures Size(n) == PointValue(n.whole, n.part)
  {
  }

  lemma NoExponent(n: Number)
    requires ValidNumber(n) && n.digits == ""
    ensures n.exponent == "" && Value(n) == (if n.negative then -Size(n) else Size(n))
  {
    assert Numeral("") == 0 && PowerOfTen(0) == 1.0;
  }

  // The two ways a fraction is read: with a point and digits after it, or without.
  lemma FractionCases(s: string, i: nat)
    requires i <= |s| && Fraction(s, i).Some?
    ensures var w := DigitsEnd(s, i);
            && i < w && (s[i] == '0' ==> w == i + 1)
            && if w < |s| && s[w] == '.'
               then var d := DigitsEnd(s, w + 1);
                    d > w + 1 && Fraction(s, i) == Some((PointValue(s[i..w], s[w + 1..d]), d))
               else Fraction(s, i) == Some((PointValue(s[i..w], ""), w))
  {
    hide PointValue, DigitsEnd;
  }

  lemma DigitsCut(s: string, i: nat)
    requires i <= |s|
    ensures var w := DigitsEnd(s, i); AllDigits(s[i..w]) && s[i..] == s[i..w] + s[w..]
    ensures var w := DigitsEnd(s, i); i < w ==> s[i..w][0] == s[i]
  {
  }

  lemma PointCut(s: string, w: nat)
    requires w < |s| && s[w] == '.'
    ensures s[w..] == "." + s[w + 1..]
  {
  }

  // What a read fraction looks like.
  lemma FractionSays(s: string, i: nat) returns (whole: string, part: string)
    requires i <= |s| && Fraction(s, i).Some?
    ensures Whole(whole) && AllDigits(part)
    ensures var (x, end) := Fraction(s, i).value;
            && i <= end <= |s| && x == PointValue(whole, part)
            && s[i..] == if part == "" then whole + s[end..] else whole + ("." + (part + s[end..]))
  {
    hide Fraction, PointValue, DigitsEnd, AllDigits;
    NoDigits();
    FractionCases(s, i);
    DigitsCut(s, i);
    var w := DigitsEnd(s, i);
    whole, part := s[i..w], "";
    if w < |s| && s[w] == '.' {
      PointCut(s, w);
      DigitsCut(s, w + 1);
      part := s[w + 1..DigitsEnd(s, w + 1)];
    }
  }

  lemma NoDigits()
    ensures AllDigits("")
  {
  }

  lemma ExponentWritten(s: string, end: nat, d: nat)
    requires Exponent(s, end, d)
    ensures ExponentForm(s[end..], s[end + 1] == '-', s[d..])
  {
    assert s[end..] == s[end..d] + s[d..];
    if d == end + 2 {
      assert s[end..d] == [s[end], s[end + 1]];
    } else {
      assert s[end..d] == [s[end]];
      assert Digit(s[end + 1]);
    }
  }

  // The parts of a text that is read as a number.
  lemma NumberParts(s: string) returns (n: Number)
    requires NumberText(s).Some?
    ensures Written(n) == s && ValidNumber(n) && n.negative == StartsWith(s, "-")
    ensures Fraction(s, if n.negative then 1 else 0) == Some((PointValue(n.whole, n.part), |s| - |n.exponent|))
  {
    hide PointValue, Fraction, ExponentForm, StartsWith, Whole, DigitsEnd, NumberText, Exponent, AllDigits, Written;
    NeedsExponent(s);
    SignFits(s);
    var negative := StartsWith(s, "-");
    var start := if negative then 1 else 0;
    var whole, part := FractionSays(s, start);
    var end := Fraction(s, start).value.1;
    if end == |s| {
      Nothing();
      n := Number(negative, whole, part, "", false, "");
    } else {
      var digits := if end + 1 < |s| && (s[end + 1] == '+' || s[end + 1] == '-') then end + 2 else end + 1;
      ExponentWritten(s, end, digits);
      ExponentIn(s, end, digits);
      n := Number(negative, whole, part, s[end..], s[end + 1] == '-', s[digits..]);
    }
    assert n.exponent == s[end..];
    WrittenIs(n, s);
  }

  lemma ExponentIn(s: string, end: nat, d: nat)
    requires Exponent(s, end, d)
    ensures end < d < |s|
  {
  }

  lemma SignFits(s: string)
    ensures StartsWith(s, "-") ==> |s| > 0
  {
  }

  lemma WrittenIs(n: Number, s: string)
    requires n.negative == StartsWith(s, "-") && s[if n.negative then 1 else 0..] == Unsigned(n)
    ensures Written(n) == s
  {
    hide Unsigned;
    if n.negative {
      assert s == s[..1] + s[1..];
    }
  }

  lemma Nothing()
    ensures ExponentForm("", false, "")
  {
  }

  // Every number that is read was written so.
  lemma NumberSays(s: string)
    requires NumberText(s).Some?
    ensures NumberForm(s, NumberText(s).value)
  {
    hide NumberText;
    var n := NumberParts(s);
    NumberIsRead(n);
    assert Writes(n, s, NumberText(s).value);
  }

  // A text is read as a number exactly when it is written as one.
  lemma NumberIff(s: string, x: real)
    ensures NumberText(s) == Some(x) <==> NumberForm(s, x)
  {
    hide NumberText;
    if n: Number :| Writes(n, s, x) {
      NumberIsRead(n);
    }
    if NumberText(s) == Some(x) {
      NumberSays(s);
    }
  }

  // --- Scalars ---

  // Undoing the doubling of quotes succeeds exactly on doubled text.
  lemma {:induction false} UnquotedIff(inner: string, s: string)
    ensures Unquoted(inner) == Some(s) <==> inner == Doubled(s)
    decreases |inner|
  {
    DoubledThenUnquoted(s);
    if Unquoted(inner) == Some(s) && inner != "" {
      if inner[0] != '\'' {
        UnquotedIff(inner[1..], Unquoted(inner[1..]).value);
        assert s[1..] == Unquoted(inner[1..]).value;
        assert inner == [inner[0]] + inner[1..];
      } else {
        UnquotedIff(inner[2..], Unquoted(inner[2..]).value);
        assert s[1..] == Unquoted(inner[2..]).value;
        assert inner == "''" + inner[2..];
      }
    }
  }

  ghost predicate Clean(raw: string) {
    && raw != "" && !IsSpace(raw[0]) && !IsSpace(raw[|raw| - 1])
    && forall k :: 0 <= k < |raw| ==> raw[k] as int >= 0x20
  }

  // a and then b somewhere in the text.
  ghost predicate HasPair(s: string, a: char, b: char) {
    exists k :: 0 <= k < |s| - 1 && s[k] == a && s[k + 1] == b
  }

  // Text that stands for itself: no indicator, no mark of a comment or a mapping, no other reading.
  ghost predicate Plain(lib: Library, field: string, raw: string)
    requires raw != ""
  {
    && raw[0] !in {'\'', '\"', '!', '&', '*', '{', '}', '[', ']', ',', '#', '|', '>', '@', '`'}
    && (|raw| >= 2 && raw[1] == ' ' ==> raw[0] !in {'-', '?', ':'})
    && !HasPair(raw, ' ', '#') && !HasPair(raw, ':', ' ') && raw[|raw| - 1] != ':'
    && lib.casefold(raw) !in {"null", "~", "true", "false", "yes", "no", "on", "off",
                              ".nan", ".inf", "+.inf", "-.inf"}
    && (forall x :: !NumberForm(raw, x)) && field != "occurred_at"
  }

  // Single quotes around the text with its quotes doubled, a JSON string, or the text itself.
  ghost predicate ScalarForm(lib: Library, field: string, raw: string, s: string) {
    && Clean(raw)
    && (|| raw == "'" + Doubled(s) + "'"
        || (raw[0] == '\"' && lib.json(raw) == Some(s))
        || (raw == s && Plain(lib, field, raw)))
  }

  lemma ContainsPair(s: string, a: char, b: char)
    ensures Contains(s, [a, b]) <==> HasPair(s, a, b)
  {
    if k :| 0 <= k < |s| - 1 && s[k] == a && s[k + 1] == b {
      assert s[k..][..2] == [a, b];
    }
    if i :| 0 <= i <= |s| && StartsWith(s[i..], [a, b]) {
      assert s[i] == s[i..][..2][0] && s[i + 1] == s[i..][..2][1];
    }
  }

  lemma StartsPair(s: string, a: char, b: char)
    ensures StartsWith(s, [a, b]) <==> |s| >= 2 && s[0] == a && s[1] == b
  {
    if |s| >= 2 {
      assert s[..2] == [s[0], s[1]];
    }
  }

  lemma Indicators(c: char)
    ensures c in INDICATORS <==> c in {'!', '&', '*', '{', '}', '[', ']', ',', '#', '|', '>', '@', '`'}
  {
    var s := INDICATORS;
    assert s[0] == '!' && s[1] == '&' && s[2] == '*' && s[3] == '{' && s[4] == '}' && s[5] == '[' && s[6] == ']';
    assert s[7] == ',' && s[8] == '#' && s[9] == '|' && s[10] == '>' && s[11] == '@' && s[12] == '`';
  }

  lemma Implicits(s: string)
    ensures s in IMPLICIT <==>
            s in {"null", "~", "true", "false", "yes", "no", "on", "off", ".nan", ".inf", "+.inf", "-.inf"}
  {
    var t := IMPLICIT;
    assert t[0] == "null" && t[1] == "~" && t[2] == "true" && t[3] == "false" && t[4] == "yes" && t[5] == "no";
    assert t[6] == "on" && t[7] == "off" && t[8] == ".nan" && t[9] == ".inf" && t[10] == "+.inf" && t[11] == "-.inf";
  }

  lemma PlainIff(lib: Library, field: string, raw: string)
    requires raw != ""
    ensures Plain(lib, field, raw) <==> raw[0] != '\'' && raw[0] != '\"' && !UnsafePlain(lib, field, raw)
  {
    hide NumberText, Contains, StartsWith, HasPair, INDICATORS, IMPLICIT;
    StartsPair(raw, '-', ' ');
    StartsPair(raw, '?', ' ');
    StartsPair(raw, ':', ' ');
    ContainsPair(raw, ' ', '#');
    ContainsPair(raw, ':', ' ');
    Indicators(raw[0]);
    Implicits(lib.casefold(raw));
    NumberOrNone(raw);
  }

  lemma NumberOrNone(s: string)
    ensures NumberText(s).Some? <==> exists x :: NumberForm(s, x)
  {
    hide NumberText;
    if NumberText(s).Some? {
      NumberIff(s, NumberText(s).value);
    }
    if x :| NumberForm(s, x) {
      NumberIff(s, x);
    }
  }

  lemma CleanIff(raw: string)
    ensures Clean(raw) <==> WellFormedScalar(raw)
  {
  }

  // A scalar is read as s exactly when it has one of the three forms of s.
  lemma ScalarIff(lib: Library, field: string, raw: string, s: string)
    ensures Scalar(lib, field, raw) == Some(s) <==> ScalarForm(lib, field, raw, s)
  {
    hide Clean, WellFormedScalar, Plain, UnsafePlain;
    CleanIff(raw);
    if Clean(raw) {
      CleanNotEmpty(raw);
      PlainIff(lib, field, raw);
      PlainStart(lib, field, raw);
      if raw == "'" + Doubled(s) + "'" {
        assert raw[0] == '\'' && raw[|raw| - 1] == '\'' && raw[1..|raw| - 1] == Doubled(s);
      }
      if raw[0] == '\'' && |raw| >= 2 && raw[|raw| - 1] == '\'' {
        UnquotedIff(raw[1..|raw| - 1], s);
        assert raw == "'" + raw[1..|raw| - 1] + "'";
      }
    }
  }

  lemma CleanNotEmpty(raw: string)
    requires Clean(raw)
    ensures raw != ""
  {
  }

  lemma PlainStart(lib: Library, field: string, raw: string)
    requires raw != ""
    ensures Plain(lib, field, raw) ==> raw[0] != '\'' && raw[0] != '\"'
  {
  }

  // --- Lines ---

  ghost predicate HasScalar(lib: Library, line: string, prefix: string, field: string, s: string) {
    exists raw :: line == prefix + raw && ScalarForm(lib, field, raw, s)
  }

  ghost predicate HasNumber(line: string, prefix: string, x: real) {
    (exists raw :: line == prefix + raw && NumberForm(raw, x)) && -OVERFLOW < x < OVERFLOW
  }

  lemma AfterIff(lines: seq<string>, index: nat, prefix: string, raw: string)
    ensures After(lines, index, prefix) == Some(raw) <==> index < |lines| && lines[index] == prefix + raw
  {
    if index < |lines| && lines[index] == prefix + raw {
      AfterPrefix(lines, index, prefix, raw);
    }
    if After(lines, index, prefix) == Some(raw) {
      assert lines[index] == lines[index][..|prefix|] + lines[index][|prefix|..];
    }
  }

  lemma ScalarAtIff(lib: Library, lines: seq<string>, index: nat, prefix: string, field: string, s: string)
    ensures ScalarAt(lib, lines, index, prefix, field) == Some(s) <==>
            index < |lines| && HasScalar(lib, lines[index], prefix, field, s)
  {
    hide Scalar, ScalarForm, After;
    if After(lines, index, prefix).Some? {
      AfterIff(lines, index, prefix, After(lines, index, prefix).value);
      ScalarIff(lib, field, After(lines, index, prefix).value, s);
    }
    if index < |lines| {
      forall raw | lines[index] == prefix + raw
        ensures After(lines, index, prefix) == Some(raw)
      {
        AfterIff(lines, index, prefix, raw);
      }
    }
  }

  lemma NumberAtIff(lines: seq<string>, index: nat, prefix: string, x: real)
    ensures NumberAt(lines, index, prefix) == Some(x) <==> index < |lines| && HasNumber(lines[index], prefix, x)
  {
    hide NumberText, NumberForm, After, PowerOfTwo;
    if After(lines, index, prefix).Some? {
      AfterIff(lines, index, prefix, After(lines, index, prefix).value);
      NumberIff(After(lines, index, prefix).value, x);
    }
    if index < |lines| {
      forall raw | lines[index] == prefix + raw
        ensures After(lines, index, prefix) == Some(raw)
      {
        AfterIff(lines, index, prefix, raw);
      }
    }
  }

  // --- Entries ---

  ghost function LinesOf(e: TextEntry): nat {
    if e.entryId.None? then 5 else 6
  }

  // The five lines of an entry in their order, and the line of its id when it has one.
  ghost predicate EntryForm(lib: Library, e: TextEntry, lines: seq<string>) {
    && |lines| == LinesOf(e)
    && HasScalar(lib, lines[0], "- kind: ", "kind", e.kind)
    && HasNumber(lines[1], "  amount_usd: ", e.amount)
    && HasScalar(lib, lines[2], "  description: ", "description", e.description)
    && HasScalar(lib, lines[3], "  status: ", "status", e.status)
    && HasScalar(lib, lines[4], "  occurred_at: ", "occurred_at", e.occurredAt)
    && (e.entryId.Some? ==> HasScalar(lib, lines[5], "  entry_id: ", "entry_id", e.entryId.value))
  }

  lemma FieldsAre()
    ensures Field("amount_usd") == "  amount_usd: " && Field("description") == "  description: "
    ensures Field("status") == "  status: " && Field("occurred_at") == "  occurred_at: "
    ensures Field("entry_id") == "  entry_id: " && KIND == "- kind: "
    ensures Field("gpu") == "  gpu: " && Field("api") == "  api: " && Field("total") == "  total: "
  {
  }

  lemma ReadEntryIff(lib: Library, lines: seq<string>, index: nat, e: TextEntry)
    requires index <= |lines|
    ensures ReadEntry(lib, lines, index) == Some((e, index + LinesOf(e))) <==>
            && index + LinesOf(e) <= |lines| && EntryForm(lib, e, lines[index..index + LinesOf(e)])
            && (e.entryId.None? ==> After(lines, index + 5, "  entry_id: ").None?)
    ensures ReadEntry(lib, lines, index).Some? ==>
              ReadEntry(lib, lines, index).value.1 == index + LinesOf(ReadEntry(lib, lines, index).value.0)
  {
    hide ScalarAt, NumberAt, HasScalar, HasNumber, After, Field, KIND;
    FieldsAre();
    ScalarAtIff(lib, lines, index, "- kind: ", "kind", e.kind);
    NumberAtIff(lines, index + 1, "  amount_usd: ", e.amount);
    ScalarAtIff(lib, lines, index + 2, "  description: ", "description", e.description);
    ScalarAtIff(lib, lines, index + 3, "  status: ", "status", e.status);
    ScalarAtIff(lib, lines, index + 4, "  occurred_at: ", "occurred_at", e.occurredAt);
    if e.entryId.Some? {
      ScalarAtIff(lib, lines, index + 5, "  entry_id: ", "entry_id", e.entryId.value);
      ScalarNeedsLine(lib, lines, index + 5, "  entry_id: ", "entry_id");
    }
  }

  lemma ScalarNeedsLine(lib: Library, lines: seq<string>, index: nat, prefix: string, field: string)
    ensures ScalarAt(lib, lines, index, prefix, field).Some? ==> After(lines, index, prefix).Some?
  {
  }

  // Entry after entry, with nothing in between.
  ghost predicate EntriesForm(lib: Library, entries: seq<TextEntry>, lines: seq<string>) {
    if entries == [] then lines == []
    else
      var n := LinesOf(entries[0]);
      && n <= |lines| && EntryForm(lib, entries[0], lines[..n]) && EntriesForm(lib, entries[1..], lines[n..])
  }

  lemma {:induction false} EntriesSay(lib: Library, lines: seq<string>, index: nat)
    requires index <= |lines| && ReadEntries(lib, lines, index).Some?
    ensures EntriesForm(lib, ReadEntries(lib, lines, index).value, lines[index..])
    decreases |lines| - index
  {
    hide ReadEntry, EntryForm;
    if index < |lines| {
      var (e, next) := ReadEntry(lib, lines, index).value;
      ReadEntryIff(lib, lines, index, e);
      EntriesSay(lib, lines, next);
      Skip(lines, index, next);
    }
  }

  lemma Skip(lines: seq<string>, index: nat, next: nat)
    requires index <= next <= |lines|
    ensures lines[index..][next - index..] == lines[next..] && lines[index..][..next - index] == lines[index..next]
  {
  }

  lemma {:induction false} EntriesFollow(lib: Library, lines: seq<string>, index: nat, entries: seq<TextEntry>)
    requires index <= |lines| && EntriesForm(lib, entries, lines[index..])
    ensures ReadEntries(lib, lines, index) == Some(entries)
    decreases |lines| - index
  {
    hide ReadEntry, EntryForm, After;
    if entries != [] {
      var next := index + LinesOf(entries[0]);
      Skip(lines, index, next);
      ReadEntryIff(lib, lines, index, entries[0]);
      NextIsKind(lib, lines, next, entries[1..]);
      EntriesFollow(lib, lines, next, entries[1..]);
      assert [entries[0]] + entries[1..] == entries;
    }
  }

  lemma EntriesIff(lib: Library, lines: seq<string>, index: nat, entries: seq<TextEntry>)
    requires index <= |lines|
    ensures ReadEntries(lib, lines, index) == Some(entries) <==> EntriesForm(lib, entries, lines[index..])
  {
    hide ReadEntries, EntriesForm;
    if ReadEntries(lib, lines, index).Some? {
      EntriesSay(lib, lines, index);
    }
    if EntriesForm(lib, entries, lines[index..]) {
      EntriesFollow(lib, lines, index, entries);
    }
  }

  // What follows an entry is another entry or nothing, so never a stray id.
  lemma NextIsKind(lib: Library, lines: seq<string>, index: nat, rest: seq<TextEntry>)
    requires index <= |lines| && EntriesForm(lib, rest, lines[index..])
    ensures After(lines, index, "  entry_id: ").None?
  {
    hide HasNumber, ScalarForm;
    if rest != [] {
      assert lines[index..][..LinesOf(rest[0])][0] == lines[index];
      var raw :| lines[index] == "- kind: " + raw;
      assert lines[index][..8] == "- kind: ";
      OneStart(lines[index], "- kind: ", "  entry_id: ");
    }
  }

  // --- Documents ---

  // Header, hard stops, and the entries under their heading; no entries may also be written as an empty list.
  ghost predicate DocumentForm(lib: Library, d: Document, lines: seq<string>) {
    && |lines| >= 7
    && lines[0] == "schema_version: 1" && lines[1] == "currency: USD" && lines[2] == "hard_stops:"
    && HasNumber(lines[3], "  gpu: ", d.gpu) && HasNumber(lines[4], "  api: ", d.api)
    && HasNumber(lines[5], "  total: ", d.total)
    && (lines[6] == "entries:" || (lines[6] == "entries: []" && d.entries == []))
    && EntriesForm(lib, d.entries, lines[7..])
  }

  lemma LinesIff(lib: Library, lines: seq<string>, d: Document)
    ensures ReadLines(lib, lines) == Some(d) <==> DocumentForm(lib, d, lines)
  {
    hide NumberAt, HasNumber, ReadEntries, Field, HEADER;
    if |lines| >= 7 {
      FieldsAre();
      HeaderIs(lines);
      NumberAtIff(lines, 3, "  gpu: ", d.gpu);
      NumberAtIff(lines, 4, "  api: ", d.api);
      NumberAtIff(lines, 5, "  total: ", d.total);
      EntriesIff(lib, lines, 7, d.entries);
      assert |"entries: []"| != |"entries:"|;
      if |lines| == 7 {
        assert lines[7..] == [];
      }
    }
  }

  lemma HeaderIs(lines: seq<string>)
    requires |lines| >= 7
    ensures lines[..3] == HEADER <==>
            lines[0] == "schema_version: 1" && lines[1] == "currency: USD" && lines[2] == "hard_stops:"
  {
    assert lines[..3] == [lines[0], lines[1], lines[2]];
  }

  // The line breaks of str.splitlines, by code point.
  ghost predicate Break(c: char) {
    c as int in {0x0a, 0x0b, 0x0c, 0x0d, 0x1c, 0x1d, 0x1e, 0x85, 0x2028, 0x2029}
  }

  // The lines of a text, each without a break and followed by one.
  ghost predicate LinesIn(text: string, lines: seq<string>) {
    if lines == [] then text == ""
    else
      var n := |lines[0]|;
      && n < |text| && text[..n] == lines[0] && (forall k :: 0 <= k < n ==> !Break(text[k])) && Break(text[n])
      && LinesIn(text[n + 1..], lines[1..])
  }

  lemma BreakIs(c: char)
    ensures Break(c) <==> IsBreak(c)
  {
  }

  lemma FirstBreak(text: string, lines: seq<string>)
    requires text != "" && IsBreak(text[|text| - 1]) && lines != []
    ensures LineEnd(text, 0) < |text|
    ensures LinesIn(text, lines) <==>
            lines[0] == text[..LineEnd(text, 0)] && LinesIn(text[LineEnd(text, 0) + 1..], lines[1..])
  {
    hide IsBreak, Break;
    forall c {
      BreakIs(c);
    }
    if LinesIn(text, lines) {
      LineEndIs(text, 0, |lines[0]|);
    }
  }

  lemma {:induction false} SplitIff(text: string, lines: seq<string>)
    requires text == "" || IsBreak(text[|text| - 1])
    ensures LinesIn(text, lines) <==> lines == SplitLines(text)
    decreases |text|
  {
    hide IsBreak, Break, LineEnd;
    if text != "" && lines != [] {
      FirstBreak(text, lines);
      var rest := text[LineEnd(text, 0) + 1..];
      if rest != "" {
        assert rest[|rest| - 1] == text[|text| - 1];
      }
      SplitIff(rest, lines[1..]);
      assert [lines[0]] + lines[1..] == lines;
    }
  }

  // The reader accepts exactly the texts of these forms, each as the one document it writes.
  lemma LoadedIff(lib: Library, text: string, d: Document)
    ensures Loaded(lib, text) == Some(d) <==>
            && '\r' !in text && '\t' !in text && text != "" && text[|text| - 1] == '\n'
            && exists lines :: LinesIn(text, lines) && DocumentForm(lib, d, lines)
  {
    hide ReadLines, SplitLines, LinesIn, DocumentForm;
    if text != "" && text[|text| - 1] == '\n' {
      forall lines: seq<string>
        ensures LinesIn(text, lines) <==> lines == SplitLines(text)
      {
        SplitIff(text, lines);
      }
      LinesIff(lib, SplitLines(text), d);
    }
  }
}
