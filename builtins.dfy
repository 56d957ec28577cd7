/** The two Python built-ins every handler leans on, on ASCII text:
    `str(n)` for an integer and `int(s)` for a decimal string, and the
    exceptions the scripts can raise. */
module Builtins {
  import opened Wrappers

  /** The Python exceptions the modelled code can raise. */
  datatype Fault =
    | NotAnInteger              // int(s) on text that is not a decimal integer: ValueError
    | TooDeep                   // calls nested past the interpreter's recursion limit: RecursionError
    | NoResponse                // int(None): TypeError
    | MissingProperty(name: string)  // reading an absent message property: AttributeError
    | Unset(attribute: string)  // an attribute that is None or was never assigned: AttributeError

  predicate IsDigit(c: char) {
    '0' <= c <= '9'
  }

  /** The characters `int()` ignores at both ends: space, \t, \n, \v, \f, \r. */
  predicate IsSpace(c: char) {
    c == ' ' || 9 <= c as int <= 13
  }

  function DigitChar(d: nat): (c: char)
    requires d < 10
    ensures IsDigit(c) && c as int - '0' as int == d
  {
    ('0' as int + d) as char
  }

  function DigitValue(c: char): (d: nat)
    requires IsDigit(c)
    ensures d < 10 && DigitChar(d) == c
  {
    c as int - '0' as int
  }

  predicate AllDigits(s: string) {
    forall i :: 0 <= i < |s| ==> IsDigit(s[i])
  }

  /** `str(n)` for n >= 0: the shortest decimal spelling. */
  function NatToStr(n: nat): (s: string)
    ensures |s| > 0 && AllDigits(s)
    ensures s[0] == '0' ==> n == 0 && s == "0"
  {
    if n < 10 then [DigitChar(n)] else NatToStr(n / 10) + [DigitChar(n % 10)]
  }

  /** `str(i)` for any integer: a minus sign exactly for a negative i, then
      the digits of |i| with no leading zero. */
  function IntToStr(i: int): (s: string)
    ensures var k := if i < 0 then 1 else 0;
      |s| > k && AllDigits(s[k..]) && (s[k] == '0' ==> i == 0)
    ensures s[0] == '-' <==> i < 0
  {
    if i < 0 then
      assert ("-" + NatToStr(-i))[1..] == NatToStr(-i);
      "-" + NatToStr(-i)
    else NatToStr(i)
  }

  /** Where `int()` is in its left-to-right reading of the text. */
  datatype Scan =
    | Leading                                               // blanks before the number
    | AfterSign(negative: bool)                             // just after '+' or '-'
    | InDigits(negative: bool, acc: nat, underscore: bool)  // reading digits; `underscore`: the last char was '_'
    | Trailing(value: int)                                  // blanks after the number

  function Signed(negative: bool, v: nat): int {
    if negative then -(v as int) else v
  }

  /** One character of the reading: blanks, then an optional sign, then
      digits with single underscores allowed between two digits ("1_000"),
      then blanks. None: the character makes the text a ValueError. */
  function Next(st: Scan, c: char): Option<Scan> {
    match st
    case Leading =>
      if IsSpace(c) then Some(Leading)
      else if c == '+' || c == '-' then Some(AfterSign(c == '-'))
      else if IsDigit(c) then Some(InDigits(false, DigitValue(c), false))
      else None
    case AfterSign(neg) =>
      if IsDigit(c) then Some(InDigits(neg, DigitValue(c), false)) else None
    case InDigits(neg, acc, underscore) =>
      if IsDigit(c) then Some(InDigits(neg, acc * 10 + DigitValue(c), false))
      else if c == '_' && !underscore then Some(InDigits(neg, acc, true))
      else if IsSpace(c) && !underscore then Some(Trailing(Signed(neg, acc)))
      else None
    case Trailing(v) =>
      if IsSpace(c) then Some(Trailing(v)) else None
  }

  /** Reading the whole of `s` from `st`: the state it ends in, or None once
      a character is refused. */
  function Feed(s: string, st: Scan): Option<Scan>
    decreases |s|
  {
    if s == [] then Some(st)
    else match Next(st, s[0])
      case None => None
      case Some(t) => Feed(s[1..], t)
  }

  /** The end of the text: a number must have been read, and not end in '_'. */
  function Finish(st: Scan): Option<int> {
    match st
    case InDigits(neg, acc, underscore) => if underscore then None else Some(Signed(neg, acc))
    case Trailing(v) => Some(v)
    case _ => None
  }

  /** `int(s)` for base-ten text: None stands for the ValueError. */
  function ParseInt(s: string): Option<int> {
    match Feed(s, Leading)
    case None => None
    case Some(st) => Finish(st)
  }

  /** `int(s)` as the scripts meet it: the value of the text, or a
      ValueError on text that is not an integer. Which texts are integers is
      stated, apart from the reading itself, by the lemmas below. */
  function Int(s: string): (r: Result<int, Fault>)
    ensures r.Success? <==> ParseInt(s).Some?
    ensures r.Success? ==> r.value == ParseInt(s).value
    ensures r.Failure? ==> r.error == NotAnInteger
  {
    match ParseInt(s)
    case Some(v) => Success(v)
    case None => Failure(NotAnInteger)
  }

  /** The number `acc` followed by the digits `s` spells. */
  function FoldDigits(acc: nat, s: string): nat
    requires AllDigits(s)
    decreases |s|
  {
    if s == [] then acc else FoldDigits(acc * 10 + DigitValue(s[0]), s[1..])
  }

  lemma {:induction false} FoldDigitsAppend(acc: nat, s: string, c: char)
    requires AllDigits(s) && IsDigit(c)
    ensures AllDigits(s + [c])
    ensures FoldDigits(acc, s + [c]) == FoldDigits(acc, s) * 10 + DigitValue(c)
    decreases |s|
  {
    if s != [] {
      assert (s + [c])[1..] == s[1..] + [c];
      FoldDigitsAppend(acc * 10 + DigitValue(s[0]), s[1..], c);
    } else {
      assert [c][1..] == [];
    }
  }

  lemma {:induction false} FoldDigitsOfNatToStr(n: nat)
    ensures FoldDigits(0, NatToStr(n)) == n
  {
    if n < 10 {
      assert NatToStr(n)[1..] == [];
    } else {
      FoldDigitsOfNatToStr(n / 10);
      FoldDigitsAppend(0, NatToStr(n / 10), DigitChar(n % 10));
    }
  }

  /** Reading `a + b` is reading `a` and then, from where that left off, `b`. */
  lemma {:induction false} FeedAppend(a: string, b: string, st: Scan)
    ensures Feed(a + b, st) == if Feed(a, st).None? then None else Feed(b, Feed(a, st).value)
    decreases |a|
  {
    if a == [] {
      assert a + b == b;
    } else {
      assert (a + b)[0] == a[0] && (a + b)[1..] == a[1..] + b;
      match Next(st, a[0])
      case None =>
      case Some(t) => FeedAppend(a[1..], b, t);
    }
  }

  /** A run of digits adds itself to the number being read. */
  lemma {:induction false} FeedDigits(s: string, neg: bool, acc: nat)
    requires AllDigits(s)
    ensures Feed(s, InDigits(neg, acc, false)) == Some(InDigits(neg, FoldDigits(acc, s), false))
    decreases |s|
  {
    if s != [] {
      FeedDigits(s[1..], neg, acc * 10 + DigitValue(s[0]));
    }
  }

  predicate Blanks(s: string) {
    forall i :: 0 <= i < |s| ==> IsSpace(s[i])
  }

  /** Blanks leave the reading where it was, before or after the number. */
  lemma {:induction false} FeedBlanks(p: string, st: Scan)
    requires Blanks(p) && (st == Leading || st.Trailing?)
    ensures Feed(p, st) == Some(st)
    decreases |p|
  {
    if p != [] {
      FeedBlanks(p[1..], st);
    }
  }

  /** The digits `str` writes for n, read at the start of the text or after
      a sign, leave the reader inside a number of value n. */
  lemma FeedNatToStr(n: nat, st: Scan)
    requires st == Leading || st.AfterSign?
    ensures Feed(NatToStr(n), st) == Some(InDigits(st.AfterSign? && st.negative, n, false))
  {
    var d := NatToStr(n);
    var neg := st.AfterSign? && st.negative;
    FoldDigitsOfNatToStr(n);
    FeedDigits(d[1..], neg, DigitValue(d[0]));
    assert FoldDigits(DigitValue(d[0]), d[1..]) == FoldDigits(0, d);
    assert Next(st, d[0]) == Some(InDigits(neg, DigitValue(d[0]), false));
  }

  /** What `str(i)` wrote leaves the reader inside the number i. */
  lemma FeedIntToStr(i: int)
    ensures Feed(IntToStr(i), Leading) == Some(InDigits(i < 0, if i < 0 then -i else i, false))
  {
    if i < 0 {
      FeedAppend("-", NatToStr(-i), Leading);
      FeedNatToStr(-i, AfterSign(true));
    } else {
      FeedNatToStr(i, Leading);
    }
  }

  /** Reading back what `str` wrote gives the number: int(str(i)) == i. */
  lemma ParseIntOfIntToStr(i: int)
    ensures ParseInt(IntToStr(i)) == Some(i)
  {
    FeedIntToStr(i);
  }

  /** `str` never maps two integers to one string. */
  lemma IntToStrInjective(i: int, j: int)
    requires IntToStr(i) == IntToStr(j)
    ensures i == j
  {
    ParseIntOfIntToStr(i);
    ParseIntOfIntToStr(j);
  }

  /** Blanks on either side of a number do not change it: int(" 42\n") == 42. */
  lemma PaddedReadsBack(p: string, i: int, q: string)
    requires Blanks(p) && Blanks(q)
    ensures ParseInt(p + IntToStr(i) + q) == Some(i)
  {
    var d := IntToStr(i);
    var n: nat := if i < 0 then -i else i;
    assert p + d + q == p + (d + q);
    FeedAppend(p, d + q, Leading);
    FeedBlanks(p, Leading);
    FeedAppend(d, q, Leading);
    FeedIntToStr(i);
    if q != [] {
      FeedBlanks(q[1..], Trailing(Signed(i < 0, n)));
    }
  }

  /** A plus sign is accepted and changes nothing: int("+7") == 7. */
  lemma PlusSignReadsBack(n: nat)
    ensures ParseInt("+" + NatToStr(n)) == Some(n)
  {
    FeedAppend("+", NatToStr(n), Leading);
    FeedNatToStr(n, AfterSign(false));
  }

  /** Text of blanks alone, the empty text included, is not an integer. */
  lemma BlanksAloneRejected(p: string)
    requires Blanks(p)
    ensures ParseInt(p) == None
  {
    FeedBlanks(p, Leading);
  }

  /** Once a digit has been read and accepted, the reader is inside a number
      with no pending underscore. */
  lemma FeedEndsInDigit(a: string, st: Scan)
    requires |a| > 0 && IsDigit(a[|a| - 1]) && Feed(a, st).Some?
    ensures Feed(a, st).value.InDigits? && !Feed(a, st).value.underscore
  {
    var k := |a| - 1;
    assert a == a[..k] + [a[k]];
    FeedAppend(a[..k], [a[k]], st);
  }

  /** An underscore between two digits is ignored: int("1_000") == int("1000"). */
  lemma UnderscoreBetweenDigits(a: string, b: string)
    requires |a| > 0 && IsDigit(a[|a| - 1]) && |b| > 0 && IsDigit(b[0])
    ensures ParseInt(a + "_" + b) == ParseInt(a + b)
  {
    assert a + "_" + b == a + ("_" + b);
    FeedAppend(a, "_" + b, Leading);
    FeedAppend(a, b, Leading);
    if Feed(a, Leading).Some? {
      FeedEndsInDigit(a, Leading);
      assert ("_" + b)[0] == '_' && ("_" + b)[1..] == b;
    }
  }

  /** An underscore not followed by a digit — at the end, doubled, or before
      a blank or a sign — makes the text a ValueError. */
  lemma DanglingUnderscoreRejected(a: string, b: string)
    requires b == [] || !IsDigit(b[0])
    ensures ParseInt(a + "_" + b) == None
  {
    assert a + "_" + b == a + ("_" + b);
    FeedAppend(a, "_" + b, Leading);
    assert ("_" + b)[0] == '_' && ("_" + b)[1..] == b;
  }

  /** An underscore where the number should start, after the blanks and the
      sign if any, makes the text a ValueError. */
  lemma LeadingUnderscoreRejected(p: string, sign: string, b: string)
    requires Blanks(p) && (sign == "" || sign == "+" || sign == "-")
    ensures ParseInt(p + sign + "_" + b) == None
  {
    assert p + sign + "_" + b == p + (sign + "_" + b);
    FeedAppend(p, sign + "_" + b, Leading);
    FeedBlanks(p, Leading);
    if sign != "" {
      assert (sign + "_" + b)[0] == sign[0] && (sign + "_" + b)[1..] == "_" + b;
    }
  }

  /** A blank inside the number ends it: nothing but blanks may follow. */
  lemma InnerBlankRejected(a: string, c: char, b: string)
    requires |a| > 0 && IsDigit(a[|a| - 1]) && IsSpace(c) && |b| > 0 && IsDigit(b[0])
    ensures ParseInt(a + [c] + b) == None
  {
    assert a + [c] + b == a + ([c] + b);
    FeedAppend(a, [c] + b, Leading);
    if Feed(a, Leading).Some? {
      FeedEndsInDigit(a, Leading);
      assert ([c] + b)[0] == c && ([c] + b)[1..] == b;
    }
  }

  predicate Zeros(z: string) {
    forall i :: 0 <= i < |z| ==> z[i] == '0'
  }

  /** Zeros at the start of the number, or after its sign, leave the reader
      inside a number of value 0. */
  lemma {:induction false} FeedZeros(z: string, st: Scan)
    requires Zeros(z) && (st == Leading || st.AfterSign? || (st.InDigits? && st.acc == 0 && !st.underscore))
    ensures Feed(z, st) == Some(if z == [] then st else InDigits(!st.Leading? && st.negative, 0, false))
    decreases |z|
  {
    if z != [] {
      var t := InDigits(!st.Leading? && st.negative, 0, false);
      assert Next(st, z[0]) == Some(t);
      FeedZeros(z[1..], t);
    }
  }

  /** Leading zeros are accepted and change nothing: int("007") == 7, and
      int("-0") == 0. */
  lemma ZeroPaddedReadsBack(z: string, n: nat)
    requires Zeros(z)
    ensures ParseInt(z + NatToStr(n)) == Some(n)
    ensures ParseInt("-" + z + NatToStr(n)) == Some(-(n as int))
  {
    var d := NatToStr(n);
    FoldDigitsOfNatToStr(n);
    FeedAppend(z, d, Leading);
    FeedZeros(z, Leading);
    FeedDigits(d, false, 0);
    FeedNatToStr(n, Leading);
    assert "-" + z + d == "-" + (z + d);
    FeedAppend("-", z + d, Leading);
    FeedAppend(z, d, AfterSign(true));
    FeedZeros(z, AfterSign(true));
    FeedDigits(d, true, 0);
    FeedNatToStr(n, AfterSign(true));
  }

  /** A sign is read only as the first thing after the leading blanks. */
  lemma {:induction false} FeedSignLate(a: string, st: Scan, c: char, b: string)
    requires c == '+' || c == '-'
    requires !(st == Leading && Blanks(a))
    ensures Feed(a + ([c] + b), st) == None
    decreases |a|
  {
    if a == [] {
      assert ([c] + b)[0] == c;
    } else {
      assert (a + ([c] + b))[0] == a[0] && (a + ([c] + b))[1..] == a[1..] + ([c] + b);
      match Next(st, a[0])
      case None =>
      case Some(t) =>
        if t == Leading && Blanks(a[1..]) {
          assert false;
        }
        FeedSignLate(a[1..], t, c, b);
    }
  }

  /** A sign anywhere but right after the leading blanks makes the text a
      ValueError: "1-2", "+-1", "5+". */
  lemma MisplacedSignRejected(a: string, c: char, b: string)
    requires (c == '+' || c == '-') && !Blanks(a)
    ensures ParseInt(a + [c] + b) == None
  {
    assert a + [c] + b == a + ([c] + b);
    FeedSignLate(a, Leading, c, b);
  }

  /** Any character other than a digit, a blank, a sign or '_' makes the text
      a ValueError, wherever it stands. */
  lemma ForeignCharRejected(a: string, c: char, b: string)
    requires !IsDigit(c) && !IsSpace(c) && c != '_' && c != '+' && c != '-'
    ensures ParseInt(a + [c] + b) == None
  {
    assert a + [c] + b == a + ([c] + b);
    FeedAppend(a, [c] + b, Leading);
    assert ([c] + b)[0] == c;
  }
}
