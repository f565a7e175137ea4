/**
  What a format prints, without the steps of printer_vprintf: how a written directive is read, and
  what its field looks like for text and for numbers.
 */
module FormatText {
  import opened CInts
  import opened Printf
  import opened Util

  // ----- reading a directive

  /** How a width or a precision is written: not at all, as a bare '.', as a number, or as '*'. */
  datatype Amount = Absent | Bare | Given(n: nat) | Star

  function WidthText(w: Amount): string {
    match w
    case Given(n) => Digits(n, 10, true)
    case Star => "*"
    case _ => ""
  }

  function PrecisionText(p: Amount): string {
    match p
    case Absent => ""
    case Bare => "."
    case Given(n) => "." + Digits(n, 10, true)
    case Star => ".*"
  }

  /** The directive between '%' and the conversion character, as it is written. */
  function Written(flags: string, w: Amount, p: Amount, size: string): string {
    flags + WidthText(w) + PrecisionText(p) + size
  }

  predicate AllFlags(s: string) {
    forall k :: 0 <= k < |s| ==> s[k] == '#' || s[k] == '0' || s[k] == '-' || s[k] == ' ' || s[k] == '+'
  }

  predicate AllDecimal(s: string) { forall k :: 0 <= k < |s| ==> '0' <= s[k] <= '9' }

  predicate AllSizes(s: string) { forall k :: 0 <= k < |s| ==> s[k] == 'l' || s[k] == 'z' }

  function FlagsIn(s: string): Flags { Flags('#' in s, '0' in s, '-' in s, ' ' in s, '+' in s) }

  /** The value of a width or precision, given the next argument. */
  function AmountValue(a: Amount, arg: Arg): int {
    match a
    case Absent => -1
    case Bare => 0
    case Given(n) => n
    case Star => ToInt32(arg.word)
  }

  function ArgsAfter(a: Amount, args: seq<Arg>): seq<Arg> {
    if a.Star? && args != [] then args[1..] else args
  }

  /** `text` stands in `f` from position `i` on. */
  predicate StandsAt(f: string, i: nat, text: string) { i + |text| <= |f| && f[i..i + |text|] == text }

  /** Position `i` is the end of the format or a character that cannot belong to the directive before
      its conversion character. */
  predicate EndsAt(f: string, i: nat) {
    i <= |f|
    && (i < |f| ==>
          && f[i] != '#' && f[i] != '-' && f[i] != ' ' && f[i] != '+' && !('0' <= f[i] <= '9')
          && f[i] != '*' && f[i] != '.' && f[i] != 'l' && f[i] != 'z')
  }

  function OrFlags(a: Flags, b: Flags): Flags {
    Flags(a.alt || b.alt, a.zero || b.zero, a.left || b.left, a.space || b.space, a.plus || b.plus)
  }

  lemma {:induction false} FlagsScanned(f: string, i: nat, s: string, flags: Flags)
    requires StandsAt(f, i, s) && AllFlags(s) && !IsFlag(At(f, i + |s|))
    ensures ScanFlags(f, i, flags) == (i + |s|, OrFlags(flags, FlagsIn(s)))
    decreases |s|
  {
    if s != "" {
      assert f[i] == s[0] && s == [s[0]] + s[1..];
      assert f[i + 1..i + |s|] == s[1..];
      FlagsScanned(f, i + 1, s[1..], SetFlag(flags, f[i]));
    }
  }

  function DigitsFold(s: string, n: nat): int {
    if s == "" then n else 10 * DigitsFold(s[..|s| - 1], n) + (s[|s| - 1] as int - '0' as int)
  }

  lemma {:induction false} FoldPositive(s: string, n: nat)
    requires AllDecimal(s)
    ensures DigitsFold(s, n) >= 0
  {
    if s != "" { FoldPositive(s[..|s| - 1], n); }
  }

  lemma {:induction false} DigitsScanned(f: string, i: nat, s: string, n: nat)
    requires StandsAt(f, i, s) && AllDecimal(s)
    ensures DigitsFold(s, n) >= 0 && ScanDigits(f, i, n) == ScanDigits(f, i + |s|, DigitsFold(s, n))
    decreases |s|
  {
    FoldPositive(s, n);
    if s != "" {
      var front := s[..|s| - 1];
      assert f[i..i + |front|] == front && f[i + |front|] == s[|front|];
      DigitsScanned(f, i, front, n);
    }
  }

  lemma FoldSnoc(s: string, c: char, n: nat)
    requires '0' <= c <= '9' && AllDecimal(s) && DigitsFold(s, 0) == n
    ensures AllDecimal(s + [c]) && DigitsFold(s + [c], 0) == 10 * n + (c as int - '0' as int)
  {
    assert (s + [c])[..|s|] == s;
  }

  lemma DecimalChar(d: nat)
    requires d < 10
    ensures '0' <= DigitChar(d, true) <= '9' && DigitChar(d, true) as int - '0' as int == d
  {
  }

  /** The written form of a number: decimal digits, the first of them not 0, that read as the number. */
  lemma {:induction false} DecimalIs(n: nat)
    ensures var s := Digits(n, 10, true);
            && s != "" && AllDecimal(s) && DigitsFold(s, 0) == n
            && (n > 0 ==> '1' <= s[0] <= '9')
    decreases n
  {
    hide DigitChar, DigitsFold, AllDecimal;
    Quotient(n, 10);
    DecimalChar(n % 10);
    var c := DigitChar(n % 10, true);
    if n / 10 != 0 {
      DecimalIs(n / 10);
      FoldSnoc(Digits(n / 10, 10, true), c, n / 10);
      NoLeadingZero(n, 10, true);
      FirstDecimal(Digits(n, 10, true));
    } else {
      FoldEmpty();
      FoldSnoc("", c, 0);
      assert Digits(n, 10, true) == "" + [c] && n % 10 == n;
    }
  }

  lemma FoldEmpty()
    ensures AllDecimal("") && DigitsFold("", 0) == 0
  {
  }

  lemma FirstDecimal(s: string)
    requires s != "" && AllDecimal(s)
    ensures IsDigit(s[0]) && (s[0] != '0' ==> '1' <= s[0] <= '9')
  {
  }

  lemma FirstAt(f: string, i: nat, s: string)
    requires StandsAt(f, i, s) && s != ""
    ensures i < |f| && f[i] == s[0] && i + |s| <= |f|
  {
    assert f[i] == f[i..i + |s|][0];
  }

  lemma ScanStops(f: string, i: nat, n: nat)
    requires i <= |f| && !IsDigit(At(f, i))
    ensures ScanDigits(f, i, n) == (i, n)
  {
  }

  lemma NumberScanned(f: string, i: nat, n: nat)
    requires StandsAt(f, i, Digits(n, 10, true)) && !IsDigit(At(f, i + |Digits(n, 10, true)|))
    ensures ScanDigits(f, i, 0) == (i + |Digits(n, 10, true)|, n)
    ensures i < |f| && IsDigit(f[i]) && (n > 0 ==> '1' <= f[i] <= '9')
  {
    hide Digits, DigitsFold, ScanDigits, AllDecimal, StandsAt;
    var s := Digits(n, 10, true);
    DecimalIs(n);
    FirstAt(f, i, s);
    FirstDecimal(s);
    DigitsScanned(f, i, s, 0);
    ScanStops(f, i + |s|, n);
  }

  lemma WidthScanned(f: string, i: nat, w: Amount, args: seq<Arg>)
    requires StandsAt(f, i, WidthText(w)) && !w.Bare? && (w.Given? ==> w.n > 0)
    requires !IsDigit(At(f, i + |WidthText(w)|)) && (w.Absent? ==> At(f, i) != '*')
    ensures ScanWidth(f, i, args) == Number(i + |WidthText(w)|, AmountValue(w, Head(args)), ArgsAfter(w, args))
  {
    hide Digits, ScanDigits;
    if w.Given? { NumberScanned(f, i, w.n); }
    if w.Star? { assert f[i] == f[i..i + 1][0]; }
  }

  lemma PrecisionScanned(f: string, i: nat, p: Amount, args: seq<Arg>)
    requires StandsAt(f, i, PrecisionText(p)) && !IsDigit(At(f, i + |PrecisionText(p)|))
    requires p.Absent? ==> At(f, i) != '.'
    requires p.Bare? ==> At(f, i + 1) != '*'
    ensures ScanPrecision(f, i, args)
         == Number(i + |PrecisionText(p)|,
                   if p.Star? then Max(ToInt32(Head(args).word), 0) else AmountValue(p, Head(args)), ArgsAfter(p, args))
  {
    hide Digits, ScanDigits;
    var text := PrecisionText(p);
    if text != "" { assert f[i] == f[i..i + |text|][0]; }
    if |text| > 1 { assert f[i + 1] == f[i..i + |text|][1]; }
    if p.Given? {
      assert f[i + 1..i + |text|] == text[1..] == Digits(p.n, 10, true);
      NumberScanned(f, i + 1, p.n);
    }
  }

  lemma {:induction false} SizeScanned(f: string, i: nat, s: string, long: bool)
    requires StandsAt(f, i, s) && AllSizes(s) && !IsLength(At(f, i + |s|))
    ensures ScanLength(f, i, long) == (i + |s|, long || s != "")
    decreases |s|
  {
    if s != "" {
      assert f[i] == s[0] && f[i + 1..i + |s|] == s[1..];
      SizeScanned(f, i + 1, s[1..], true);
    }
  }

  lemma PartsStand(f: string, i: nat, a: string, b: string)
    requires StandsAt(f, i, a + b)
    ensures StandsAt(f, i, a) && StandsAt(f, i + |a|, b)
  {
    assert (a + b)[..|a|] == a && (a + b)[|a|..] == b;
    assert f[i..i + |a|] == f[i..i + |a + b|][..|a|];
    assert f[i + |a|..i + |a| + |b|] == f[i..i + |a + b|][|a|..];
  }

  /** The first character of whatever follows a part of the directive. */
  lemma NextChar(f: string, i: nat, text: string)
    requires StandsAt(f, i, text)
    ensures text != "" ==> At(f, i) == text[0]
    ensures |text| > 1 ==> At(f, i + 1) == text[1]
  {
    if text != "" { assert f[i] == f[i..i + |text|][0]; }
    if |text| > 1 { assert f[i + 1] == f[i..i + |text|][1]; }
  }

  lemma WidthStarts(w: Amount)
    requires !w.Bare? && (w.Given? ==> w.n > 0)
    ensures if w.Absent? then WidthText(w) == ""
            else WidthText(w) != "" && (WidthText(w)[0] == '*' || '1' <= WidthText(w)[0] <= '9')
  {
    hide Digits, DigitsFold, AllDecimal;
    if w.Given? { DecimalIs(w.n); }
  }

  lemma PrecisionStarts(p: Amount)
    ensures if p.Absent? then PrecisionText(p) == "" else PrecisionText(p) != "" && PrecisionText(p)[0] == '.'
  {
    hide Digits;
  }

  /** What stands at each joint of a written directive. */
  lemma Joints(f: string, i: nat, flags: string, w: Amount, p: Amount, size: string)
    requires StandsAt(f, i, Written(flags, w, p, size)) && !w.Bare? && (w.Given? ==> w.n > 0) && AllSizes(size)
    requires EndsAt(f, i + |Written(flags, w, p, size)|)
    ensures var j := i + |flags|; var k := j + |WidthText(w)|; var l := k + |PrecisionText(p)|;
            && StandsAt(f, i, flags) && StandsAt(f, j, WidthText(w)) && StandsAt(f, k, PrecisionText(p))
            && StandsAt(f, l, size)
            && !IsFlag(At(f, j)) && (w.Absent? ==> At(f, j) != '*') && !IsDigit(At(f, k))
            && (p.Absent? ==> At(f, k) != '.') && !IsDigit(At(f, l)) && (p.Bare? ==> At(f, k + 1) != '*')
            && !IsLength(At(f, l + |size|)) && l + |size| == i + |Written(flags, w, p, size)|
  {
    hide WidthText, PrecisionText, StandsAt;
    var wt, pt := WidthText(w), PrecisionText(p);
    var j := i + |flags|;
    var k := j + |wt|;
    var l := k + |pt|;
    PartsStand(f, i, flags + wt + pt, size);
    PartsStand(f, i, flags + wt, pt);
    PartsStand(f, i, flags, wt);
    WidthStarts(w);
    PrecisionStarts(p);
    NextChar(f, j, wt);
    NextChar(f, k, pt);
    NextChar(f, l, size);
    assert p.Bare? ==> |pt| == 1 by { if p.Bare? { BareLength(); } }
  }

  lemma BareLength()
    ensures |PrecisionText(Bare)| == 1
  {
  }

  /** A written directive is read as it was written: flags in any order and number, a width, a
      precision and size letters, up to the conversion character. */
  lemma ScanWritten(f: string, i: nat, flags: string, w: Amount, p: Amount, size: string, args: seq<Arg>)
    requires StandsAt(f, i, Written(flags, w, p, size)) && EndsAt(f, i + |Written(flags, w, p, size)|)
    requires AllFlags(flags) && !w.Bare? && (w.Given? ==> w.n > 0) && AllSizes(size)
    ensures var rest := ArgsAfter(w, args);
            ScanDirective(f, i, args) == Directive(
              i + |Written(flags, w, p, size)|, FlagsIn(flags), AmountValue(w, Head(args)),
              if p.Star? then Max(ToInt32(Head(rest).word), 0)
              else AmountValue(p, Head(rest)), size != "", ArgsAfter(p, rest))
  {
    hide WidthText, PrecisionText, StandsAt, AllFlags, AllSizes, EndsAt, ScanFlags, ScanWidth, ScanPrecision,
      ScanLength, FlagsIn, ToInt32;
    Joints(f, i, flags, w, p, size);
    var j := i + |flags|;
    var k := j + |WidthText(w)|;
    var l := k + |PrecisionText(p)|;
    FlagsScanned(f, i, flags, NO_FLAGS);
    WidthScanned(f, j, w, args);
    PrecisionScanned(f, k, p, ArgsAfter(w, args));
    SizeScanned(f, l, size, false);
  }

  // ----- text conversions

  /** The first `precision` characters, or all when there are fewer or no precision is given. */
  function Clipped(s: string, precision: int): string { if 0 <= precision < |s| then s[..precision] else s }

  /** `body` in a field of the given width: the spaces are all in front, or all behind with '-'. Widths
      that differ from the length of the body by less than 2^31 are kept exactly. */
  function Padded(body: string, left: bool, width: int): string {
    var n := ToInt32(width - |body|);
    if left then body + Rep(' ', n) else Rep(' ', n) + body
  }

  /** The text that conversion `c` shows before clipping and padding: a string for %s, one character
      for %c, a '%' at the end of the format, and any other character for itself. */
  ghost predicate TextOf(c: char, arg: Arg, s: string) {
    if c == 's' then s == arg.str
    else if c == 'c' then if arg.word % 256 == 0 then s == "" else |s| == 1 && s[0] as int == arg.word % 256
    else if c == '\0' then s == "%"
    else s == [c]
  }

  predicate NumberChar(c: char) { c == 'd' || c == 'i' || c == 'u' || c == 'x' || c == 'X' || c == 'p' }

  /** %s, %c, and characters that stand for themselves. */
  lemma TextPrinted(f: string, i: nat, args: seq<Arg>, color: int, s: string)
    requires i <= |f|
    requires var d := ScanDirective(f, i, args);
             !NumberChar(At(f, d.pos)) && At(f, d.pos) != 'C' && TextOf(At(f, d.pos), Head(d.args), s)
    ensures var d := ScanDirective(f, i, args);
            var r := Convert(f, i, args, color);
            && r.text == Padded(Clipped(s, d.precision), d.flags.left, d.width)
            && r.next == (if d.pos < |f| then d.pos + 1 else d.pos) && r.color == color
            && r.args == if (At(f, d.pos) == 's' || At(f, d.pos) == 'c') && d.args != [] then d.args[1..] else d.args
  {
    hide ScanDirective, ToInt32, Rep, Field, Padded, ContentOf, TextOf;
    var d := ScanDirective(f, i, args);
    TextContent(At(f, d.pos), d.long, Head(d.args), s);
    TextField(s, d.flags, d.width, d.precision);
  }

  lemma TextContent(c: char, long: bool, arg: Arg, s: string)
    requires !NumberChar(c) && TextOf(c, arg, s)
    ensures ContentOf(c, long, arg) == Text(s)
  {
  }

  lemma TextField(s: string, flags: Flags, width: int, precision: int)
    ensures Field(Text(s), flags, width, precision) == Padded(Clipped(s, precision), flags.left, width)
  {
    hide ToInt32, Rep;
    var body := Clipped(s, precision);
    TextBody(s, flags, width, precision);
    hide Body, Clipped;
    var pad := Rep(' ', ToInt32(width - |body|));
    assert "" + body + pad == body + pad && pad + body + "" == pad + body;
  }

  lemma TextBody(s: string, flags: Flags, width: int, precision: int)
    ensures Body(Text(s), flags, width, precision) == Clipped(s, precision)
  {
    RepNone('0');
    assert "" + "" + Clipped(s, precision) == Clipped(s, precision);
  }

  // ----- numbers

  /** The value and the base of conversion `c`. */
  function NumberOf(c: char, long: bool, arg: Arg): int {
    if c == 'd' || c == 'i' then if long then ToInt64(arg.word) else ToInt32(arg.word)
    else if long || c == 'p' then arg.word % 0x1_0000_0000_0000_0000
    else arg.word % 0x1_0000_0000
  }

  function BaseOf(c: char): nat { if c == 'x' || c == 'X' || c == 'p' then 16 else 10 }

  /** The sign of a signed number, and "0x" in front of hexadecimal ones: with '#' unless they are
      zero, and always for pointers. */
  function SignOf(c: char, flags: Flags, v: int): string {
    if c == 'd' || c == 'i' then if v < 0 then "-" else if flags.plus then "+" else if flags.space then " " else ""
    else if c == 'p' then "0x"
    else if c == 'u' || v == 0 || !flags.alt then ""
    else if c == 'X' then "0X"
    else "0x"
  }

  predicate DigitOf(c: char, upper: bool) { '0' <= c <= '9' || (if upper then 'A' <= c <= 'F' else 'a' <= c <= 'f') }

  /** The shortest numeral of `v`: it reads as `v`, has no leading zero, and letters of one case. */
  ghost predicate IsNumeral(s: string, v: nat, base: nat, upper: bool) {
    && Value(s, base) == Some(v) && (|s| > 1 ==> s[0] != '0')
    && forall k :: 0 <= k < |s| ==> DigitOf(s[k], upper)
  }

  lemma {:induction false} DigitsCase(v: nat, base: nat, upper: bool)
    requires IsBase(base)
    ensures forall k :: 0 <= k < |Digits(v, base, upper)| ==> DigitOf(Digits(v, base, upper)[k], upper)
    decreases v
  {
    hide DigitChar, DigitOf;
    Quotient(v, base);
    CharCase(v % base, upper);
    if v / base != 0 { DigitsCase(v / base, base, upper); }
  }

  lemma CharCase(d: nat, upper: bool)
    requires d < 16
    ensures DigitOf(DigitChar(d, upper), upper)
  {
  }

  lemma DigitsNumeral(v: nat, base: nat, upper: bool)
    requires IsBase(base)
    ensures IsNumeral(Digits(v, base, upper), v, base, upper)
  {
    hide DigitOf, Value;
    DigitsValue(v, base, upper, 0);
    RepNone('0');
    assert "" + Digits(v, base, upper) == Digits(v, base, upper);
    DigitsCase(v, base, upper);
    if v > 0 { NoLeadingZero(v, base, upper); }
  }

  /** What the conversion of a number prints around its digits: zeros that fill the number up to its
      precision; without one, zeros that fill the field when '0' is given and '-' is not; and spaces
      that fill the rest of the field, in front, or behind with '-'. */
  ghost predicate Filled(d: Directive, sign: string, front: int, zeros: nat, digits: string, back: int) {
    && (d.precision >= 0 ==> zeros + |digits| == Max(d.precision, |digits|))
    && (d.precision < 0 && d.flags.zero && !d.flags.left ==>
          |sign| + zeros + |digits| == Max(d.width, |sign| + |digits|) && (d.width >= -1 ==> front <= 0))
    && (d.precision < 0 && (!d.flags.zero || d.flags.left) ==> zeros == 0)
    && front + back == ToInt32(d.width - (|sign| + zeros + |digits|)) && (if d.flags.left then front else back) == 0
  }

  lemma NumberContent(c: char, long: bool, arg: Arg, flags: Flags)
    requires NumberChar(c)
    ensures var x := ContentOf(c, long, arg);
            var v := NumberOf(c, long, arg);
            && x.Numeral? && x.num == (if v < 0 then -v else v) < TWO64 && x.base == BaseOf(c)
            && x.upper == (c != 'x' && c != 'p')
            && Prefix(x, flags) == SignOf(c, flags, v)
  {
  }

  lemma FieldParts(x: Content, d: Directive) returns (front: int, zeros: nat, back: int)
    requires x.Numeral? && IsBase(x.base) && x.num < TWO64
    ensures var digits := Digits(x.num, x.base, x.upper);
            && Field(x, d.flags, d.width, d.precision)
               == Rep(' ', front) + Prefix(x, d.flags) + Rep('0', zeros) + digits + Rep(' ', back)
            && Filled(d, Prefix(x, d.flags), front, zeros, digits, back)
  {
    hide Digits, Rep, Prefix;
    var digits, sign := Digits(x.num, x.base, x.upper), Prefix(x, d.flags);
    DigitsFit(x.num, x.base, x.upper);
    assert |sign| <= 2 by { ShortPrefix(x, d.flags); }
    zeros := Zeros(x, d.flags, d.width, d.precision);
    var pad := ToInt32(d.width - (|sign| + zeros + |digits|));
    front, back := if d.flags.left then 0 else pad, if d.flags.left then pad else 0;
    RepNone(' ');
    FiveTexts(Rep(' ', front), sign, Rep('0', zeros), digits, Rep(' ', back));
  }

  lemma ShortPrefix(x: Content, flags: Flags)
    ensures |Prefix(x, flags)| <= 2
  {
  }

  lemma FiveTexts(a: string, b: string, c: string, d: string, e: string)
    ensures a + b + c + d + e == a + (b + c + d) + e
  {
  }

  /** %d, %i, %u, %x, %X and %p: spaces, the sign, zeros, the shortest numeral, spaces. */
  lemma NumberPrinted(f: string, i: nat, args: seq<Arg>, color: int)
    returns (front: int, zeros: nat, digits: string, back: int)
    requires i <= |f| && NumberChar(At(f, ScanDirective(f, i, args).pos))
    ensures var d := ScanDirective(f, i, args);
            var c := At(f, d.pos);
            var v := NumberOf(c, d.long, Head(d.args));
            var sign := SignOf(c, d.flags, v);
            var r := Convert(f, i, args, color);
            && r.text == Rep(' ', front) + sign + Rep('0', zeros) + digits + Rep(' ', back)
            && IsNumeral(digits, if v < 0 then -v else v, BaseOf(c), c != 'x' && c != 'p')
            && Filled(d, sign, front, zeros, digits, back)
            && r.next == d.pos + 1 && r.color == color && r.args == if d.args == [] then [] else d.args[1..]
  {
    hide ScanDirective, Digits, IsNumeral, Rep, Field, ContentOf, Prefix, NumberOf, SignOf, Filled;
    var d := ScanDirective(f, i, args);
    var c := At(f, d.pos);
    var x := ContentOf(c, d.long, Head(d.args));
    NumberContent(c, d.long, Head(d.args), d.flags);
    DigitsNumeral(x.num, x.base, x.upper);
    digits := Digits(x.num, x.base, x.upper);
    front, zeros, back := FieldParts(x, d);
  }

  // ----- whole formats

  /** %C prints nothing and sets the color. */
  lemma ColorChanged(f: string, i: nat, args: seq<Arg>, color: int)
    requires i <= |f| && At(f, ScanDirective(f, i, args).pos) == 'C'
    ensures var d := ScanDirective(f, i, args);
            var r := Convert(f, i, args, color);
            && r.text == "" && r.next == d.pos + 1 && r.color == ToInt32(Head(d.args).word)
            && r.args == if d.args == [] then [] else d.args[1..]
  {
    hide ScanDirective, ToInt32;
  }

  /** Characters up to the next '%' are printed as they are; then comes the text of the directive, and
      printing goes on behind its conversion character. */
  lemma {:induction false} OutputPieces(f: string, i: nat, j: nat, args: seq<Arg>, color: int)
    requires i <= j <= |f| && (forall k :: i <= k < j ==> f[k] != '%') && (j < |f| ==> f[j] == '%')
    ensures Output(f, i, args, color) == Paint(f[i..j], color) +
              if j == |f| then []
              else
                var r := Convert(f, j + 1, args, color);
                Paint(r.text, color) + Output(f, r.next, r.args, r.color)
    decreases j - i
  {
    hide Convert, Output, Paint;
    OutputAt(f, i, args, color);
    PaintRange(f, i, j, color);
    if i < j {
      OutputPieces(f, i + 1, j, args, color);
      var tail := Output(f, i + 1, args, color);
      var rest := if j == |f| then [] else var r := Convert(f, j + 1, args, color);
                                            Paint(r.text, color) + Output(f, r.next, r.args, r.color);
      JoinedCells([Cell(f[i], color)], Paint(f[i + 1..j], color), rest);
    } else {
      assert [] + Output(f, i, args, color) == Output(f, i, args, color);
    }
  }

  lemma OutputAt(f: string, i: nat, args: seq<Arg>, color: int)
    requires i <= |f|
    ensures Output(f, i, args, color) ==
            if i == |f| then []
            else if f[i] != '%' then [Cell(f[i], color)] + Output(f, i + 1, args, color)
            else
              var r := Convert(f, i + 1, args, color);
              Paint(r.text, color) + Output(f, r.next, r.args, r.color)
  {
    hide Convert;
  }

  lemma PaintRange(f: string, i: nat, j: nat, color: int)
    requires i <= j <= |f|
    ensures Paint(f[i..j], color) == if i == j then [] else [Cell(f[i], color)] + Paint(f[i + 1..j], color)
  {
  }

  lemma JoinedCells(a: seq<Cell>, b: seq<Cell>, c: seq<Cell>)
    ensures a + (b + c) == (a + b) + c
  {
  }
}
