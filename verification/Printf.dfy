/**
  The formatted-output engine of lib.c (printer_vprintf): the scan of a format string, the
  layout of one field, and what the output means.
 */
module Printf {
  import opened CInts
  import opened Util

  /** One va_arg value: its 64-bit word and, when it is used as a char*, the string it points to. */
  datatype Arg = Arg(word: nat, str: string)

  /** One character handed to putc. */
  datatype Cell = Cell(c: char, color: int)

  datatype Flags = Flags(alt: bool, zero: bool, left: bool, space: bool, plus: bool)

  const NO_FLAGS := Flags(false, false, false, false, false)
  const NUMBUFSIZ := 24

  /** A C string: the terminating NUL is not among its characters. */
  predicate CString(s: string) { '\0' !in s }

  /** The character at position `i`; reading stops at the NUL in position |f|. */
  function At(f: string, i: nat): char
    requires i <= |f|
  {
    if i == |f| then '\0' else f[i]
  }

  predicate IsDigit(c: char) { '0' <= c <= '9' }

  // ----- va_arg; a missing argument reads as zero

  function Head(args: seq<Arg>): Arg { if args == [] then Arg(0, "") else args[0] }

  function Rest(args: seq<Arg>): seq<Arg> { if args == [] then [] else args[1..] }

  // ----- scanning

  predicate IsFlag(c: char) { c == '#' || c == '0' || c == '-' || c == ' ' || c == '+' }

  function SetFlag(flags: Flags, c: char): Flags {
    if c == '#' then flags.(alt := true)
    else if c == '0' then flags.(zero := true)
    else if c == '-' then flags.(left := true)
    else if c == ' ' then flags.(space := true)
    else flags.(plus := true)
  }

  function ScanFlags(f: string, i: nat, flags: Flags): (r: (nat, Flags))
    requires i <= |f|
    ensures i <= r.0 <= |f|
    decreases |f| - i
  {
    if i < |f| && IsFlag(f[i]) then ScanFlags(f, i + 1, SetFlag(flags, f[i])) else (i, flags)
  }

  function ScanDigits(f: string, i: nat, n: nat): (r: (nat, nat))
    requires i <= |f|
    ensures i <= r.0 <= |f|
    decreases |f| - i
  {
    if i < |f| && IsDigit(f[i]) then ScanDigits(f, i + 1, 10 * n + (f[i] as int - '0' as int)) else (i, n)
  }

  /** A number read from the format or the argument list. */
  datatype Number = Number(pos: nat, value: int, args: seq<Arg>)

  function ScanWidth(f: string, i: nat, args: seq<Arg>): (r: Number)
    requires i <= |f|
    ensures i <= r.pos <= |f|
  {
    if '1' <= At(f, i) <= '9' then var d := ScanDigits(f, i, 0); Number(d.0, d.1, args)
    else if At(f, i) == '*' then Number(i + 1, ToInt32(Head(args).word), Rest(args))
    else Number(i, -1, args)
  }

  function ScanPrecision(f: string, i: nat, args: seq<Arg>): (r: Number)
    requires i <= |f|
    ensures i <= r.pos <= |f|
    ensures r.value >= -1
  {
    if At(f, i) != '.' then Number(i, -1, args)
    else if IsDigit(At(f, i + 1)) then var d := ScanDigits(f, i + 1, 0); Number(d.0, d.1, args)
    else if At(f, i + 1) == '*' then
      var p := ToInt32(Head(args).word);
      Number(i + 2, if p < 0 then 0 else p, Rest(args))
    else Number(i + 1, 0, args)
  }

  predicate IsLength(c: char) { c == 'l' || c == 'z' }

  function ScanLength(f: string, i: nat, long: bool): (r: (nat, bool))
    requires i <= |f|
    ensures i <= r.0 <= |f|
    decreases |f| - i
  {
    if i < |f| && IsLength(f[i]) then ScanLength(f, i + 1, true) else (i, long)
  }

  /** Everything between '%' and the conversion character. */
  datatype Directive = Directive(pos: nat, flags: Flags, width: int, precision: int, long: bool, args: seq<Arg>)

  /** Scan the directive whose '%' is just before position `i`. */
  function ScanDirective(f: string, i: nat, args: seq<Arg>): (d: Directive)
    requires i <= |f|
    ensures i <= d.pos <= |f|
    ensures d.precision >= -1
  {
    var fl := ScanFlags(f, i, NO_FLAGS);
    var w := ScanWidth(f, fl.0, args);
    var p := ScanPrecision(f, w.pos, w.args);
    var l := ScanLength(f, p.pos, false);
    Directive(l.0, fl.1, w.value, p.value, l.1, p.args)
  }

  // ----- numbers

  function DigitChar(d: nat, upper: bool): char
    requires d < 16
  {
    if upper then "0123456789ABCDEF"[d] else "0123456789abcdef"[d]
  }

  predicate IsBase(base: nat) { base == 10 || base == 16 }

  lemma {:induction false} Quotient(val: nat, base: nat)
    requires IsBase(base)
    ensures val > 0 ==> val / base < val
    ensures val == base * (val / base) + val % base && val % base < base
  {
    if base == 10 {
      assert val == 10 * (val / 10) + val % 10;
    } else {
      assert val == 16 * (val / 16) + val % 16;
    }
  }

  /** `val` in the given base, most significant digit first. */
  function Digits(val: nat, base: nat, upper: bool): (s: string)
    requires IsBase(base)
    decreases val
  {
    Quotient(val, base);
    (if val / base == 0 then "" else Digits(val / base, base, upper)) + [DigitChar(val % base, upper)]
  }

  // ----- laying out a field

  /** What the conversion puts into the field. `data` is the text of a non-numeric conversion. */
  datatype Content =
    | Text(data: string)
    | Numeral(num: nat, base: nat, upper: bool, signed: bool, negative: bool, pointer: bool)

  predicate ContentOk(x: Content) { x.Numeral? ==> IsBase(x.base) }

  function Prefix(x: Content, flags: Flags): string {
    if x.Text? then ""
    else if x.signed then
      if x.negative then "-" else if flags.plus then "+" else if flags.space then " " else ""
    else if (flags.alt || x.pointer) && x.base == 16 && (x.num != 0 || x.pointer) then
      if x.upper then "0X" else "0x"
    else ""
  }

  function Max(a: int, b: int): int { if a < b then b else a }

  /** The data characters that are printed. */
  function Data(x: Content, precision: int): string
    requires ContentOk(x)
  {
    match x
    case Text(data) => if precision >= 0 then data[..Min(precision, |data|)] else data
    case Numeral(num, base, upper, _, _, _) => Digits(num, base, upper)
  }

  function Zeros(x: Content, flags: Flags, width: int, precision: int): (n: nat)
    requires ContentOk(x)
  {
    var len, pre := |Data(x, precision)|, |Prefix(x, flags)|;
    if x.Numeral? && precision >= 0 then Max(precision - len, 0)
    else if x.Numeral? && flags.zero && !flags.left && len + pre < width then width - len - pre
    else 0
  }

  function Rep(c: char, n: int): (s: string)
    ensures |s| == Max(n, 0) && forall i :: 0 <= i < |s| ==> s[i] == c
    decreases Max(n, 0)
  {
    if n <= 0 then "" else [c] + Rep(c, n - 1)
  }

  /** Prefix, zeros and data: the field without its padding. */
  function Body(x: Content, flags: Flags, width: int, precision: int): string
    requires ContentOk(x)
  {
    Prefix(x, flags) + Rep('0', Zeros(x, flags, width, precision)) + Data(x, precision)
  }

  /** The field. The remaining width is computed in unsigned arithmetic and truncated to int. */
  function Field(x: Content, flags: Flags, width: int, precision: int): string
    requires ContentOk(x)
  {
    var body := Body(x, flags, width, precision);
    var pad := ToInt32(width - |body|);
    (if flags.left then "" else Rep(' ', pad)) + body + (if flags.left then Rep(' ', pad) else "")
  }

  // ----- conversions

  /** The content selected by conversion character `c`, given the next argument. */
  function ContentOf(c: char, long: bool, a: Arg): (x: Content)
    ensures ContentOk(x)
  {
    if c == 'd' || c == 'i' then
      var v := if long then ToInt64(a.word) else ToInt32(a.word);
      Numeral((if v < 0 then -v else v) % TWO64, 10, true, true, v < 0, false)
    else if c == 'u' || c == 'x' || c == 'X' then
      Numeral(if long then a.word % TWO64 else a.word % TWO32, if c == 'u' then 10 else 16, c != 'x', false, false,
              false)
    else if c == 'p' then Numeral(a.word % TWO64, 16, false, false, false, true)
    else if c == 's' then Text(a.str)
    else if c == 'c' then Text(if a.word % 256 == 0 then "" else [(a.word % 256) as char])
    else if c == '\0' then Text("%")
    else Text([c])
  }

  predicate TakesArg(c: char) {
    c == 'd' || c == 'i' || c == 'u' || c == 'x' || c == 'X' || c == 'p' || c == 's' || c == 'c' || c == 'C'
  }

  /** The effect of one directive: its text, where scanning goes on, and the new color. */
  datatype Converted = Converted(text: string, next: nat, args: seq<Arg>, color: int)

  function Convert(f: string, i: nat, args: seq<Arg>, color: int): (r: Converted)
    requires i <= |f|
    ensures i <= r.next <= |f|
  {
    var d := ScanDirective(f, i, args);
    var c := At(f, d.pos);
    var rest := if TakesArg(c) then Rest(d.args) else d.args;
    var next := if d.pos < |f| then d.pos + 1 else d.pos;
    if c == 'C' then Converted("", next, rest, ToInt32(Head(d.args).word))
    else Converted(Field(ContentOf(c, d.long, Head(d.args)), d.flags, d.width, d.precision), next, rest, color)
  }

  function Paint(s: string, color: int): (r: seq<Cell>)
    ensures |r| == |s| && forall i :: 0 <= i < |s| ==> r[i] == Cell(s[i], color)
  {
    seq(|s|, (i: nat) requires i < |s| => Cell(s[i], color))
  }

  /** Everything printer_vprintf hands to putc from position `i` on. */
  function Output(f: string, i: nat, args: seq<Arg>, color: int): seq<Cell>
    requires i <= |f|
    decreases |f| - i
  {
    if i == |f| then []
    else if f[i] != '%' then [Cell(f[i], color)] + Output(f, i + 1, args, color)
    else
      var r := Convert(f, i + 1, args, color);
      Paint(r.text, color) + Output(f, r.next, r.args, r.color)
  }

  /** The characters without their colors. */
  function Chars(cells: seq<Cell>): (s: string)
    ensures |s| == |cells| && forall i :: 0 <= i < |s| ==> s[i] == cells[i].c
  {
    seq(|cells|, (i: nat) requires i < |cells| => cells[i].c)
  }

  // ----- what a field looks like

  /** The field is as wide as the larger of the requested width and its body, except when the
      difference between the two wraps around to a positive int. */
  lemma FieldLength(x: Content, flags: Flags, width: int, precision: int)
    requires ContentOk(x) && -0x8000_0000 <= width < 0x8000_0000
    requires |Body(x, flags, width, precision)| <= 0x8000_0001
    ensures |Field(x, flags, width, precision)| == Max(width, |Body(x, flags, width, precision)|)
       <==> !(-0x1_0000_0000 < width - |Body(x, flags, width, precision)| < -0x8000_0000)
  {
    hide Body, Rep;
  }

  /** For int widths and precisions, unsigned longs and strings of at most INT_MAX characters the
      bound on the body always holds. */
  lemma BodyBound(x: Content, flags: Flags, width: int, precision: int)
    requires ContentOk(x) && width < 0x8000_0000 && precision < 0x8000_0000
    requires match x case Text(data) => |data| < 0x8000_0000 case Numeral(num, _, _, _, _, _) => num < TWO64
    ensures |Body(x, flags, width, precision)| <= 0x8000_0001
  {
    hide Digits;
    if x.Numeral? { DigitsFit(x.num, x.base, x.upper); }
  }

  /** The witness: the field of one character with width INT_MIN is 2^31 characters long, and so is
      the text that "%*c" prints for the arguments INT_MIN and 'A'. */
  lemma WidthWraps()
    ensures |Field(Text("A"), NO_FLAGS, -0x8000_0000, -1)| == 0x8000_0000
    ensures |Convert("%*c", 1, [Arg(0x8000_0000, ""), Arg(65, "")], 0).text| == 0x8000_0000
  {
    assert |Body(Text("A"), NO_FLAGS, -0x8000_0000, -1)| == 1;
    assert ToInt32(-0x8000_0000 - 1) == 0x7FFF_FFFF;
    hide Field;
    var args := [Arg(0x8000_0000, ""), Arg(65, "")];
    assert args[1..] == [Arg(65, "")];
    assert ScanDirective("%*c", 1, args) == Directive(2, NO_FLAGS, -0x8000_0000, -1, false, args[1..]);
    assert ContentOf('c', false, Arg(65, "")) == Text("A");
  }

  // ----- digits

  /** Digits of nonzero values never start with 0. */
  lemma {:induction false} NoLeadingZero(val: nat, base: nat, upper: bool)
    requires IsBase(base) && val > 0
    ensures Digits(val, base, upper)[0] != '0'
    decreases val
  {
    Quotient(val, base);
    if val / base != 0 {
      NoLeadingZero(val / base, base, upper);
    } else {
      assert val % base == val;
    }
  }

  function Power(base: nat, k: nat): nat {
    if k == 0 then 1 else base * Power(base, k - 1)
  }

  lemma PowerStep(base: nat, k: nat, q: nat, r: nat)
    requires IsBase(base) && r < base
    ensures base * q + r < Power(base, k + 1) <==> q < Power(base, k)
  {
    if base == 10 {
      assert Power(10, k + 1) == 10 * Power(10, k);
    } else {
      assert Power(16, k + 1) == 16 * Power(16, k);
    }
  }

  /** A value has at most k digits exactly when it is below base^k. */
  lemma {:induction false} DigitCount(val: nat, base: nat, upper: bool, k: nat)
    requires IsBase(base) && k > 0
    ensures |Digits(val, base, upper)| <= k <==> val < Power(base, k)
    decreases val
  {
    hide Power;
    Quotient(val, base);
    PowerStep(base, k - 1, val / base, val % base);
    if val / base == 0 {
      PowerPositive(base, k - 1);
    } else if k > 1 {
      DigitCount(val / base, base, upper, k - 1);
    } else {
      PowerZero(base);
      DigitsNonEmpty(val / base, base, upper);
    }
  }

  lemma DigitsNonEmpty(val: nat, base: nat, upper: bool)
    requires IsBase(base)
    ensures |Digits(val, base, upper)| > 0
  {
  }

  lemma PowerZero(base: nat)
    ensures Power(base, 0) == 1
  {
  }

  lemma {:induction false} PowerPositive(base: nat, k: nat)
    requires IsBase(base)
    ensures Power(base, k) > 0
  {
    if k > 0 { PowerPositive(base, k - 1); }
  }

  /** Every unsigned long fits the 24-byte buffer with its NUL, in either base. */
  lemma DigitsFit(val: nat, base: nat, upper: bool)
    requires IsBase(base) && val < TWO64
    ensures 0 < |Digits(val, base, upper)| <= 20 < NUMBUFSIZ
  {
    Powers();
    DigitCount(val, base, upper, if base == 10 then 20 else 16);
    DigitsNonEmpty(val, base, upper);
  }

  lemma Powers()
    ensures Power(10, 20) > TWO64 && Power(16, 16) == TWO64
  {
    assert Power(10, 5) == 100000;
    assert Power(10, 10) == 1_0000000000;
    assert Power(10, 15) == 1_00000_0000000000;
    assert Power(16, 8) == 0x1_0000_0000;
  }

  // ----- reading a printed number back

  function DigitValue(c: char): Option<nat> {
    if '0' <= c <= '9' then Some(c as nat - '0' as nat)
    else if 'a' <= c <= 'f' then Some(c as nat - 'a' as nat + 10)
    else if 'A' <= c <= 'F' then Some(c as nat - 'A' as nat + 10)
    else None
  }

  /** The value of a nonempty string of digits. */
  function Value(s: string, base: nat): Option<nat> {
    if s == "" then None
    else
      match DigitValue(s[|s| - 1])
      case None => None
      case Some(d) =>
        if d >= base then None
        else if |s| == 1 then Some(d)
        else
          match Value(s[..|s| - 1], base)
          case None => None
          case Some(v) => Some(base * v + d)
  }

  lemma DigitCharValue(d: nat, upper: bool)
    requires d < 16
    ensures DigitValue(DigitChar(d, upper)) == Some(d) && DigitChar(d, upper) != ' '
    ensures DigitChar(d, upper) != '-' && DigitChar(d, upper) != '+'
  {
  }

  lemma ValueSnoc(s: string, base: nat, c: char, v: nat, d: nat)
    requires s != "" && Value(s, base) == Some(v) && DigitValue(c) == Some(d) && d < base
    ensures Value(s + [c], base) == Some(base * v + d)
  {
    hide DigitValue;
    assert (s + [c])[..|s|] == s;
  }

  /** Digits, with any number of zeros in front, read back as the value. */
  lemma {:induction false} DigitsValue(val: nat, base: nat, upper: bool, z: int)
    requires IsBase(base)
    ensures Value(Rep('0', z) + Digits(val, base, upper), base) == Some(val)
    decreases val
  {
    hide DigitChar, DigitValue, Rep, Value;
    Quotient(val, base);
    var q, d := val / base, val % base;
    DigitCharValue(d, upper);
    if q == 0 {
      assert Digits(val, base, upper) == [DigitChar(d, upper)];
      ZerosValue(z, base, d, upper);
    } else {
      DigitsValue(q, base, upper, z);
      DigitsNonEmpty(q, base, upper);
      var front := Rep('0', z) + Digits(q, base, upper);
      assert Rep('0', z) + Digits(val, base, upper) == front + [DigitChar(d, upper)];
      ValueSnoc(front, base, DigitChar(d, upper), q, d);
    }
  }

  lemma {:induction false} ZerosValue(z: int, base: nat, d: nat, upper: bool)
    requires IsBase(base) && d < base
    ensures Value(Rep('0', z) + [DigitChar(d, upper)], base) == Some(d)
    decreases Max(z, 0)
  {
    hide DigitChar, DigitValue, Rep;
    DigitCharValue(d, upper);
    var s := Rep('0', z) + [DigitChar(d, upper)];
    if z > 0 {
      DigitCharValue(0, upper);
      ZeroChar(upper);
      assert s[..|s| - 1] == Rep('0', z) == Rep('0', z - 1) + [DigitChar(0, upper)];
      ZerosValue(z - 1, base, 0, upper);
    }
  }

  lemma ZeroChar(upper: bool)
    ensures DigitChar(0, upper) == '0'
  {
  }

  function SkipSpaces(s: string): string {
    if s != "" && s[0] == ' ' then SkipSpaces(s[1..]) else s
  }

  function DropSpaces(s: string): string {
    if s != "" && s[|s| - 1] == ' ' then DropSpaces(s[..|s| - 1]) else s
  }

  /** An optional sign, then digits. */
  function ReadSigned(t: string): Option<int> {
    var signed := t != "" && (t[0] == '-' || t[0] == '+');
    match Value(if signed then t[1..] else t, 10)
    case None => None
    case Some(v) => Some(if signed && t[0] == '-' then 0 - v else v)
  }

  /** What a reader makes of a printed decimal, padding aside. */
  function ParseLong(text: string): Option<int> { ReadSigned(DropSpaces(SkipSpaces(text))) }

  lemma {:induction false} SkipPadding(n: int, s: string)
    ensures SkipSpaces(Rep(' ', n) + s) == SkipSpaces(s)
    decreases Max(n, 0)
  {
    if n > 0 {
      assert (Rep(' ', n) + s)[1..] == Rep(' ', n - 1) + s;
      SkipPadding(n - 1, s);
    } else {
      assert Rep(' ', n) + s == s;
    }
  }

  lemma {:induction false} DropPadding(s: string, n: int)
    requires s != "" && s[|s| - 1] != ' '
    ensures DropSpaces(s + Rep(' ', n)) == s
    decreases Max(n, 0)
  {
    hide Rep;
    if n > 0 {
      assert (s + Rep(' ', n))[..|s| + n - 1] == s + Rep(' ', n - 1);
      DropPadding(s, n - 1);
    } else {
      assert s + Rep(' ', n) == s;
    }
  }

  predicate IsSign(sign: string) { sign == "" || sign == "-" || sign == "+" || sign == " " }

  /** Only a core that neither starts nor ends with a space survives trimming. */
  lemma Trimmed(a: int, core: string, b: int)
    requires core != "" && core[0] != ' ' && core[|core| - 1] != ' '
    ensures DropSpaces(SkipSpaces(Rep(' ', a) + core + Rep(' ', b))) == core
    ensures DropSpaces(SkipSpaces(Rep(' ', a) + (" " + core) + Rep(' ', b))) == core
  {
    hide Rep;
    var tail := core + Rep(' ', b);
    assert Rep(' ', a) + core + Rep(' ', b) == Rep(' ', a) + tail;
    assert Rep(' ', a) + (" " + core) + Rep(' ', b) == Rep(' ', a) + (" " + tail);
    SkipPadding(a, tail);
    SkipPadding(a, " " + tail);
    assert (" " + tail)[1..] == tail;
    assert SkipSpaces(" " + tail) == SkipSpaces(tail) == tail;
    DropPadding(core, b);
  }

  lemma SignedReads(digits: string, num: nat)
    requires digits != "" && digits[0] != '-' && digits[0] != '+' && Value(digits, 10) == Some(num)
    ensures ReadSigned(digits) == ReadSigned("+" + digits) == Some(num)
    ensures ReadSigned("-" + digits) == Some(0 - num)
  {
    hide Value;
    assert ("+" + digits)[1..] == digits && ("-" + digits)[1..] == digits;
  }

  lemma Regroup(a: string, b: string, c: string)
    ensures a + b + c == a + (b + c) && (a == "" ==> a + b + c == b + c)
  {
  }

  /** Padding, sign, zeros, digits and padding read back as the signed value. */
  lemma PaddedParses(a: int, sign: string, z: int, num: nat, upper: bool, b: int)
    requires IsSign(sign)
    ensures ParseLong(Rep(' ', a) + (sign + Rep('0', z) + Digits(num, 10, upper)) + Rep(' ', b)) ==
              Some(if sign == "-" then 0 - num else num)
  {
    hide Rep, Value, Digits, DigitChar, SkipSpaces, DropSpaces, ReadSigned;
    var digits := Rep('0', z) + Digits(num, 10, upper);
    DigitsValue(num, 10, upper, z);
    DigitsEnds(num, 10, upper, z);
    SignedReads(digits, num);
    Regroup(sign, Rep('0', z), Digits(num, 10, upper));
    if sign == "" || sign == " " {
      Trimmed(a, digits, b);
    } else {
      Trimmed(a, sign + digits, b);
    }
  }

  lemma DigitsEnds(num: nat, base: nat, upper: bool, z: int)
    requires IsBase(base)
    ensures var s := Rep('0', z) + Digits(num, base, upper);
            && s != "" && s[0] != ' ' && s[0] != '-' && s[0] != '+' && s[|s| - 1] != ' '
  {
    hide DigitChar, Rep;
    Quotient(num, base);
    DigitCharValue(num % base, upper);
    FirstDigit(num, base, upper);
  }

  lemma {:induction false} FirstDigit(num: nat, base: nat, upper: bool)
    requires IsBase(base)
    ensures var s := Digits(num, base, upper);
            s != "" && s[0] != ' ' && s[0] != '-' && s[0] != '+'
    decreases num
  {
    hide DigitChar;
    Quotient(num, base);
    DigitCharValue(num % base, upper);
    if num / base != 0 { FirstDigit(num / base, base, upper); }
  }

  /** Whatever the flags, width and precision, the text of a %d, %i, %ld or %li conversion reads
      back as its argument. */
  lemma SignedRoundTrip(f: string, i: nat, args: seq<Arg>, color: int)
    requires i <= |f|
    requires At(f, ScanDirective(f, i, args).pos) == 'd' || At(f, ScanDirective(f, i, args).pos) == 'i'
    ensures var d := ScanDirective(f, i, args);
            ParseLong(Convert(f, i, args, color).text)
            == Some(if d.long then ToInt64(Head(d.args).word) else ToInt32(Head(d.args).word))
  {
    hide ScanDirective, ParseLong, Rep, Digits, Zeros;
    var d := ScanDirective(f, i, args);
    var v := if d.long then ToInt64(Head(d.args).word) else ToInt32(Head(d.args).word);
    var x := ContentOf(At(f, d.pos), d.long, Head(d.args));
    var num := if v < 0 then -v else v;
    assert x == Numeral(num, 10, true, true, v < 0, false);
    var body := Body(x, d.flags, d.width, d.precision);
    var pad := ToInt32(d.width - |body|);
    PaddedParses(if d.flags.left then 0 else pad, Prefix(x, d.flags), Zeros(x, d.flags, d.width, d.precision), num,
                 true, if d.flags.left then pad else 0);
    RepNone(' ');
    assert Rep(' ', 0) + body + Rep(' ', pad) == body + Rep(' ', pad);
    assert Rep(' ', pad) + body + Rep(' ', 0) == Rep(' ', pad) + body;
  }

  // ----- reading an unsigned number back

  /** "0x" or "0X" in front of hexadecimal digits is allowed. */
  function ReadUnsigned(t: string, base: nat): Option<nat> {
    if base == 16 && |t| >= 2 && t[0] == '0' && (t[1] == 'x' || t[1] == 'X') then Value(t[2..], 16) else Value(t, base)
  }

  function ParseUnsigned(text: string, base: nat): Option<nat> {
    ReadUnsigned(DropSpaces(SkipSpaces(text)), base)
  }

  lemma {:induction false} SecondDigit(s: string, base: nat)
    requires |s| >= 2 && Value(s, base).Some?
    ensures DigitValue(s[1]).Some?
    decreases |s|
  {
    hide DigitValue;
    if |s| > 2 {
      assert s[..|s| - 1][1] == s[1];
      SecondDigit(s[..|s| - 1], base);
    }
  }

  lemma UnsignedReads(digits: string, base: nat, num: nat)
    requires IsBase(base) && digits != "" && Value(digits, base) == Some(num)
    ensures ReadUnsigned(digits, base) == Some(num)
    ensures base == 16 ==> ReadUnsigned("0x" + digits, 16) == ReadUnsigned("0X" + digits, 16) == Some(num)
  {
    hide Value;
    if |digits| >= 2 { SecondDigit(digits, base); }
    assert ("0x" + digits)[2..] == digits && ("0X" + digits)[2..] == digits;
  }

  /** Padding, base prefix, zeros, digits and padding read back as the value. */
  lemma PaddedUnsigned(a: int, prefix: string, z: int, num: nat, base: nat, upper: bool, b: int)
    requires IsBase(base) && (prefix == "" || (base == 16 && (prefix == "0x" || prefix == "0X")))
    ensures ParseUnsigned(Rep(' ', a) + (prefix + Rep('0', z) + Digits(num, base, upper)) + Rep(' ', b), base) ==
              Some(num)
  {
    hide Rep, Value, Digits, DigitChar, SkipSpaces, DropSpaces, ReadUnsigned;
    var digits := Rep('0', z) + Digits(num, base, upper);
    DigitsValue(num, base, upper, z);
    DigitsEnds(num, base, upper, z);
    UnsignedReads(digits, base, num);
    Regroup(prefix, Rep('0', z), Digits(num, base, upper));
    Trimmed(a, prefix + digits, b);
    if prefix == "" { assert prefix + digits == digits; }
  }

  /** Whatever the flags, width and precision, the text of a %u, %x, %X or %p conversion, with or
      without l or z, reads back as its argument. */
  lemma UnsignedRoundTrip(f: string, i: nat, args: seq<Arg>, color: int)
    requires i <= |f|
    requires At(f, ScanDirective(f, i, args).pos) in "uxXp"
    ensures var d := ScanDirective(f, i, args);
            var c := At(f, d.pos);
            ParseUnsigned(Convert(f, i, args, color).text, if c == 'u' then 10 else 16)
            == Some(Head(d.args).word % if d.long || c == 'p' then TWO64 else TWO32)
  {
    hide ScanDirective, ParseUnsigned, Rep, Digits, Zeros;
    var d := ScanDirective(f, i, args);
    var c := At(f, d.pos);
    var x := ContentOf(c, d.long, Head(d.args));
    assert x.Numeral? && x.num == Head(d.args).word % if d.long || c == 'p' then TWO64 else TWO32;
    var body := Body(x, d.flags, d.width, d.precision);
    var pad := ToInt32(d.width - |body|);
    PaddedUnsigned(if d.flags.left then 0 else pad, Prefix(x, d.flags), Zeros(x, d.flags, d.width, d.precision), x.num,
                   x.base, x.upper, if d.flags.left then pad else 0);
    RepNone(' ');
    assert Rep(' ', 0) + body + Rep(' ', pad) == body + Rep(' ', pad);
    assert Rep(' ', pad) + body + Rep(' ', 0) == Rep(' ', pad) + body;
  }

  lemma RepNone(c: char)
    ensures Rep(c, 0) == ""
  {
  }
}
