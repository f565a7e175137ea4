/**
  printer_vprintf as it is written, over the two sinks of lib.c: a bounded string and the
  console. Positions of the format string run up to and including its NUL, never past it.
 */
module Printer {
  import opened CInts
  import opened Printf
  import opened Util

  const CONSOLE_ROWS := 25
  const CONSOLE_COLUMNS := 80
  const CONSOLE_SIZE := CONSOLE_ROWS * CONSOLE_COLUMNS

  /** Contents and cursor of the console. */
  datatype Screen = Screen(cells: seq<Cell>, cursor: nat) {
    predicate Valid() { |cells| == CONSOLE_SIZE && cursor <= CONSOLE_SIZE }
  }

  /** `n` blanks from position `at` on. */
  function Blanked(cells: seq<Cell>, at: nat, n: nat, color: int): (r: seq<Cell>)
    requires at + n <= |cells|
    ensures |r| == |cells|
    ensures forall i :: 0 <= i < |r| ==> r[i] == if at <= i < at + n then Cell(' ', color) else cells[i]
  {
    cells[..at] + Paint(Rep(' ', n), color) + cells[at + n..]
  }

  /** The screen after one character: a newline blanks the rest of the row, and the cursor
      wraps at the end of the console. */
  function Shown(s: Screen, c: Cell): (r: Screen)
    requires s.Valid()
    ensures r.Valid()
  {
    var at := if s.cursor >= CONSOLE_SIZE then 0 else s.cursor;
    if c.c == '\n' then
      var next := at - at % CONSOLE_COLUMNS + CONSOLE_COLUMNS;
      Screen(Blanked(s.cells, at, next - at, c.color), next)
    else Screen(s.cells[at := c], at + 1)
  }

  function ShownAll(s: Screen, log: seq<Cell>): (r: Screen)
    requires s.Valid()
    ensures r.Valid()
  {
    if log == [] then s else Shown(ShownAll(s, log[..|log| - 1]), log[|log| - 1])
  }

  /** A text without newlines that fits appears at the cursor, and nothing else changes. */
  lemma {:induction false} LineShown(s: Screen, text: seq<Cell>)
    requires s.Valid() && s.cursor + |text| <= CONSOLE_SIZE && forall k :: 0 <= k < |text| ==> text[k].c != '\n'
    ensures var t := ShownAll(s, text);
            && t.cursor == s.cursor + |text|
            && forall k :: 0 <= k < CONSOLE_SIZE ==>
                 t.cells[k] == if s.cursor <= k < s.cursor + |text| then text[k - s.cursor] else s.cells[k]
    decreases |text|
  {
    if text != [] { LineShown(s, text[..|text| - 1]); }
  }

  /** A newline blanks the rest of its row of 80 cells and moves to the start of the next row; the
      cursor starts over at the first cell when it has left the screen. */
  lemma NewlineShown(s: Screen, color: int)
    requires s.Valid()
    ensures var at := if s.cursor == 2000 then 0 else s.cursor;
            var t := Shown(s, Cell('\n', color));
            && t.cursor == (at / 80 + 1) * 80
            && forall k :: 0 <= k < CONSOLE_SIZE ==>
                 t.cells[k] == if at <= k < (at / 80 + 1) * 80 then Cell(' ', color) else s.cells[k]
    ensures forall c: Cell :: s.cursor == 2000 ==> Shown(s, c) == Shown(s.(cursor := 0), c)
  {
  }

  lemma ShownSnoc(s: Screen, log: seq<Cell>, c: Cell)
    requires s.Valid()
    ensures ShownAll(s, log + [c]) == Shown(ShownAll(s, log), c)
  {
    assert (log + [c])[..|log|] == log;
  }

  /** The buffer after printing `log` into its first `end` positions. */
  function Buffered(before: string, end: nat, log: seq<Cell>): (r: string)
    requires end <= |before|
    ensures |r| == |before|
  {
    var n := Min(end, |log|);
    Chars(log)[..n] + before[n..]
  }

  /** At most `end` characters of `text`, a NUL, and what was there before. */
  function Terminated(before: string, end: nat, text: string): (r: string)
    requires end < |before|
    ensures var n := Min(end, |text|);
            |r| == |before| && r[..n] == text[..n] && r[n] == '\0' && r[n + 1..] == before[n + 1..]
  {
    var n := Min(end, |text|);
    text[..n] + ['\0'] + before[n + 1..]
  }

  /** fill_numbuf: the digits of `val`, ending just before the NUL in the last position. */
  method FillNumbuf(numbuf: array<char>, val0: nat, base0: int) returns (pos: nat)
    requires numbuf.Length == NUMBUFSIZ && val0 < TWO64 && (base0 == 10 || base0 == 16 || base0 == -16)
    modifies numbuf
    ensures pos < NUMBUFSIZ - 1
    ensures numbuf[pos..NUMBUFSIZ - 1] == Digits(val0, if base0 < 0 then 16 else base0, base0 > 0)
    ensures numbuf[NUMBUFSIZ - 1] == '\0'
  {
    hide Digits;
    var digits := "0123456789ABCDEF";
    var base: nat := if base0 < 0 then -base0 else base0;
    if base0 < 0 {
      digits := "0123456789abcdef";
    }
    ghost var upper := base0 > 0;
    DigitsFit(val0, base, upper);
    var val: nat := val0;
    pos := NUMBUFSIZ - 1;
    numbuf[pos] := '\0';
    var more := true;
    while more
      invariant 0 < pos <= NUMBUFSIZ - 1 && numbuf[NUMBUFSIZ - 1] == '\0'
      invariant Digits(val0, base, upper) ==
                  (if more then Digits(val, base, upper) else "") + numbuf[pos..NUMBUFSIZ - 1]
      invariant !more ==> pos < NUMBUFSIZ - 1
      decreases more, val
    {
      Quotient(val, base);
      ghost var tail := numbuf[pos..NUMBUFSIZ - 1];
      DigitsNonEmpty(val, base, upper);
      DigitsUnfold(val, base, upper, tail);
      pos := pos - 1;
      numbuf[pos] := digits[val % base];
      assert numbuf[pos..NUMBUFSIZ - 1] == [DigitChar(val % base, upper)] + tail;
      val := val / base;
      more := val != 0;
    }
    assert "" + numbuf[pos..NUMBUFSIZ - 1] == numbuf[pos..NUMBUFSIZ - 1];
  }

  /** The last digit of a number moves over to the digits already written. */
  lemma DigitsUnfold(val: nat, base: nat, upper: bool, tail: string)
    requires IsBase(base)
    ensures (Quotient(val, base); Digits(val, base, upper) + tail
         == (if val / base == 0 then "" else Digits(val / base, base, upper)) + ([DigitChar(val % base, upper)] + tail))
  {
    Quotient(val, base);
    Regroup(if val / base == 0 then "" else Digits(val / base, base, upper), [DigitChar(val % base, upper)], tail);
  }

  /** The scan from just after a '%' to the conversion character. */
  method ReadDirective(format: string, start: nat, args0: seq<Arg>) returns (d: Directive)
    requires start <= |format| && CString(format)
    ensures d == ScanDirective(format, start, args0)
  {
    var i, args := start, args0;
    // the flag characters
    var flags := NO_FLAGS;
    while At(format, i) != '\0' && IsFlag(At(format, i))
      invariant i <= |format|
      invariant ScanFlags(format, i, flags) == ScanFlags(format, start, NO_FLAGS)
      decreases |format| - i
    {
      flags := SetFlag(flags, At(format, i));
      i := i + 1;
    }
    // digits or '*'
    var width := -1;
    ghost var widthStart := i;
    if '1' <= At(format, i) <= '9' {
      var n := 0;
      i, n := ReadNumber(format, i);
      width := n;
    } else if At(format, i) == '*' {
      width := ToInt32(Head(args).word);
      args := Rest(args);
      i := i + 1;
    }
    assert Number(i, width, args) == ScanWidth(format, widthStart, args0);
    hide ScanWidth, ScanFlags, ScanDigits;
    // '.' and what follows it
    var precision := -1;
    ghost var precisionStart, precisionArgs := i, args;
    if At(format, i) == '.' {
      i := i + 1;
      if IsDigit(At(format, i)) {
        var n := 0;
        i, n := ReadNumber(format, i);
        precision := n;
      } else if At(format, i) == '*' {
        precision := ToInt32(Head(args).word);
        args := Rest(args);
        i := i + 1;
      }
      if precision < 0 {
        precision := 0;
      }
    }
    assert Number(i, precision, args) == ScanPrecision(format, precisionStart, precisionArgs);
    // size letters
    var long := false;
    ghost var lengthStart := i;
    while IsLength(At(format, i))
      invariant i <= |format|
      invariant ScanLength(format, i, long) == ScanLength(format, lengthStart, false)
      decreases |format| - i
    {
      long := true;
      i := i + 1;
    }
    return Directive(i, flags, width, precision, long, args);
  }

  method ReadNumber(format: string, start: nat) returns (i: nat, n: nat)
    requires start <= |format|
    ensures (i, n) == ScanDigits(format, start, 0)
  {
    i, n := start, 0;
    while IsDigit(At(format, i))
      invariant i <= |format|
      invariant ScanDigits(format, i, n) == ScanDigits(format, start, 0)
      decreases |format| - i
    {
      n := 10 * n + (At(format, i) as int - '0' as int);
      i := i + 1;
    }
  }

  /** The variables the conversion switch sets. */
  datatype Conversion = Conversion(numeric: bool, signed: bool, negative: bool, alt2: bool, base: int, num: nat,
                                   data: string)

  /** What those variables say is the content `x`. */
  predicate Describes(v: Conversion, x: Content) {
    match x
    case Text(data) => !v.numeric && v.data == data
    case Numeral(num, base, upper, signed, negative, pointer) =>
      && v.numeric && v.num == num && v.signed == signed && (signed ==> v.negative == negative) && v.alt2 == pointer
      && v.base == (if base == 16 && !upper then -16 else base)
      && (base == 10 ==> upper)
      && IsBase(base) && v.data == Digits(num, base, upper)
  }

  /** The switch on the conversion character, and the digits of a number. */
  method SelectConversion(c: char, long: bool, arg: Arg) returns (v: Conversion)
    requires c != 'C'
    ensures Describes(v, ContentOf(c, long, arg))
  {
    hide Digits;
    var base, num: nat, data: string := 10, 0, "";
    var numeric, signed, negative, alt2 := false, false, false, false;
    if c == 'd' || c == 'i' {
      var x := if long then ToInt64(arg.word) else ToInt32(arg.word);
      negative := x < 0;
      num := (if negative then -x else x) % TWO64;
      numeric, signed := true, true;
    } else if c == 'u' || c == 'x' || c == 'X' {
      base := if c == 'x' then -16 else if c == 'X' then 16 else 10;
      num := if long then arg.word % TWO64 else arg.word % TWO32;
      numeric := true;
    } else if c == 'p' {
      num := arg.word % TWO64;
      base := -16;
      alt2, numeric := true, true;
    } else if c == 's' {
      data := arg.str;
    } else if c == 'c' {
      var b := arg.word % 256;
      data := if b == 0 then "" else [b as char];
    } else {
      data := if c != '\0' then [c] else "%";
    }
    if numeric {
      var numbuf := new char[NUMBUFSIZ];
      var pos := FillNumbuf(numbuf, num, base);
      data := numbuf[pos..NUMBUFSIZ - 1];
    }
    return Conversion(numeric, signed, negative, alt2, base, num, data);
  }

  /** Prefix, zero padding and number of data characters. */
  method Measure(v: Conversion, flags0: Flags, width: int, precision: int, ghost x: Content) returns (prefix: string,
        zeros: nat, len: nat)
    requires ContentOk(x) && Describes(v, x) && precision >= -1
    ensures prefix == Prefix(x, flags0) && zeros == Zeros(x, flags0, width, precision)
    ensures len <= |v.data| && v.data[..len] == Data(x, precision)
  {
    hide Digits;
    var flags := if v.alt2 then flags0.(alt := true) else flags0;
    prefix := "";
    if v.numeric && v.signed {
      if v.negative {
        prefix := "-";
      } else if flags.plus {
        prefix := "+";
      } else if flags.space {
        prefix := " ";
      }
    } else if v.numeric && flags.alt && (v.base == 16 || v.base == -16) && (v.num != 0 || v.alt2) {
      prefix := if v.base == -16 then "0x" else "0X";
    }
    len := if precision >= 0 && !v.numeric then Min(precision, |v.data|) else |v.data|;
    assert v.data[..len] == Data(x, precision);
    zeros := 0;
    if v.numeric && precision >= 0 {
      zeros := if precision > len then precision - len else 0;
    } else if v.numeric && flags.zero && !flags.left && len + |prefix| < width {
      zeros := width - len - |prefix|;
    }
  }

  class Printer {
    const toConsole: bool
    const buf: array<char>
    const end: nat
    var s: nat
    const console: array<Cell>
    var cursor: nat
    ghost var log: seq<Cell>
    ghost const bufBefore: string
    ghost const screenBefore: Screen

    /** The sink holds what the characters printed so far make of its initial contents. */
    ghost predicate Valid()
      reads this, buf, console
    {
      && (toConsole ==>
            && console.Length == CONSOLE_SIZE && screenBefore.Valid()
            && Screen(console[..], cursor) == ShownAll(screenBefore, log))
      && (!toConsole ==>
            && end < buf.Length == |bufBefore| && s == Min(end, |log|)
            && buf[..] == Buffered(bufBefore, end, log))
    }

    /** What the string printer has stored. */
    lemma Stored()
      requires Valid() && !toConsole
      ensures end < buf.Length == |bufBefore| && s == Min(end, |log|) && buf[..] == Buffered(bufBefore, end, log)
    {
      hide Buffered, Shown, ShownAll;
    }

    /** string_printer over the first `size` positions of `buf`. */
    constructor ForString(buf: array<char>, size: nat)
      requires 0 < size <= buf.Length
      ensures Valid() && !toConsole && log == [] && this.buf == buf
      ensures end == size - 1 && bufBefore == buf[..] && fresh(console)
    {
      toConsole, this.buf, end, s, cursor, log, bufBefore := false, buf, size - 1, 0, 0, [], buf[..];
      screenBefore := Screen([], 0);
      console := new Cell[0];
    }

    /** console_printer at position `cpos`. */
    constructor ForConsole(console: array<Cell>, cpos: nat)
      requires console.Length == CONSOLE_SIZE && cpos < CONSOLE_SIZE
      ensures Valid() && toConsole && log == [] && this.console == console
      ensures screenBefore == Screen(console[..], cpos) && fresh(buf)
    {
      toConsole, this.console, end, s, cursor, log, bufBefore := true, console, 0, 0, cpos, [], "";
      screenBefore := Screen(console[..], cpos);
      buf := new char[0];
    }

    /** string_putc or console_putc. */
    method Putc(c: char, color: int)
      requires Valid()
      modifies this, buf, console
      ensures Valid() && log == old(log) + [Cell(c, color)]
    {
      ShownSnocIf(screenBefore, log, Cell(c, color));
      log := log + [Cell(c, color)];
      if toConsole {
        ConsolePutc(c, color);
      } else if s < end {
        buf[s] := c;
        s := s + 1;
        BufferedStep(bufBefore, end, old(log), Cell(c, color));
      } else {
        BufferedFull(bufBefore, end, old(log), Cell(c, color));
      }
    }

    /** console_putc: every write is inside the console. */
    method ConsolePutc(c: char, color: int)
      requires toConsole && console.Length == CONSOLE_SIZE && cursor <= CONSOLE_SIZE
      modifies this`cursor, console
      ensures Screen(console[..], cursor) == Shown(Screen(old(console[..]), old(cursor)), Cell(c, color))
    {
      hide Blanked;
      if cursor >= CONSOLE_SIZE {
        cursor := 0;
      }
      if c == '\n' {
        ghost var at := cursor;
        var pos := cursor % CONSOLE_COLUMNS;
        ghost var next := at - pos + CONSOLE_COLUMNS;
        while pos != CONSOLE_COLUMNS
          invariant pos <= CONSOLE_COLUMNS && at <= cursor == next - CONSOLE_COLUMNS + pos <= next <= CONSOLE_SIZE
          invariant console[..] == Blanked(old(console[..]), at, cursor - at, color)
          decreases CONSOLE_COLUMNS - pos
        {
          console[cursor] := Cell(' ', color);
          cursor := cursor + 1;
          pos := pos + 1;
        }
      } else {
        console[cursor] := Cell(c, color);
        cursor := cursor + 1;
      }
    }

    /** A run of `n` equal characters; none when n <= 0. */
    method PutRun(c: char, n0: int, color: int)
      requires Valid()
      modifies this, buf, console
      ensures Valid() && log == old(log) + Paint(Rep(c, n0), color)
    {
      var n := n0;
      while n > 0
        invariant Valid() && log + Paint(Rep(c, n), color) == old(log) + Paint(Rep(c, n0), color)
        decreases n
      {
        ghost var before := log;
        Putc(c, color);
        PaintCons(c, Rep(c, n - 1), color);
        assert log + Paint(Rep(c, n - 1), color) == before + Paint(Rep(c, n), color);
        n := n - 1;
      }
    }

    method PutString(data: string, len: nat, color: int)
      requires Valid() && len <= |data|
      modifies this, buf, console
      ensures Valid() && log == old(log) + Paint(data[..len], color)
    {
      var i := 0;
      while i < len
        invariant 0 <= i <= len && Valid() && log == old(log) + Paint(data[..i], color)
      {
        ghost var before := log;
        Putc(data[i], color);
        assert data[..i + 1] == data[..i] + [data[i]];
        assert Paint(data[..i + 1], color) == Paint(data[..i], color) + [Cell(data[i], color)];
        i := i + 1;
      }
    }

    /** Padding, prefix, zeros, data, padding. */
    method PutField(prefix: string, zeros: nat, data: string, len: nat, left: bool, width0: int, color: int)
      requires Valid() && len <= |data|
      modifies this, buf, console
      ensures Valid()
      ensures var body := prefix + Rep('0', zeros) + data[..len];
              var pad := Rep(' ', ToInt32(width0 - |body|));
              log == old(log) + Paint((if left then "" else pad) + body + (if left then pad else ""), color)
    {
      hide Rep, ToInt32, Valid, Paint;
      var width := ToInt32(width0 - (len + zeros + |prefix|));
      ghost var before, front := width, if left then 0 else width;
      PutRun(' ', if left then 0 else width, color);
      width := if left then width else Min(width, 0);
      PutString(prefix, |prefix|, color);
      PutRun('0', zeros, color);
      PutString(data, len, color);
      PutRun(' ', width, color);
      assert prefix[..|prefix|] == prefix && |Rep('0', zeros)| == zeros;
      FiveParts(old(log), Rep(' ', front), prefix, Rep('0', zeros), data[..len], Rep(' ', width), color);
      assert Rep(' ', front) == if left then "" else Rep(' ', before);
      assert Rep(' ', width) == if left then Rep(' ', before) else "";
    }

    /** One directive, whose '%' is at start - 1: scan it, fetch its argument, print its field. */
    method PrintDirective(format: string, start: nat, args0: seq<Arg>, color0: int) returns (next: nat,
          args: seq<Arg>, color: int)
      requires Valid() && 0 < start <= |format| && CString(format)
      modifies this, buf, console
      ensures var r := Convert(format, start, args0, color0);
              Valid() && log == old(log) + Paint(r.text, color0) && next == r.next && args == r.args && color == r.color
    {
      hide Rep, Digits, ScanDirective, Valid, ContentOf, Prefix, Zeros, Data;
      var d := ReadDirective(format, start, args0);
      var c := At(format, d.pos);
      var arg := Head(d.args);
      args := if TakesArg(c) then Rest(d.args) else d.args;
      color := color0;
      if c == 'C' {
        color := ToInt32(arg.word);
        return d.pos + 1, args, color;
      }
      var conv := SelectConversion(c, d.long, arg);
      var prefix, zeros, len := Measure(conv, d.flags, d.width, d.precision, ContentOf(c, d.long, arg));
      PutField(prefix, zeros, conv.data, len, d.flags.left, d.width, color);
      // a '%' at the end of the format steps back onto the last character
      var pos: nat := if c == '\0' then d.pos - 1 else d.pos;
      next := pos + 1;
    }

    method VPrintf(color0: int, format: string, args0: seq<Arg>)
      requires Valid() && CString(format)
      modifies this, buf, console
      ensures Valid() && log == old(log) + Output(format, 0, args0, color0)
    {
      hide Valid, Convert, Output, Paint;
      var i: nat, args, color := 0, args0, color0;
      while At(format, i) != '\0'
        invariant i <= |format| && Valid()
        invariant log + Output(format, i, args, color) == old(log) + Output(format, 0, args0, color0)
        decreases |format| - i
      {
        OutputStep(log, format, i, args, color);
        if At(format, i) != '%' {
          Putc(At(format, i), color);
          i := i + 1;
        } else {
          i, args, color := PrintDirective(format, i + 1, args, color);
        }
      }
      OutputEnd(log, format, i, args, color);
    }
  }

  /** One character or one directive of the format. */
  lemma OutputStep(log: seq<Cell>, format: string, i: nat, args: seq<Arg>, color: int)
    requires i < |format|
    ensures log + Output(format, i, args, color) ==
            if format[i] != '%' then (log + [Cell(format[i], color)]) + Output(format, i + 1, args, color)
            else
              var r := Convert(format, i + 1, args, color);
              (log + Paint(r.text, color)) + Output(format, r.next, r.args, r.color)
  {
    hide Convert;
  }

  lemma OutputEnd(log: seq<Cell>, format: string, i: nat, args: seq<Arg>, color: int)
    requires i == |format|
    ensures log + Output(format, i, args, color) == log
  {
  }

  method PutNul(buf: array<char>, n: nat)
    requires n < buf.Length
    modifies buf
    ensures buf[..] == old(buf[..])[n := '\0']
  {
    buf[n] := '\0';
  }

  /** vsnprintf: a buffer of `size` bytes receives exactly the first size - 1 characters of the
      unbounded output and a NUL, and nothing else is written. */
  method VSNPrintf(buf: array<char>, size: nat, format: string, args: seq<Arg>) returns (n: nat)
    requires size <= buf.Length && CString(format)
    modifies buf
    ensures size == 0 ==> n == 0 && buf[..] == old(buf[..])
    ensures size > 0 ==>
              var out := Chars(Output(format, 0, args, 0));
              n == Min(size - 1, |out|) && buf[..] == Terminated(old(buf[..]), size - 1, out)
  {
    if size == 0 {
      return 0;
    }
    hide Output, Chars, Buffered, Terminated, Min, CString, Printer.Valid;
    ghost var before, out := buf[..], Output(format, 0, args, 0);
    var sp := new Printer.ForString(buf, size);
    sp.VPrintf(0, format, args);
    NothingBefore(out);
    sp.Stored();
    TerminatedIs(before, size - 1, out);
    n := sp.s;
    PutNul(buf, n);
  }

  /** console_vprintf: the text goes to the screen from `cpos` on, or from the top left corner
      when `cpos` is off the screen; the result is the cursor position after it. */
  method ConsoleVPrintf(console: array<Cell>, cpos0: int, color: int, format: string, args: seq<Arg>)
    returns (cpos: nat)
    requires console.Length == CONSOLE_SIZE && CString(format)
    modifies console
    ensures var start := Screen(old(console[..]), if 0 <= cpos0 < CONSOLE_SIZE then cpos0 else 0);
            Screen(console[..], cpos) == ShownAll(start, Output(format, 0, args, color))
  {
    var cp := new Printer.ForConsole(console, if cpos0 < 0 || cpos0 >= CONSOLE_SIZE then 0 else cpos0);
    cp.VPrintf(color, format, args);
    assert [] + Output(format, 0, args, color) == Output(format, 0, args, color);
    cpos := cp.cursor;
  }

  lemma ShownSnocIf(s: Screen, log: seq<Cell>, c: Cell)
    ensures s.Valid() ==> ShownAll(s, log + [c]) == Shown(ShownAll(s, log), c)
  {
    if s.Valid() { ShownSnoc(s, log, c); }
  }

  lemma BufferedStep(before: string, end: nat, log: seq<Cell>, c: Cell)
    requires |log| < end < |before|
    ensures Buffered(before, end, log + [c]) == Buffered(before, end, log)[|log| := c.c]
  {
  }

  lemma BufferedFull(before: string, end: nat, log: seq<Cell>, c: Cell)
    requires end <= |log| && end < |before|
    ensures Buffered(before, end, log + [c]) == Buffered(before, end, log)
  {
  }

  lemma PaintConcat(a: string, b: string, color: int)
    ensures Paint(a + b, color) == Paint(a, color) + Paint(b, color)
  {
  }

  /** The five pieces of a field, painted one after the other. */
  lemma FiveParts(log: seq<Cell>, a: string, b: string, c: string, d: string, e: string, color: int)
    ensures log + Paint(a, color) + Paint(b, color) + Paint(c, color) + Paint(d, color) + Paint(e, color)
         == log + Paint(a + (b + c + d) + e, color)
  {
    hide Paint;
    PaintConcat(b, c, color);
    PaintConcat(b + c, d, color);
    PaintConcat(a, b + c + d, color);
    PaintConcat(a + (b + c + d), e, color);
  }

  lemma NothingBefore(log: seq<Cell>)
    ensures [] + log == log
  {
  }

  lemma TerminatedIs(before: string, end: nat, log: seq<Cell>)
    requires end < |before|
    ensures Min(end, |log|) <= end && |Chars(log)| == |log|
    ensures Buffered(before, end, log)[Min(end, |log|) := '\0'] == Terminated(before, end, Chars(log))
  {
  }

  lemma PaintCons(c: char, s: string, color: int)
    ensures Paint([c] + s, color) == [Cell(c, color)] + Paint(s, color)
  {
  }
}
