/**
  fmtint of kernel/snprintf.cc: an integer with sign, precision and field width.  Longs have 32
  bits; a negative value's magnitude is taken without the overflow at the smallest long.
*/
module FormatInt {
  type Long = x: int | -0x8000_0000 <= x < 0x8000_0000

  datatype Flags = Flags(minus: bool, plus: bool, space: bool, zero: bool, up: bool, unsigned: bool)

  predicate Base(b: nat) { b == 8 || b == 10 || b == 16 }

  function Abs(x: int): nat { if x < 0 then -x else x }

  function Max(a: int, b: int): int { if a >= b then a else b }

  // ---- digits

  const LOWER: string := "0123456789abcdef"
  const UPPER: string := "0123456789ABCDEF"

  function DigitOf(d: nat, up: bool): char
    requires d < 16
  {
    if up then UPPER[d] else LOWER[d]
  }

  /** -1 for anything but a digit, of either case */
  function DigitValue(c: char): int {
    if '0' <= c <= '9' then c as int - '0' as int
    else if 'a' <= c <= 'f' then c as int - 'a' as int + 10
    else if 'A' <= c <= 'F' then c as int - 'A' as int + 10
    else -1
  }

  lemma DigitBack(d: nat, up: bool)
    requires d < 16
    ensures DigitValue(DigitOf(d, up)) == d
  {
  }

  /** Ten digits and six letters, of the case asked for */
  lemma DigitIs(d: nat, up: bool)
    requires d < 16
    ensures DigitOf(d, up) as int == if d < 10 then '0' as int + d else (if up then 'A' else 'a') as int + (d - 10)
  {
  }

  predicate Shown(c: char, up: bool) { '0' <= c <= '9' || (if up then 'A' <= c <= 'F' else 'a' <= c <= 'f') }

  /** The digits of u, most significant first */
  function Digits(u: nat, base: nat, up: bool): (s: string)
    requires Base(base)
    ensures |s| >= 1
    decreases u
  {
    if u < base then [DigitOf(u, up)] else Digits(u / base, base, up) + [DigitOf(u % base, up)]
  }

  /** How many digits u takes */
  lemma {:induction false} DigitCount(u: nat, base: nat, up: bool, n: nat, power: nat)
    requires Base(base) && n >= 1 && power == Power(base, n) && u < power
    ensures |Digits(u, base, up)| <= n
    decreases u
  {
    if u >= base {
      assert n >= 2;
      DigitCount(u / base, base, up, n - 1, Power(base, n - 1));
    }
  }

  function Power(base: nat, n: nat): nat { if n == 0 then 1 else base * Power(base, n - 1) }

  /** A number of 32 bits has at most 11 digits, so the 20 places of the buffer do. */
  lemma FewDigits(u: nat, base: nat, up: bool)
    requires Base(base) && u < 0x1_0000_0000
    ensures |Digits(u, base, up)| <= 11
  {
    assert Power(8, 4) == 4096 && Power(8, 8) == 4096 * 4096 && Power(8, 11) == 512 * 4096 * 4096;
    assert Power(10, 4) == 10000 && Power(10, 8) == 10000 * 10000 && Power(10, 11) == 1000 * 10000 * 10000;
    assert Power(16, 4) == 65536 && Power(16, 8) == 65536 * 65536 && Power(16, 11) == 4096 * 65536 * 65536;
    DigitCount(u, base, up, 11, Power(base, 11));
  }

  predicate AllDigits(s: string, base: nat) {
    forall i :: 0 <= i < |s| ==> 0 <= DigitValue(s[i]) < base
  }

  /** The number that a string of digits denotes */
  function NumberOf(s: string, base: nat): int
    decreases |s|
  {
    if s == [] then 0 else NumberOf(s[..|s| - 1], base) * base + DigitValue(s[|s| - 1])
  }

  lemma {:induction false} DigitsNumber(u: nat, base: nat, up: bool)
    requires Base(base)
    ensures AllDigits(Digits(u, base, up), base) && NumberOf(Digits(u, base, up), base) == u
    decreases u
  {
    hide Base, DigitOf, DigitValue;
    DivMod(u, base);
    if u < base {
      DigitBack(u, up);
      assert [DigitOf(u, up)][..0] == [];
    } else {
      DigitsNumber(u / base, base, up);
      DigitBack(u % base, up);
      var front := Digits(u / base, base, up);
      assert (front + [DigitOf(u % base, up)])[..|front|] == front;
    }
  }

  lemma DivMod(u: nat, base: nat)
    requires Base(base)
    ensures 8 <= base <= 16 && u / base * base + u % base == u && (u >= base ==> u / base < u)
  {
  }

  function Repeat(c: char, n: int): (s: string)
    ensures |s| == (if n < 0 then 0 else n) && forall i :: 0 <= i < |s| ==> s[i] == c
    decreases n
  {
    if n <= 0 then [] else Repeat(c, n - 1) + [c]
  }

  lemma {:induction false} LeadingZeros(n: int, s: string, base: nat)
    requires Base(base) && AllDigits(s, base)
    ensures AllDigits(Repeat('0', n) + s, base) && NumberOf(Repeat('0', n) + s, base) == NumberOf(s, base)
    decreases |s|, n
  {
    var z := Repeat('0', n);
    if s == [] {
      if n > 0 {
        LeadingZeros(n - 1, s, base);
        assert z + s == z && Repeat('0', n - 1) + s == Repeat('0', n - 1);
        assert z[..|z| - 1] == Repeat('0', n - 1);
      } else {
        assert z + s == s;
      }
    } else {
      LeadingZeros(n, s[..|s| - 1], base);
      assert (z + s)[..|z + s| - 1] == z + s[..|s| - 1];
    }
  }

  // ---- the layout

  function SignOf(value: int, flags: Flags): string {
    if flags.unsigned then ""
    else if value < 0 then "-"
    else if flags.plus then "+"
    else if flags.space then " "
    else ""
  }

  /** uvalue: an unsigned conversion of the value, or its magnitude */
  function Magnitude(value: Long, flags: Flags): nat {
    if flags.unsigned then value % 0x1_0000_0000 else Abs(value)
  }

  datatype Layout = Layout(left: int, sign: string, zeros: int, digits: string, right: int)

  /** How the parts are arranged for a field of `min` and a precision of `max`. */
  function LayoutOf(value: Long, base: nat, min: int, max: int, flags: Flags): Layout
    requires Base(base)
  {
    var sign, digits := SignOf(value, flags), Digits(Magnitude(value, flags), base, flags.up);
    var precision := Max(max, 0);
    var z := Max(precision - |digits|, 0);
    var pad := Max(min - Max(precision, |digits|) - |sign|, 0);
    if flags.zero then Layout(0, sign, Max(z, pad), digits, 0)
    else if flags.minus then Layout(0, sign, z, digits, pad)
    else Layout(pad, sign, z, digits, 0)
  }

  function Text(l: Layout): string {
    Repeat(' ', l.left) + l.sign + Repeat('0', l.zeros) + l.digits + Repeat(' ', l.right)
  }

  function Formatted(value: Long, base: nat, min: int, max: int, flags: Flags): string
    requires Base(base)
  {
    Text(LayoutOf(value, base, min, max, flags))
  }

  /**
    The text is as wide as the field, or as its sign and the larger of precision and digits,
    except when the 0 flag meets a precision above the number of digits in a field that is wider.
  */
  lemma WidthExact(value: Long, base: nat, min: int, max: int, flags: Flags)
    requires Base(base)
    ensures var sign, digits := |SignOf(value, flags)|, |Digits(Magnitude(value, flags), base, flags.up)|;
      |Formatted(value, base, min, max, flags)| == Max(min, sign + Max(max, digits))
      <==> !(flags.zero && max > digits && min > sign + max)
  {
  }

  /** One such case: "%08.3d" of 5 is 000005. */
  lemma WidthShort()
    ensures Formatted(5, 10, 8, 3, Flags(false, false, false, true, false, false)) == "000005"
  {
    assert Digits(5, 10, false) == "5";
    assert Repeat('0', 5) == "00000";
    assert Repeat(' ', 0) == "";
  }

  /** Every digit is of the case asked for, and the first one is 0 only for the number 0. */
  lemma {:induction false} DigitsShown(u: nat, base: nat, up: bool)
    requires Base(base)
    ensures forall i :: 0 <= i < |Digits(u, base, up)| ==> Shown(Digits(u, base, up)[i], up)
    ensures Digits(u, base, up)[0] == '0' <==> u == 0
    decreases u
  {
    hide DigitOf, Shown, Base;
    DivMod(u, base);
    if u < base {
      DigitShows(u, up);
    } else {
      DigitShows(u % base, up);
      DigitsShown(u / base, base, up);
    }
  }

  lemma DigitShows(d: nat, up: bool)
    requires d < 16
    ensures Shown(DigitOf(d, up), up) && (DigitOf(d, up) == '0' <==> d == 0)
  {
    DigitIs(d, up);
  }

  /**
    The parts of the text: spaces, the sign, zeros, the digits of the number, spaces.  Spaces come
    first without the minus flag and last with it, and not at all with the 0 flag.
  */
  lemma Parts(value: Long, base: nat, min: int, max: int, flags: Flags)
    returns (left: nat, sign: string, zeros: nat, digits: string, right: nat)
    requires Base(base)
    ensures Formatted(value, base, min, max, flags)
      == Repeat(' ', left) + sign + Repeat('0', zeros) + digits + Repeat(' ', right)
    ensures sign == "-" <==> !flags.unsigned && value < 0
    ensures sign == "+" <==> !flags.unsigned && value >= 0 && flags.plus
    ensures sign == " " <==> !flags.unsigned && value >= 0 && !flags.plus && flags.space
    ensures sign == "" || sign == "-" || sign == "+" || sign == " "
    ensures var v: int := value;
      NumberOf(digits, base) == if flags.unsigned then v % 0x1_0000_0000 else if v < 0 then -v else v
    ensures |digits| > 0 && (forall i :: 0 <= i < |digits| ==> Shown(digits[i], flags.up))
    ensures |digits| > 1 ==> digits[0] != '0'
    ensures (left > 0 ==> !flags.minus && !flags.zero) && (right > 0 ==> flags.minus && !flags.zero)
    ensures zeros + |digits| >= max && (!flags.zero && zeros > 0 ==> zeros + |digits| == max)
    ensures !flags.zero ==> left + |sign| + zeros + |digits| + right >= min
    ensures !flags.zero && left + right > 0 ==> left + |sign| + zeros + |digits| + right == min
    ensures flags.zero && zeros > 0 && zeros + |digits| != max ==>
      |sign| + zeros + (if max > |digits| then max else |digits|) == min
  {
    hide Digits, NumberOf, Shown, Repeat, SignOf, AllDigits;
    var l := LayoutOf(value, base, min, max, flags);
    DigitPart(value, base, flags);
    SignPart(value, flags);
    left, sign, zeros, digits, right := l.left, l.sign, l.zeros, l.digits, l.right;
  }

  lemma SignPart(value: int, flags: Flags)
    ensures var sign := SignOf(value, flags);
      && (sign == "-" <==> !flags.unsigned && value < 0)
      && (sign == "+" <==> !flags.unsigned && value >= 0 && flags.plus)
      && (sign == " " <==> !flags.unsigned && value >= 0 && !flags.plus && flags.space)
      && (sign == "" || sign == "-" || sign == "+" || sign == " ")
  {
  }

  lemma DigitPart(value: Long, base: nat, flags: Flags)
    requires Base(base)
    ensures var (v: int, digits) := (value, Digits(Magnitude(value, flags), base, flags.up));
      && NumberOf(digits, base) == (if flags.unsigned then v % 0x1_0000_0000 else if v < 0 then -v else v)
      && |digits| > 0 && (forall i :: 0 <= i < |digits| ==> Shown(digits[i], flags.up))
      && (|digits| > 1 ==> digits[0] != '0')
  {
    hide Digits, NumberOf, Shown, AllDigits;
    var u := Magnitude(value, flags);
    DigitsShown(u, base, flags.up);
    DigitsNumber(u, base, flags.up);
    if u == 0 { OneZero(base, flags.up); }
  }

  lemma OneZero(base: nat, up: bool)
    requires Base(base)
    ensures |Digits(0, base, up)| == 1
  {
  }

  // ---- reading it back

  function Unpadded(s: string): string
    decreases |s|
  {
    if s != [] && s[0] == ' ' then Unpadded(s[1..])
    else if s != [] && s[|s| - 1] == ' ' then Unpadded(s[..|s| - 1])
    else s
  }

  /** The number in a text: spaces around it are dropped, then a sign may come before the digits. */
  function ReadInt(s: string, base: nat): int {
    var t := Unpadded(s);
    if t != [] && t[0] == '-' then -NumberOf(t[1..], base)
    else if t != [] && t[0] == '+' then NumberOf(t[1..], base)
    else NumberOf(t, base)
  }

  lemma {:induction false} UnpadLeft(n: int, s: string)
    ensures Unpadded(Repeat(' ', n) + s) == Unpadded(s)
    decreases n
  {
    if n <= 0 {
      assert Repeat(' ', n) + s == s;
    } else {
      UnpadLeft(n - 1, s);
      SpacesTail(n);
      assert (Repeat(' ', n) + s)[1..] == Repeat(' ', n)[1..] + s;
    }
  }

  lemma SpacesTail(n: int)
    requires n > 0
    ensures Repeat(' ', n)[1..] == Repeat(' ', n - 1)
  {
  }

  lemma {:induction false} UnpadRight(s: string, n: int)
    requires s != [] && s[0] != ' '
    ensures Unpadded(s + Repeat(' ', n)) == Unpadded(s)
    decreases n
  {
    if n <= 0 {
      assert s + Repeat(' ', n) == s;
    } else {
      UnpadRight(s, n - 1);
      assert (s + Repeat(' ', n))[..|s + Repeat(' ', n)| - 1] == s + Repeat(' ', n - 1);
    }
  }

  lemma Core(s: string)
    requires s != [] && s[0] != ' ' && s[|s| - 1] != ' '
    ensures Unpadded(s) == s
  {
  }

  lemma DigitShown(s: string, base: nat, i: nat)
    requires Base(base) && AllDigits(s, base) && i < |s|
    ensures s[i] != ' ' && s[i] != '-' && s[i] != '+'
  {
  }

  /** A number between spaces, with an optional sign before it */
  lemma ReadSigned(left: int, sign: string, number: string, right: int, base: nat)
    requires number != [] && number[0] != ' ' && number[0] != '-' && number[0] != '+' && number[|number| - 1] != ' '
    requires sign == "" || sign == "-" || sign == "+" || sign == " "
    ensures ReadInt(Repeat(' ', left) + ((sign + number) + Repeat(' ', right)), base)
      == if sign == "-" then -NumberOf(number, base) else NumberOf(number, base)
  {
    hide NumberOf, Unpadded, Repeat;
    var tail := Repeat(' ', right);
    UnpadLeft(left, (sign + number) + tail);
    if sign == " " {
      UnpadSpace(number + tail);
      assert (sign + number) + tail == " " + (number + tail);
      UnpadRight(number, right);
      Core(number);
    } else {
      var body := sign + number;
      UnpadRight(body, right);
      Core(body);
      assert |sign| == 1 ==> body[1..] == number;
      assert |sign| == 0 ==> body == number;
    }
  }

  /** Whatever the flags, the text reads back as the value, taken modulo 2^32 when unsigned. */
  lemma RoundTrip(value: Long, base: nat, min: int, max: int, flags: Flags)
    requires Base(base)
    ensures ReadInt(Formatted(value, base, min, max, flags), base)
      == if flags.unsigned then value % 0x1_0000_0000 else value
  {
    hide Digits, Repeat, NumberOf, Unpadded, AllDigits, ReadInt, DigitValue;
    var l := LayoutOf(value, base, min, max, flags);
    DigitsNumber(Magnitude(value, flags), base, flags.up);
    LeadingZeros(l.zeros, l.digits, base);
    var number := Repeat('0', l.zeros) + l.digits;
    DigitShown(number, base, 0);
    DigitShown(number, base, |number| - 1);
    Regroup(Repeat(' ', l.left), l.sign, Repeat('0', l.zeros), l.digits, Repeat(' ', l.right));
    ReadSigned(l.left, l.sign, number, l.right, base);
  }

  lemma Regroup(a: string, b: string, c: string, d: string, e: string)
    ensures a + b + c + d + e == a + ((b + (c + d)) + e)
  {
  }

  lemma Behind(t: string, a: string, b: string, c: string, d: string, e: string)
    ensures t + (a + b + c + d + e) == ((((t + a) + b) + c) + d) + e
  {
  }

  lemma UnpadSpace(s: string)
    ensures Unpadded(" " + s) == Unpadded(s)
  {
    assert (" " + s)[1..] == s;
  }

  // ---- the routine

  class OutputStream {
    var text: string

    constructor ()
      ensures text == ""
    {
      text := "";
    }

    method Put(c: char)
      modifies this
      ensures text == old(text) + [c]
    {
      text := text + [c];
    }
  }

  method PutMany(buffer: OutputStream, c: char, n: int)
    modifies buffer
    ensures buffer.text == old(buffer.text) + Repeat(c, n)
  {
    var k := 0;
    while k < n
      invariant 0 <= k && (k <= n || k == 0) && buffer.text == old(buffer.text) + Repeat(c, k)
    {
      buffer.Put(c);
      k := k + 1;
    }
  }

  /** uvalue / base */
  function Quotient(u: nat, base: nat): nat
    requires Base(base)
  {
    u / base
  }

  lemma LastDigit(u: nat, base: nat, up: bool)
    requires Base(base)
    ensures var s := Digits(u, base, up);
      && s[|s| - 1] == DigitOf(u % base, up)
      && (Quotient(u, base) == 0 ==> |s| == 1)
      && (Quotient(u, base) > 0 ==> |s| > 1 && s[..|s| - 1] == Digits(Quotient(u, base), base, up))
  {
    hide DigitOf;
    if u < base {
      assert u % base == u && u / base == 0;
    } else {
      assert u / base > 0;
    }
  }

  /** The digit loop: least significant first, at most 20 of them. */
  method Convert(uvalue0: nat, base: nat, up: bool) returns (convert: array<char>, place: nat)
    requires Base(base) && uvalue0 < 0x1_0000_0000
    ensures fresh(convert) && convert.Length == 20 && place == |Digits(uvalue0, base, up)| <= 11
    ensures forall i :: 0 <= i < place ==> convert[i] == Digits(uvalue0, base, up)[place - 1 - i]
  {
    hide Digits, Quotient;
    convert := new char[20];
    place := 0;
    var uvalue: nat := uvalue0;
    ghost var all := Digits(uvalue0, base, up);
    while true
      invariant place < |all| && place < 20
      invariant Digits(uvalue, base, up) == all[..|all| - place]
      invariant forall i :: 0 <= i < place ==> convert[i] == all[|all| - 1 - i]
      decreases |all| - place
    {
      LastDigit(uvalue, base, up);
      convert[place] := DigitOf(uvalue % base, up);
      place := place + 1;
      uvalue := Quotient(uvalue, base);
      if !(uvalue != 0 && place < 20) {
        break;
      }
    }
    if place == 20 {
      place := place - 1;
    }
    FewDigits(uvalue0, base, up);
  }

  /** The stored digits, last one first */
  method PutDigits(buffer: OutputStream, convert: array<char>, count: nat, ghost digits: string)
    requires count == |digits| <= convert.Length
    requires forall i :: 0 <= i < count ==> convert[i] == digits[count - 1 - i]
    modifies buffer
    ensures buffer.text == old(buffer.text) + digits
  {
    var place := count;
    while place > 0
      invariant 0 <= place <= count && buffer.text == old(buffer.text) + digits[..count - place]
    {
      place := place - 1;
      buffer.Put(convert[place]);
      assert digits[..count - place] == digits[..count - place - 1] + [digits[count - place - 1]];
    }
    assert digits[..count] == digits;
  }

  method FmtInt(buffer: OutputStream, value: Long, base: nat, min: int, max0: int, flags: Flags)
    requires Base(base)
    modifies buffer
    ensures buffer.text == old(buffer.text) + Formatted(value, base, min, max0, flags)
  {
    hide Digits, Repeat, DigitOf, Text, LayoutOf, Formatted;
    var max := if max0 < 0 then 0 else max0;
    var sign: string := "";
    var uvalue: nat := value % 0x1_0000_0000;
    if !flags.unsigned {
      if value < 0 {
        sign := "-";
        uvalue := Abs(value);
      } else if flags.plus {
        sign := "+";
      } else if flags.space {
        sign := " ";
      }
    }
    var convert, place := Convert(uvalue, base, flags.up);
    var zpadlen := max - place;
    var spadlen := min - Max(max, place) - |sign|;
    if zpadlen < 0 {
      zpadlen := 0;
    }
    if spadlen < 0 {
      spadlen := 0;
    }
    if flags.zero {
      zpadlen := Max(zpadlen, spadlen);
      spadlen := 0;
    }
    if flags.minus {
      spadlen := -spadlen;
    }
    ghost var l := Layout(spadlen, sign, zpadlen, Digits(uvalue, base, flags.up), -spadlen);
    Emit(buffer, l, convert, place, spadlen, sign, zpadlen);
    SameText(value, base, min, max0, flags, place, zpadlen, spadlen);
  }

  /** A negative pad is one on the right. */
  lemma SameText(value: Long, base: nat, min: int, max: int, flags: Flags, place: nat, zpadlen: int, spadlen: int)
    requires Base(base) && place == |Digits(Magnitude(value, flags), base, flags.up)|
    requires var precision := Max(max, 0);
      var z, pad := Max(precision - place, 0), Max(min - Max(precision, place) - |SignOf(value, flags)|, 0);
      && zpadlen == (if flags.zero then Max(z, pad) else z)
      && spadlen == (if flags.zero then 0 else if flags.minus then -pad else pad)
    ensures var digits := Digits(Magnitude(value, flags), base, flags.up);
      Text(Layout(spadlen, SignOf(value, flags), zpadlen, digits, -spadlen)) == Formatted(value, base, min, max, flags)
  {
    hide Digits, Repeat, Magnitude;
    NoRepeat(' ', spadlen);
    NoRepeat(' ', -spadlen);
  }

  /** Spaces when spadlen is positive, sign, zeros, digits, spaces when it is negative. */
  method Emit(buffer: OutputStream, ghost l: Layout, convert: array<char>, place: nat, spadlen: int, sign: string,
              zpadlen: int)
    requires l.left == spadlen && l.sign == sign && l.zeros == zpadlen && l.right == -spadlen && |sign| <= 1
    requires place == |l.digits| <= convert.Length
    requires forall i :: 0 <= i < place ==> convert[i] == l.digits[place - 1 - i]
    modifies buffer
    ensures buffer.text == old(buffer.text) + Text(l)
  {
    hide Repeat;
    PutMany(buffer, ' ', spadlen);
    if sign != "" {
      buffer.Put(sign[0]);
    }
    PutMany(buffer, '0', zpadlen);
    PutDigits(buffer, convert, place, l.digits);
    PutMany(buffer, ' ', -spadlen);
    assert sign == "" || sign == [sign[0]];
    Behind(old(buffer.text), Repeat(' ', l.left), l.sign, Repeat('0', l.zeros), l.digits, Repeat(' ', l.right));
  }

  lemma NoRepeat(c: char, n: int)
    ensures n <= 0 ==> Repeat(c, n) == "" == Repeat(c, 0)
  {
  }
}
