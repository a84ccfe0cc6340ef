/** The JavaScript values and number semantics the modelled code relies on:
    record fields as they arrive in JSON, truthiness, the string a value
    becomes when it is used as an object key, `parseInt` without a radix,
    `x || 0`, and NaN-absorbing arithmetic. */
module Js {
  import opened Text

  datatype Option<+T> = None | Some(value: T)

  /** A field of a JSON record. `Undefined` is also what reading a missing
      key gives. JSON numbers are modelled as exact natural numbers; the
      double precision limit and the exponent notation from 10^21 on are
      not modelled. */
  datatype Value = Undefined | Null | Number(n: nat) | Str(s: string)

  /** `!!v`. */
  predicate Truthy(v: Value) {
    match v
    case Undefined => false
    case Null => false
    case Number(n) => n != 0
    case Str(s) => s != ""
  }

  /** `v || fallback`. */
  function OrElse(v: Value, fallback: Value): (r: Value)
    ensures Truthy(v) ==> r == v
    ensures !Truthy(v) ==> r == fallback
  {
    if Truthy(v) then v else fallback
  }

  /** `String(v)`: the key under which `obj[v]` stores and finds a value. */
  function PropertyKey(v: Value): string {
    match v
    case Undefined => "undefined"
    case Null => "null"
    case Number(n) => NatToString(n)
    case Str(s) => s
  }

  /** An integer-valued JavaScript number, or NaN. */
  datatype Num = Int(value: int) | NaN {
    /** `this || 0`. */
    function Or0(): int {
      if NaN? then 0 else value
    }

    /** `this - that`; NaN absorbs. */
    function Minus(that: Num): (r: Num)
      ensures r.NaN? <==> NaN? || that.NaN?
    {
      if NaN? || that.NaN? then NaN else Int(value - that.value)
    }

    /** `this + that`; NaN absorbs. */
    function Plus(that: Num): (r: Num)
      ensures r.NaN? <==> NaN? || that.NaN?
    {
      if NaN? || that.NaN? then NaN else Int(value + that.value)
    }

    /** `!!this`: NaN and 0 are falsy. */
    predicate IsTruthy() {
      Int? && value != 0
    }
  }

  /** A real-valued JavaScript number, or NaN (infinities do not arise in
      the modelled computations). */
  datatype Float = Finite(value: real) | NotANumber {
    function Plus(that: Float): (r: Float)
      ensures r.NotANumber? <==> NotANumber? || that.NotANumber?
    {
      if NotANumber? || that.NotANumber? then NotANumber else Finite(value + that.value)
    }

    /** `a > b`, which is false whenever NaN is involved. */
    predicate Greater(that: Float) {
      Finite? && that.Finite? && value > that.value
    }
  }

  /** `Math.round` on a finite number: the nearest integer, halves
      rounded up. */
  function Round(x: real): (r: int)
    ensures x - 0.5 < r as real <= x + 0.5
  {
    (x + 0.5).Floor
  }

  function Abs(x: real): (r: real)
    ensures r >= 0.0 && (r == x || r == -x)
  {
    if x < 0.0 then -x else x
  }

  /** What the modelled code needs of `Math.log10`: it is 0 at 1 and never
      negative from 1 on. Its exact values are left abstract. */
  ghost predicate ValidLog10(log10: real -> real) {
    log10(1.0) == 0.0 && forall x :: x >= 1.0 ==> log10(x) >= 0.0
  }

  /** `s.reduce((sum, x) => sum + f(x), 0)` over numbers that may be NaN. */
  function FloatSum<T>(s: seq<T>, f: T -> Float): (r: Float)
    ensures r.NotANumber? <==> exists i :: 0 <= i < |s| && f(s[i]).NotANumber?
  {
    if s == [] then Finite(0.0)
    else
      var init := s[..|s| - 1];
      assert forall i :: 0 <= i < |init| ==> init[i] == s[i];
      FloatSum(init, f).Plus(f(s[|s| - 1]))
  }

  lemma FloatSumSingleton<T>(x: T, f: T -> Float)
    ensures FloatSum([x], f) == Finite(0.0).Plus(f(x))
  {
    assert [x][..0] == [];
  }

  lemma FloatSumNonNegative<T>(s: seq<T>, f: T -> Float)
    requires forall i :: 0 <= i < |s| && f(s[i]).Finite? ==> f(s[i]).value >= 0.0
    ensures FloatSum(s, f).Finite? ==> FloatSum(s, f).value >= 0.0
  {
    if s != [] {
      var init := s[..|s| - 1];
      assert forall i :: 0 <= i < |init| ==> init[i] == s[i];
      FloatSumNonNegative(init, f);
    }
  }

  /** Two addends of a running sum can swap places. */
  lemma PlusSwap(a: Float, x: Float, y: Float)
    ensures a.Plus(x).Plus(y) == a.Plus(y).Plus(x)
  {
    if a.Finite? && x.Finite? && y.Finite? {
      assert a.value + x.value + y.value == a.value + y.value + x.value;
    }
  }

  /** Taking one element out of the sum and adding it at the end gives the
      same result. */
  lemma {:induction false} FloatSumRemove<T>(s: seq<T>, j: nat, f: T -> Float)
    requires j < |s|
    ensures FloatSum(s, f) == FloatSum(s[..j] + s[j + 1..], f).Plus(f(s[j]))
  {
    var rest := s[..j] + s[j + 1..];
    var init := s[..|s| - 1];
    var last := s[|s| - 1];
    assert FloatSum(s, f) == FloatSum(init, f).Plus(f(last));
    if j < |s| - 1 {
      var restInit := init[..j] + init[j + 1..];
      FloatSumRemove(init, j, f);
      assert init[j] == s[j];
      assert rest[..|rest| - 1] == restInit;
      assert rest[|rest| - 1] == last;
      assert FloatSum(rest, f) == FloatSum(restInit, f).Plus(f(last));
      PlusSwap(FloatSum(restInit, f), f(s[j]), f(last));
    } else {
      assert rest == init;
    }
  }

  /** The sum does not depend on the order of the elements. */
  lemma {:induction false} FloatSumPermutation<T>(a: seq<T>, b: seq<T>, f: T -> Float)
    requires multiset(a) == multiset(b)
    ensures FloatSum(a, f) == FloatSum(b, f)
    decreases |a|
  {
    if a != [] {
      var x := a[|a| - 1];
      var init := a[..|a| - 1];
      assert a == init + [x];
      assert x in multiset(b);
      var j :| 0 <= j < |b| && b[j] == x;
      var rest := b[..j] + b[j + 1..];
      assert b == b[..j] + [x] + b[j + 1..];
      assert multiset(b) == multiset(b[..j]) + multiset{x} + multiset(b[j + 1..]);
      assert multiset(a) == multiset(init) + multiset{x};
      assert multiset(rest) == multiset(b[..j]) + multiset(b[j + 1..]);
      assert multiset(init) == multiset(a) - multiset{x};
      assert multiset(rest) == multiset(b) - multiset{x};
      FloatSumPermutation(init, rest, f);
      FloatSumRemove(b, j, f);
    } else {
      assert b == [];
    }
  }

  /** `s.map(f)` where `f` may throw (`None`): the results in order, or
      `None` as soon as one call throws. */
  function MapOption<A, B>(s: seq<A>, f: A -> Option<B>): (r: Option<seq<B>>)
    ensures r.Some? <==> forall i :: 0 <= i < |s| ==> f(s[i]).Some?
    ensures r.Some? ==> |r.value| == |s| && forall i :: 0 <= i < |s| ==> f(s[i]) == Some(r.value[i])
  {
    if s == [] then Some([])
    else
      var init := s[..|s| - 1];
      assert forall i :: 0 <= i < |init| ==> init[i] == s[i];
      match MapOption(init, f)
      case None => None
      case Some(done) =>
        match f(s[|s| - 1])
        case None => None
        case Some(y) => Some(done + [y])
  }

  /** The value of a letter or digit in bases up to 36, or 36 when `c` is
      neither. */
  function DigitValue(c: char): nat {
    if '0' <= c <= '9' then c as nat - '0' as nat
    else if 'a' <= c <= 'z' then c as nat - 'a' as nat + 10
    else if 'A' <= c <= 'Z' then c as nat - 'A' as nat + 10
    else 36
  }

  /** The longest prefix of `s` made of digits of the given base. */
  function DigitPrefix(s: string, radix: nat): (d: string)
    ensures |d| <= |s| && d == s[..|d|]
    ensures forall i :: 0 <= i < |d| ==> DigitValue(d[i]) < radix
    ensures |d| < |s| ==> DigitValue(s[|d|]) >= radix
  {
    if s != [] && DigitValue(s[0]) < radix then [s[0]] + DigitPrefix(s[1..], radix) else []
  }

  /** The number a string of digits denotes, most significant first. */
  function DigitsValue(d: string, radix: nat): nat {
    if d == [] then 0 else DigitsValue(d[..|d| - 1], radix) * radix + DigitValue(d[|d| - 1])
  }

  /** The longest run of base-`radix` digits at the front of `s`, read as
      a number; NaN when there is none. */
  function LeadingNumber(s: string, radix: nat): Num {
    var digits := DigitPrefix(s, radix);
    if digits == [] then NaN else Int(DigitsValue(digits, radix))
  }

  /** `parseInt` after the sign: base 16 after `0x` or `0X`, base 10
      otherwise. */
  function ParseUnsigned(s: string): Num {
    if |s| >= 2 && s[0] == '0' && (s[1] == 'x' || s[1] == 'X') then LeadingNumber(s[2..], 16)
    else LeadingNumber(s, 10)
  }

  /** `parseInt(s)` with no radix argument: skip leading white space, take
      an optional sign, then an optional `0x`/`0X` (base 16, otherwise base
      10), then the longest run of digits; NaN when that run is empty. */
  function ParseInt(input: string): (r: Num)
    ensures TrimStart(input) == [] ==> r == NaN
    ensures r.Int? && r.value < 0 ==> |TrimStart(input)| > 0 && TrimStart(input)[0] == '-'
  {
    var s := TrimStart(input);
    if |s| > 0 && s[0] == '-' then
      match ParseUnsigned(s[1..])
      case NaN => NaN
      case Int(n) => Int(-n)
    else if |s| > 0 && s[0] == '+' then ParseUnsigned(s[1..])
    else ParseUnsigned(s)
  }

  /** `parseInt(v)` for a field value: the value is first turned into a
      string, so `undefined` and `null` give NaN. */
  function ParseIntValue(v: Value): (r: Num)
    ensures v.Undefined? || v.Null? ==> r == NaN
    ensures v.Number? ==> r == Int(v.n)
    ensures v.Str? ==> r == ParseInt(v.s)
  {
    match v
    case Undefined => NaN
    case Null => NaN
    case Number(n) => Int(n)
    case Str(s) => ParseInt(s)
  }

  /** `parseInt(s.replace(/[^0-9]/g, ''))`. */
  function ParseDigits(s: string): Num {
    ParseInt(DigitsOnly(s))
  }

  lemma {:induction false} DigitPrefixOfDigits(d: string)
    requires forall i :: 0 <= i < |d| ==> IsDecimalDigit(d[i])
    ensures DigitPrefix(d, 10) == d
  {
    if d != [] {
      DigitPrefixOfDigits(d[1..]);
    }
  }

  /** A string that starts with neither white space, a sign nor `0x` is
      read in base 10 from its first character. */
  lemma ParseIntPlain(s: string)
    requires TrimStart(s) == s
    requires s == [] || (s[0] != '-' && s[0] != '+')
    requires |s| < 2 || s[0] != '0' || (s[1] != 'x' && s[1] != 'X')
    ensures ParseInt(s) == LeadingNumber(s, 10)
  {
  }

  /** A plain decimal numeral parses as the number it spells. */
  lemma ParseIntOfDigits(d: string)
    requires d != [] && forall i :: 0 <= i < |d| ==> IsDecimalDigit(d[i])
    ensures ParseInt(d) == Int(DigitsValue(d, 10))
  {
    assert IsDecimalDigit(d[0]) && !IsJsSpace(d[0]);
    assert TrimStart(d) == d;
    if |d| >= 2 {
      assert IsDecimalDigit(d[1]);
    }
    ParseIntPlain(d);
    DigitPrefixOfDigits(d);
  }

  /** Stripping every non-digit first leaves a plain decimal numeral, so the
      result is NaN exactly when `s` has no digit, and otherwise the
      non-negative number its digits spell. */
  lemma ParseDigitsValue(s: string)
    ensures DigitsOnly(s) == [] ==> ParseDigits(s) == NaN
    ensures DigitsOnly(s) != [] ==> ParseDigits(s) == Int(DigitsValue(DigitsOnly(s), 10))
  {
    var d := DigitsOnly(s);
    if d == [] {
      assert TrimStart(d) == d;
    } else {
      ParseIntOfDigits(d);
    }
  }

  /** `parseInt` reads only the leading run of digits. */
  lemma ParseIntStopsAtComma()
    ensures ParseInt("1,204") == Int(1)
  {
    var s := "1,204";
    assert TrimStart(s) == s;
    assert s[1..] == ",204";
    assert DigitValue(',') == 36;
    assert DigitPrefix(",204", 10) == [];
    assert DigitPrefix(s, 10) == "1";
    assert DigitsValue("1", 10) == 1 by { assert "1"[..0] == ""; }
  }

  lemma ParseIntWithoutDigits()
    ensures ParseInt("n/a") == NaN
  {
    assert TrimStart("n/a") == "n/a";
    assert DigitPrefix("n/a", 10) == [];
  }

  lemma ParseIntSignAndSpace()
    ensures ParseInt(" -12px") == Int(-12)
  {
    assert TrimStart("-12px") == "-12px";
    assert TrimStart(" -12px") == "-12px";
    assert " -12px"[1..] == "-12px";
    assert "-12px"[1..] == "12px";
    TwelvePx();
  }

  /** The digits "12" of "12px" read as twelve. */
  lemma TwelvePx()
    ensures ParseUnsigned("12px") == Int(12)
  {
    assert DigitPrefix("px", 10) == [];
    assert DigitPrefix("2px", 10) == "2";
    assert DigitPrefix("12px", 10) == "12";
    assert DigitsValue("1", 10) == 1 by { assert "1"[..0] == ""; }
    assert DigitsValue("12", 10) == 12 by { assert "12"[..1] == "1"; }
  }

  lemma HexDigits()
    ensures DigitPrefix("1A", 16) == "1A" && DigitsValue("1A", 16) == 26
  {
    assert DigitPrefix("", 16) == [];
    assert DigitPrefix("A", 16) == "A";
    assert DigitsValue("1", 16) == 1 by { assert "1"[..0] == ""; }
    assert "1A"[..1] == "1";
  }

  lemma ParseIntHexPrefix()
    ensures ParseInt("0x1A") == Int(26)
  {
    assert TrimStart("0x1A") == "0x1A";
    assert "0x1A"[2..] == "1A";
    HexDigits();
  }
}
