/**
 * The NPC base record of objects/npc/npc.hpp: the kind enumeration, the
 * 32-bit integer range of its coordinates, the squared-distance test, the
 * observer list and its notification, and the text record written by `save`
 * and read back by the stream constructor.
 */
module NpcBase {

  // ---------------------------------------------------------------------
  // Kinds
  // ---------------------------------------------------------------------

  /** The `NpcType` enumeration; `Unknown` is the value 0 of the enumeration. */
  datatype NpcType = Unknown | DragonType | PrincessType | KnightType

  /** The kind of an NPC object: every concrete NPC class passes its own kind. */
  type Kind = t: NpcType | t != Unknown witness DragonType

  /** The integer value of an enumerator, as `os << KnightType` writes it. */
  function TypeTag(t: NpcType): (n: int)
    ensures 0 <= n <= 3
    ensures n == 0 <==> t == Unknown
  {
    match t
    case Unknown => 0
    case DragonType => 1
    case PrincessType => 2
    case KnightType => 3
  }

  /** Distinct enumerators have distinct integer values. */
  lemma TypeTagInjective(s: NpcType, t: NpcType)
    ensures TypeTag(s) == TypeTag(t) ==> s == t
  {
  }

  // ---------------------------------------------------------------------
  // Machine integers
  // ---------------------------------------------------------------------

  const MinInt32: int := -0x8000_0000
  const MaxInt32: int := 0x7fff_ffff
  const MinInt64: int := -0x8000_0000_0000_0000
  const MaxInt64: int := 0x7fff_ffff_ffff_ffff

  predicate IsInt32(v: int) { MinInt32 <= v <= MaxInt32 }

  /** The C++ `int` of the coordinates. */
  type Int32 = v: int | IsInt32(v)

  /** Two's-complement wrap-around of a `long` (64-bit) result: the value of the range congruent to v modulo 2^64. */
  function Wrap64(v: int): (r: int)
    ensures MinInt64 <= r <= MaxInt64
    ensures (v - r) % 0x1_0000_0000_0000_0000 == 0
    ensures MinInt64 <= v <= MaxInt64 ==> r == v
  {
    (v - MinInt64) % 0x1_0000_0000_0000_0000 + MinInt64
  }

  // ---------------------------------------------------------------------
  // Distance test
  // ---------------------------------------------------------------------

  function Abs(v: int): nat
  {
    if v < 0 then -v else v
  }

  /** n * n, as the sum of the first n odd numbers; SquareIsProduct states that it is the product. */
  function Square(n: nat): nat
  {
    if n == 0 then 0 else Square(n - 1) + 2 * n - 1
  }

  lemma {:induction false} SquareIsProduct(n: nat)
    ensures Square(n) == n * n
  {
    if n > 0 {
      SquareIsProduct(n - 1);
      assert (n - 1) * (n - 1) == n * n - 2 * n + 1;
    }
  }

  /** Exact test: squared Euclidean distance at most the squared radius. */
  predicate Within(x1: int, y1: int, x2: int, y2: int, distance: nat)
  {
    Square(Abs(x1 - x2)) + Square(Abs(y1 - y2)) <= Square(distance)
  }

  lemma MulMonotone(a: nat, b: int, c: int)
    requires b <= c
    ensures a * b <= a * c
  {
  }

  lemma SquareAtMost(a: int, m: nat)
    requires -(m as int) <= a <= m
    ensures 0 <= a * a <= m * m
  {
    var b := Abs(a);
    assert a * a == b * b;
    MulMonotone(b, b, m);
    MulMonotone(m, b, m);
  }

  /** The exact test in terms of products. */
  lemma WithinAsProducts(x1: int, y1: int, x2: int, y2: int, distance: nat)
    ensures Within(x1, y1, x2, y2, distance)
            == ((x1 - x2) * (x1 - x2) + (y1 - y2) * (y1 - y2) <= distance * distance)
  {
    var dx, dy := Abs(x1 - x2), Abs(y1 - y2);
    SquareIsProduct(dx);
    SquareIsProduct(dy);
    SquareIsProduct(distance);
    assert dx * dx == (x1 - x2) * (x1 - x2);
    assert dy * dy == (y1 - y2) * (y1 - y2);
  }

  /** The largest radius whose square still fits in a `long`. */
  const MaxExactRadius: nat := 3037000499

  /**
   * The inputs on which no step of `is_close` overflows: both differences
   * fit in an `int`, they are not both the most negative `int`, and the
   * radius is at most MaxExactRadius. NoWrapExactly states that these are
   * exactly the inputs whose `long` results all lie in range.
   */
  predicate NoWrap(x1: int, y1: int, x2: int, y2: int, distance: nat)
  {
    IsInt32(x1 - x2) && IsInt32(y1 - y2) && !(x1 - x2 == MinInt32 && y1 - y2 == MinInt32)
    && distance <= MaxExactRadius
  }

  /**
   * `is_close` as written: the differences are taken in `int`, then widened
   * to `long`, squared and summed in `long`; the radius is cast from `size_t`
   * to `long` (modular, as C++20 defines it) and squared in `long`. Signed
   * overflow of `long` is undefined in C++; it is modelled here as the
   * two's-complement wrap-around that common compilers produce. On the inputs
   * of NoWrap, where nothing overflows, the answer is the exact test.
   */
  function IsCloseAsWritten(x1: int, y1: int, x2: int, y2: int, distance: nat): (close: bool)
    requires IsInt32(x1 - x2) && IsInt32(y1 - y2)
    ensures NoWrap(x1, y1, x2, y2, distance) ==> close == Within(x1, y1, x2, y2, distance)
  {
    var dx := x1 - x2;
    var dy := y1 - y2;
    var r := Wrap64(distance);
    LongArithmeticExact(x1, y1, x2, y2, distance);
    WithinAsProducts(x1, y1, x2, y2, distance);
    Wrap64(dx * dx + dy * dy) <= Wrap64(r * r)
  }

  /** On the inputs of NoWrap, the `long` sum of squares, cast radius and squared radius are exact. */
  lemma LongArithmeticExact(x1: int, y1: int, x2: int, y2: int, distance: nat)
    ensures NoWrap(x1, y1, x2, y2, distance) ==>
              var dx, dy := x1 - x2, y1 - y2;
              Wrap64(dx * dx + dy * dy) == dx * dx + dy * dy
              && Wrap64(distance) == distance && Wrap64(distance * distance) == distance * distance
  {
    if NoWrap(x1, y1, x2, y2, distance) {
      SumOfSquaresFits(x1 - x2, y1 - y2);
      SquareAtMost(distance, MaxExactRadius);
      assert MaxExactRadius * MaxExactRadius <= MaxInt64;
    }
  }

  /** Two `int` values, not both the most negative one, have a sum of squares that fits in a `long`. */
  lemma SumOfSquaresFits(dx: int, dy: int)
    requires IsInt32(dx) && IsInt32(dy) && !(dx == MinInt32 && dy == MinInt32)
    ensures dx * dx + dy * dy <= MaxInt64
  {
    var m: nat := -MinInt32;
    SquareAtMost(dx, m);
    SquareAtMost(dy, m);
    if dx == MinInt32 {
      SquareAtMost(dy, MaxInt32);
    } else {
      SquareAtMost(dx, MaxInt32);
    }
    assert m * m + MaxInt32 * MaxInt32 <= MaxInt64;
  }

  /**
   * NoWrap is exactly "nothing overflows": the `long` sum of squares, the
   * cast radius and the squared radius all lie in the range of `long`.
   */
  lemma NoWrapExactly(x1: int, y1: int, x2: int, y2: int, distance: nat)
    requires IsInt32(x1 - x2) && IsInt32(y1 - y2)
    ensures NoWrap(x1, y1, x2, y2, distance) <==>
              (x1 - x2) * (x1 - x2) + (y1 - y2) * (y1 - y2) <= MaxInt64
              && distance <= MaxInt64 && distance * distance <= MaxInt64
  {
    var dx, dy := x1 - x2, y1 - y2;
    if NoWrap(x1, y1, x2, y2, distance) {
      LongArithmeticExact(x1, y1, x2, y2, distance);
    } else if dx == MinInt32 && dy == MinInt32 {
      assert dx * dx + dy * dy == 0x8000_0000_0000_0000;
    } else {
      var e: nat := MaxExactRadius + 1;
      assert e <= distance;
      SquareAtMost(e, distance);
      assert e * e == 9223372037000250000;
    }
  }

  /**
   * The sum of squares overflows: with both differences equal to the most
   * negative `int` it is 2^63, one past the largest `long`, and wraps to the
   * smallest one, so two NPCs far apart are reported close even at radius 0.
   */
  lemma AsWrittenOverflows(x: int)
    requires x == MinInt32
    ensures IsCloseAsWritten(x, x, 0, 0, 0)
    ensures !Within(x, x, 0, 0, 0)
  {
    assert x * x + x * x == 0x8000_0000_0000_0000;
    assert Wrap64(0x8000_0000_0000_0000) == MinInt64;
    WithinAsProducts(x, x, 0, 0, 0);
  }

  /**
   * The squared radius overflows: at radius 3037000500 its square exceeds
   * the largest `long` and wraps to a negative number, so two NPCs on the
   * same cell are reported not close, although they are close at radius 0.
   */
  lemma AsWrittenRadiusOverflows(x: int, y: int, d: nat)
    requires IsInt32(x) && IsInt32(y) && d == MaxExactRadius + 1
    ensures IsCloseAsWritten(x, y, x, y, 0)
    ensures !IsCloseAsWritten(x, y, x, y, d)
    ensures Within(x, y, x, y, d)
  {
    assert d * d == 9223372037000250000;
    assert Wrap64(d * d) == 9223372037000250000 - 0x1_0000_0000_0000_0000;
    WithinSamePosition(x, y, d);
  }

  /** Closeness does not depend on which NPC asks. */
  lemma {:induction false} WithinSymmetric(x1: int, y1: int, x2: int, y2: int, distance: nat)
    ensures Within(x1, y1, x2, y2, distance) == Within(x2, y2, x1, y1, distance)
  {
    assert Abs(x1 - x2) == Abs(x2 - x1) && Abs(y1 - y2) == Abs(y2 - y1);
  }

  /** A point close at some radius is close at every larger radius. */
  lemma {:induction false} WithinMonotone(x1: int, y1: int, x2: int, y2: int, d: nat, e: nat)
    requires d <= e
    ensures Within(x1, y1, x2, y2, d) ==> Within(x1, y1, x2, y2, e)
  {
    SquareIsProduct(d);
    SquareIsProduct(e);
    SquareAtMost(d, e);
  }

  /** Two NPCs on the same cell are close at every radius, 0 included. */
  lemma WithinSamePosition(x: int, y: int, distance: nat)
    ensures Within(x, y, x, y, distance)
  {
  }

  /** The boundary is inclusive: (0,0) and (3,4) are close at 5, not at 4. */
  lemma WithinBoundaryExample()
    ensures Within(0, 0, 3, 4, 5) && !Within(0, 0, 3, 4, 4)
  {
  }

  // ---------------------------------------------------------------------
  // Text written by `save`
  // ---------------------------------------------------------------------

  predicate IsDigit(c: char) { '0' <= c <= '9' }

  /** The characters `>>` skips: space, tab, newline, vertical tab, form feed, carriage return. */
  predicate IsSpace(c: char) { c == ' ' || 9 <= c as int <= 13 }

  function DigitChar(d: nat): (c: char)
    requires d < 10
    ensures IsDigit(c) && !IsSpace(c)
  {
    (('0' as int) + d) as char
  }

  function DigitValue(c: char): (d: nat)
    requires IsDigit(c)
    ensures d < 10
  {
    (c as int) - ('0' as int)
  }

  /** Decimal digits of a natural number, most significant first. */
  function NatText(n: nat): (s: string)
    ensures |s| >= 1
    ensures forall k :: 0 <= k < |s| ==> IsDigit(s[k])
  {
    if n < 10 then [DigitChar(n)] else NatText(n / 10) + [DigitChar(n % 10)]
  }

  /** `os << v` for an `int`: a minus sign for negative values, then the digits. */
  function IntText(v: int): (s: string)
    ensures |s| >= 1 && !IsSpace(s[0])
  {
    if v < 0 then "-" + NatText(-v) else NatText(v)
  }

  /** `NPC::save`: name, x and y, each followed by a newline. */
  function RecordText(name: string, x: int, y: int): (text: string)
    ensures |text| == |name| + |IntText(x)| + |IntText(y)| + 3
    ensures text[..|name|] == name && text[|name|] == '\n' && text[|text| - 1] == '\n'
    ensures text[|name| + 1] == IntText(x)[0]
  {
    name + "\n" + IntText(x) + "\n" + IntText(y) + "\n"
  }

  // ---------------------------------------------------------------------
  // Reading with `>>`
  // ---------------------------------------------------------------------

  /** An input stream: the characters not yet consumed and the fail state. */
  datatype Input = Input(rest: string, failed: bool)

  function SkipSpace(s: string): (r: string)
    ensures |r| <= |s|
    ensures r == [] || !IsSpace(r[0])
  {
    if s != [] && IsSpace(s[0]) then SkipSpace(s[1..]) else s
  }

  /** Number of leading characters that are not white space. */
  function WordLength(s: string): (n: nat)
    ensures n <= |s|
    ensures forall k :: 0 <= k < n ==> !IsSpace(s[k])
    ensures n < |s| ==> IsSpace(s[n])
  {
    if s != [] && !IsSpace(s[0]) then 1 + WordLength(s[1..]) else 0
  }

  /** Number of leading decimal digits. */
  function DigitsLength(s: string): (n: nat)
    ensures n <= |s|
    ensures forall k :: 0 <= k < n ==> IsDigit(s[k])
    ensures n < |s| ==> !IsDigit(s[n])
  {
    if s != [] && IsDigit(s[0]) then 1 + DigitsLength(s[1..]) else 0
  }

  /** Value of a string of decimal digits, most significant first. */
  function DigitsValue(ds: string): nat
    requires forall k :: 0 <= k < |ds| ==> IsDigit(ds[k])
  {
    if ds == [] then 0 else DigitsValue(ds[..|ds| - 1]) * 10 + DigitValue(ds[|ds| - 1])
  }

  datatype WordRead = WordRead(word: string, input: Input)
  datatype IntRead = IntRead(value: Int32, input: Input)

  /**
   * `is >> word`: once the stream has failed nothing happens; otherwise white
   * space is skipped and, if the input is exhausted, the stream fails and the
   * target keeps its value; else the longest run of non-space characters is
   * read.
   */
  function ReadWord(input: Input, current: string): (r: WordRead)
    ensures !r.input.failed ==> !input.failed && |r.word| > 0
    ensures !r.input.failed ==> forall k :: 0 <= k < |r.word| ==> !IsSpace(r.word[k])
    ensures r.input.failed ==> r.word == current
  {
    if input.failed then WordRead(current, input)
    else
      var s := SkipSpace(input.rest);
      if s == [] then WordRead(current, Input(s, true))
      else
        var n := WordLength(s);
        WordRead(s[..n], Input(s[n..], false))
  }

  /**
   * `is >> v` for an `int`: once the stream has failed nothing happens; white
   * space is skipped (exhausted input: failure, value kept); then an optional
   * sign and the longest run of digits. No digit: value 0 and failure. A value
   * outside `int`: the nearest bound and failure.
   */
  function ReadInt(input: Input, current: Int32): (r: IntRead)
    ensures input.failed ==> r == IntRead(current, input)
  {
    if input.failed then IntRead(current, input)
    else
      var s := SkipSpace(input.rest);
      if s == [] then IntRead(current, Input(s, true)) else ScanInt(s)
  }

  /** An optional sign, then the digits. */
  function ScanInt(s: string): (r: IntRead)
    requires s != []
  {
    if s[0] == '-' || s[0] == '+' then ScanDigits(s[1..], s[0] == '-') else ScanDigits(s, false)
  }

  /** The longest run of digits; none: value 0 and failure. */
  function ScanDigits(t: string, negative: bool): (r: IntRead)
  {
    var n := DigitsLength(t);
    if n == 0 then IntRead(0, Input(t, true))
    else FitInt(if negative then -(DigitsValue(t[..n]) as int) else DigitsValue(t[..n]), t[n..])
  }

  /** A value outside `int` becomes the nearest bound and fails the stream. */
  function FitInt(v: int, rest: string): (r: IntRead)
    ensures r.input.rest == rest
    ensures r.input.failed <==> !IsInt32(v)
    ensures IsInt32(v) ==> r.value == v
  {
    if v < MinInt32 then IntRead(MinInt32, Input(rest, true))
    else if v > MaxInt32 then IntRead(MaxInt32, Input(rest, true))
    else IntRead(v, Input(rest, false))
  }

  datatype RecordRead = RecordRead(name: string, x: Int32, y: Int32, input: Input)

  /** `is >> name >> x >> y` into fields that start empty and 0. */
  function ReadRecord(input: Input): (r: RecordRead)
    ensures !r.input.failed ==> !input.failed && |r.name| > 0
  {
    var w := ReadWord(input, "");
    var a := ReadInt(w.input, 0);
    var b := ReadInt(a.input, 0);
    RecordRead(w.word, a.value, b.value, b.input)
  }

  // ---------------------------------------------------------------------
  // Round trip
  // ---------------------------------------------------------------------

  /** A name that `>>` reads back whole: non-empty and without white space. */
  predicate IsWord(name: string)
  {
    |name| > 0 && forall k :: 0 <= k < |name| ==> !IsSpace(name[k])
  }

  predicate AllSpace(s: string)
  {
    forall k :: 0 <= k < |s| ==> IsSpace(s[k])
  }

  lemma {:induction false} SkipSpaceOver(pre: string, s: string)
    requires AllSpace(pre)
    ensures SkipSpace(pre + s) == SkipSpace(s)
  {
    if pre == [] {
      assert pre + s == s;
    } else {
      assert (pre + s)[0] == pre[0];
      assert (pre + s)[1..] == pre[1..] + s;
      SkipSpaceOver(pre[1..], s);
    }
  }

  lemma {:induction false} WordLengthOver(w: string, s: string)
    requires forall k :: 0 <= k < |w| ==> !IsSpace(w[k])
    requires s == [] || IsSpace(s[0])
    ensures WordLength(w + s) == |w|
  {
    if w != [] {
      assert (w + s)[1..] == w[1..] + s;
      WordLengthOver(w[1..], s);
    }
  }

  lemma {:induction false} DigitsLengthOver(ds: string, s: string)
    requires forall k :: 0 <= k < |ds| ==> IsDigit(ds[k])
    requires s == [] || !IsDigit(s[0])
    ensures DigitsLength(ds + s) == |ds|
  {
    if ds != [] {
      assert (ds + s)[1..] == ds[1..] + s;
      DigitsLengthOver(ds[1..], s);
    }
  }

  /** Reading back the digits of a natural number gives the number. */
  lemma {:induction false} DigitsValueOfNatText(n: nat)
    ensures DigitsValue(NatText(n)) == n
  {
    var s := NatText(n);
    if n >= 10 {
      DigitsValueOfNatText(n / 10);
      assert s[..|s| - 1] == NatText(n / 10);
    }
  }

  /** `>>` reads back, from the text that `<<` wrote, the same `int`. */
  lemma {:induction false} ScanNatText(m: nat, s: string, negative: bool)
    requires s == [] || IsSpace(s[0])
    requires IsInt32(if negative then -(m as int) else m)
    ensures ScanDigits(NatText(m) + s, negative) == IntRead(if negative then -(m as int) else m, Input(s, false))
  {
    var ds := NatText(m);
    DigitsLengthOver(ds, s);
    DigitsValueOfNatText(m);
    assert (ds + s)[..|ds|] == ds;
    assert (ds + s)[|ds|..] == s;
  }

  lemma ScanSignedText(m: nat, s: string)
    requires s == [] || IsSpace(s[0])
    requires IsInt32(-(m as int))
    ensures ScanInt("-" + (NatText(m) + s)) == IntRead(-(m as int), Input(s, false))
  {
    var t := NatText(m) + s;
    assert ("-" + t)[1..] == t;
    ScanNatText(m, s, true);
  }

  lemma {:induction false} ScanIntText(v: Int32, s: string)
    requires s == [] || IsSpace(s[0])
    ensures ScanInt(IntText(v) + s) == IntRead(v, Input(s, false))
  {
    if v < 0 {
      var m: nat := -(v as int);
      assert IntText(v) == "-" + NatText(m);
      Assoc("-", NatText(m), s);
      ScanSignedText(m, s);
    } else {
      ScanNatText(v, s, false);
    }
  }

  /** `>>` reads back, from the text that `<<` wrote, the same `int`. */
  lemma {:induction false} ReadIntText(pre: string, v: Int32, s: string, current: Int32)
    requires AllSpace(pre)
    requires s == [] || IsSpace(s[0])
    ensures ReadInt(Input(pre + IntText(v) + s, false), current) == IntRead(v, Input(s, false))
  {
    assert pre + IntText(v) + s == pre + (IntText(v) + s);
    SkipSpaceOver(pre, IntText(v) + s);
    ScanIntText(v, s);
  }

  /**
   * Save/load round trip: reading a record from the text `save` wrote,
   * behind any white space, gives back the same name, x and y and leaves
   * the stream good, positioned after the last number.
   */
  lemma {:induction false} RecordRoundTrip(pre: string, name: string, x: Int32, y: Int32, rest: string)
    requires AllSpace(pre) && IsWord(name)
    ensures ReadRecord(Input(pre + RecordText(name, x, y) + rest, false))
         == RecordRead(name, x, y, Input("\n" + rest, false))
  {
    var afterY := "\n" + rest;
    var afterX := "\n" + IntText(y) + afterY;
    var afterName := "\n" + IntText(x) + afterX;
    RecordTextSplit(pre, name, x, y, rest);
    ReadWordText(pre, name, afterName);
    ReadIntText("\n", x, afterX, 0);
    ReadIntText("\n", y, afterY, 0);
  }

  lemma Assoc(a: string, b: string, c: string)
    ensures (a + b) + c == a + (b + c)
  {
  }

  lemma RecordTextSplit(pre: string, name: string, x: int, y: int, rest: string)
    ensures pre + RecordText(name, x, y) + rest
         == pre + name + ("\n" + IntText(x) + ("\n" + IntText(y) + ("\n" + rest)))
  {
    var nl, tx, ty := "\n", IntText(x), IntText(y);
    var afterY := nl + rest;
    var afterX := nl + ty + afterY;
    var afterName := nl + tx + afterX;
    var r := RecordText(name, x, y);
    Assoc(name + nl + tx + nl + ty, nl, rest);
    Assoc(name + nl + tx + nl, ty, afterY);
    Assoc(name + nl + tx, nl, ty + afterY);
    Assoc(nl, ty, afterY);
    Assoc(name + nl, tx, afterX);
    Assoc(name, nl, tx + afterX);
    Assoc(nl, tx, afterX);
    assert r + rest == name + afterName;
    Assoc(pre, r, rest);
    Assoc(pre, name, afterName);
  }

  /** `>>` reads back a word written before white space. */
  lemma {:induction false} ReadWordText(pre: string, name: string, s: string)
    requires AllSpace(pre) && IsWord(name)
    requires s == [] || IsSpace(s[0])
    ensures ReadWord(Input(pre + name + s, false), "") == WordRead(name, Input(s, false))
  {
    assert pre + name + s == pre + (name + s);
    SkipSpaceOver(pre, name + s);
    WordLengthOver(name, s);
    assert (name + s)[..|name|] == name;
    assert (name + s)[|name|..] == s;
  }

  /**
   * A concrete class's `save` writes its kind's tag on a line of its own and
   * then the base record; reading the tag as an `int` and then the record
   * gives back the tag, the name, x and y.
   */
  lemma {:induction false} TaggedRoundTrip(t: Kind, name: string, x: Int32, y: Int32, rest: string)
    requires IsWord(name)
    ensures var tag := ReadInt(Input(IntText(TypeTag(t)) + "\n" + RecordText(name, x, y) + rest, false), 0);
            tag == IntRead(TypeTag(t), Input("\n" + RecordText(name, x, y) + rest, false))
            && ReadRecord(tag.input) == RecordRead(name, x, y, Input("\n" + rest, false))
  {
    var tag, r := IntText(TypeTag(t)), RecordText(name, x, y);
    var body := "\n" + r + rest;
    Assoc(tag + "\n", r, rest);
    Assoc(tag, "\n", r + rest);
    Assoc("\n", r, rest);
    assert [] + tag == tag;
    ReadIntText([], TypeTag(t), body, 0);
    RecordRoundTrip("\n", name, x, y, rest);
  }

  // ---------------------------------------------------------------------
  // Observers
  // ---------------------------------------------------------------------

  /** An observer, known by its identity only; what it does is I/O. */
  type ObserverId = nat

  /** One call `observer->on_fight(attacker, defender, win)`. */
  datatype Notification = Notification(observer: ObserverId, attacker: Npc, defender: Npc, win: bool)

  /** The calls `fight_notify` makes: one per observer, in subscription order. */
  function Notifications(observers: seq<ObserverId>, attacker: Npc, defender: Npc, win: bool): (calls: seq<Notification>)
    ensures |calls| == |observers|
    ensures forall k :: 0 <= k < |calls| ==> calls[k] == Notification(observers[k], attacker, defender, win)
  {
    if observers == [] then []
    else
      Notifications(observers[..|observers| - 1], attacker, defender, win)
        + [Notification(observers[|observers| - 1], attacker, defender, win)]
  }

  // ---------------------------------------------------------------------
  // The NPC object
  // ---------------------------------------------------------------------

  class Npc {
    /** `type`: set by the constructor of the concrete class and never reassigned. */
    const kind: Kind
    var name: string
    var x: Int32
    var y: Int32
    var observers: seq<ObserverId>

    /** `NPC(t, n, x, y)`: stores every argument unchanged. */
    constructor (t: Kind, n: string, x0: Int32, y0: Int32)
      ensures kind == t && name == n && x == x0 && y == y0 && observers == []
    {
      kind, name, x, y, observers := t, n, x0, y0, [];
    }

    /** `NPC(t, is)`: reads name, x and y from the stream. */
    constructor Load(t: Kind, input: Input)
      ensures var r := ReadRecord(input); name == r.name && x == r.x && y == r.y
      ensures kind == t && observers == []
    {
      var r := ReadRecord(input);
      kind, name, x, y, observers := t, r.name, r.x, r.y, [];
    }

    /** `subscribe`: appends to the observer list. */
    method Subscribe(o: ObserverId)
      modifies this`observers
      ensures observers == old(observers) + [o]
    {
      observers := observers + [o];
    }

    /** `fight_notify`: calls every observer once, in order, with (this, defender, win). */
    method FightNotify(defender: Npc, win: bool) returns (calls: seq<Notification>)
      ensures |calls| == |observers|
      ensures forall k :: 0 <= k < |calls| ==> calls[k] == Notification(observers[k], this, defender, win)
    {
      calls := [];
      var k := 0;
      while k < |observers|
        invariant 0 <= k <= |observers|
        invariant |calls| == k
        invariant forall i :: 0 <= i < k ==> calls[i] == Notification(observers[i], this, defender, win)
      {
        calls := calls + [Notification(observers[k], this, defender, win)];
        k := k + 1;
      }
    }

    /**
     * `is_close`: the squared distance is at most the squared radius. The
     * subtraction is done in `int`, so the differences must fit in one.
     * On the inputs of NoWrap, where the 64-bit computation of the source
     * does not overflow, its answer is this one.
     */
    predicate IsClose(other: Npc, distance: nat)
      reads this, other
      requires IsInt32(x - other.x) && IsInt32(y - other.y)
      ensures NoWrap(x, y, other.x, other.y, distance)
              ==> IsClose(other, distance) == IsCloseAsWritten(x, y, other.x, other.y, distance)
    {
      Within(x, y, other.x, other.y, distance)
    }

    /**
     * `NPC::save`: the name, x and y on lines of their own, so that reading
     * the record back gives the same three fields.
     */
    function SaveText(): (text: string)
      reads this
      ensures IsWord(name) ==> ReadRecord(Input(text, false)) == RecordRead(name, x, y, Input("\n", false))
    {
      var text := RecordText(name, x, y);
      assert IsWord(name) ==> ReadRecord(Input(text, false)) == RecordRead(name, x, y, Input("\n", false)) by {
        if IsWord(name) {
          RecordRoundTrip("", name, x, y, "");
          assert "" + text + "" == text;
        }
      }
      text
    }
  }
}
