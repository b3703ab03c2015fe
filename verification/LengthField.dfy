/** Length fields: fixed-width numbers in front of a frame, in binary or as zero-padded decimals
    (`contribute/agonet/simple/codec_length_field_decoder.go`, `codec_length_field_str_decoder.go`). */
module LengthField {
  import opened Options
  import opened Connection

  const MAX_INT64 := 0x7FFF_FFFF_FFFF_FFFF
  const TWO_64 := 0x1_0000_0000_0000_0000

  type int64 = x: int | -MAX_INT64 - 1 <= x <= MAX_INT64

  /** Two's complement wrap-around of a 64-bit result. */
  function Wrap(x: int): int64 {
    (x + MAX_INT64 + 1) % TWO_64 - MAX_INT64 - 1
  }

  // ----- Numbers in a base -----

  function Pow(base: nat, width: nat): nat {
    if width == 0 then 1 else base * Pow(base, width - 1)
  }

  lemma EuclideanDivision(n: nat, base: nat)
    requires base > 1
    ensures 0 <= n % base < base && n == base * (n / base) + n % base
  {}

  lemma QuotientBound(n: nat, base: nat, q: nat, r: nat)
    requires base > 1 && n == base * q + r
    ensures q <= n
  {
    assert (base - 2) * q >= 0;
  }

  lemma DivMod(n: nat, base: nat)
    requires base > 1
    ensures 0 <= n / base <= n && 0 <= n % base < base && n == base * (n / base) + n % base
  {
    EuclideanDivision(n, base);
    QuotientBound(n, base, n / base, n % base);
  }

  ghost predicate AllBelow(ds: seq<nat>, base: nat) {
    forall i :: 0 <= i < |ds| ==> ds[i] < base
  }

  /** The lowest `width` digits of `n`, highest first. */
  function Digits(base: nat, n: nat, width: nat): (ds: seq<nat>)
    requires base > 1
    ensures |ds| == width && AllBelow(ds, base)
    decreases width
  {
    DivMod(n, base);
    if width == 0 then [] else Digits(base, n / base, width - 1) + [n % base]
  }

  function Number(base: nat, ds: seq<nat>): nat {
    if ds == [] then 0 else Number(base, ds[..|ds| - 1]) * base + ds[|ds| - 1]
  }

  lemma NumberOfLonger(base: nat, ds: seq<nat>, d: nat)
    ensures Number(base, ds + [d]) == Number(base, ds) * base + d
  {
    assert (ds + [d])[..|ds|] == ds;
  }

  lemma {:induction false} NumberOfDigits(base: nat, n: nat, width: nat)
    requires base > 1 && n < Pow(base, width)
    ensures Number(base, Digits(base, n, width)) == n
    decreases width
  {
    hide Number;
    DivMod(n, base);
    if width == 0 {
      NumberOfNothing(base);
    } else {
      DivideBound(base, n, Pow(base, width - 1));
      NumberOfDigits(base, n / base, width - 1);
      NumberOfLonger(base, Digits(base, n / base, width - 1), n % base);
    }
  }

  lemma NumberOfNothing(base: nat)
    ensures Number(base, []) == 0
  {}

  lemma DivideBound(base: nat, n: nat, p: nat)
    requires base > 1 && n < base * p
    ensures n / base < p
  {
    DivMod(n, base);
    var q := n / base;
    assert base * q < base * p;
  }

  lemma {:induction false} NumberBound(base: nat, ds: seq<nat>)
    requires base > 1 && AllBelow(ds, base)
    ensures Number(base, ds) < Pow(base, |ds|)
  {
    if ds != [] {
      NumberBound(base, ds[..|ds| - 1]);
      NextBound(base, Number(base, ds[..|ds| - 1]), Pow(base, |ds| - 1), ds[|ds| - 1]);
    }
  }

  lemma NextBound(base: nat, n: nat, p: nat, d: nat)
    requires n < p && d < base
    ensures n * base + d < base * p
  {
    assert (n + 1) * base <= p * base;
  }

  // ----- Binary fields -----

  datatype ByteOrder = BigEndian | LittleEndian

  function Ordered<T>(order: ByteOrder, s: seq<T>): (r: seq<T>)
    ensures |r| == |s|
  {
    if order.BigEndian? then s else seq(|s|, i requires 0 <= i < |s| => s[|s| - 1 - i])
  }

  function Bytes(ds: seq<nat>): (s: seq<byte>)
    requires AllBelow(ds, 256)
    ensures |s| == |ds|
  {
    seq(|ds|, i requires 0 <= i < |ds| => ds[i] as byte)
  }

  function Octets(s: seq<byte>): (ds: seq<nat>)
    ensures |ds| == |s| && AllBelow(ds, 256)
  {
    seq(|s|, i requires 0 <= i < |s| => s[i] as nat)
  }

  predicate IsBinaryWidth(width: int) {
    width == 1 || width == 2 || width == 4 || width == 8
  }

  /** The largest number a field of 1, 2 or 4 bytes holds; an 8-byte field holds every 64-bit pattern. */
  function Capacity(width: nat): int64
    requires IsBinaryWidth(width)
  {
    if width == 1 then 0xFF else if width == 2 then 0xFFFF else if width == 4 then 0xFFFF_FFFF else MAX_INT64
  }

  /** The bytes of `n`, in two's complement and cut to the width. */
  function BinaryField(order: ByteOrder, width: nat, n: int64): (s: seq<byte>)
    ensures |s| == width
  {
    Ordered(order, Bytes(Digits(256, n % TWO_64, width)))
  }

  /** Fills the field from its lowest byte; over capacity, the source panics instead of truncating. */
  method PackFieldLength(order: ByteOrder, width: nat, n: int64) returns (ok: bool, field: seq<byte>)
    requires IsBinaryWidth(width)
    ensures ok <==> n <= Capacity(width)
    ensures ok ==> field == BinaryField(order, width, n)
  {
    hide Digits;
    if width == 1 && n > 0xFF {
      return false, [];
    } else if width == 2 && n > 0xFFFF {
      return false, [];
    } else if width == 4 && n > 0xFFFF_FFFF {
      return false, [];
    }
    var lengthBuff := new byte[width];
    var rest: nat := n % TWO_64;
    ghost var digits := Digits(256, rest, width);
    var i := 0;
    while i < width
      invariant 0 <= i <= width
      invariant Digits(256, rest, width - i) == digits[..width - i]
      invariant forall k :: width - i <= k < width ==>
        lengthBuff[if order.BigEndian? then k else width - 1 - k] as nat == digits[k]
    {
      var at := if order.BigEndian? then width - 1 - i else i;
      LowestDigit(256, rest, width - i);
      DivMod(rest, 256);
      lengthBuff[at] := (rest % 256) as byte;
      rest := rest / 256;
      i := i + 1;
      assert digits[..width - i] == digits[..width - i + 1][..width - i];
    }
    ok, field := true, lengthBuff[..];
    assert forall k :: 0 <= k < width ==> field[k] == BinaryField(order, width, n)[k];
  }

  lemma LowestDigit(base: nat, n: nat, width: nat)
    requires base > 1 && width > 0
    ensures Digits(base, n, width)[width - 1] == n % base
    ensures n / base >= 0 && Digits(base, n, width)[..width - 1] == Digits(base, n / base, width - 1)
  {
    DivMod(n, base);
  }

  /** The number a field holds, read as an unsigned number and converted to 64 bits. */
  function BinaryValue(order: ByteOrder, s: seq<byte>): int64 {
    Wrap(Number(256, Octets(Ordered(order, s))))
  }

  /** The unsigned number that four bytes spell, the first one the most significant. */
  function Word32(s: seq<byte>): nat
    requires |s| == 4
  {
    0x100_0000 * s[0] as nat + 0x1_0000 * s[1] as nat + 0x100 * s[2] as nat + s[3] as nat
  }

  lemma NumberOfOctets(s: seq<byte>, b: byte)
    ensures Number(256, Octets(s + [b])) == 0x100 * Number(256, Octets(s)) + b as nat
  {
    NumberOfLonger(256, Octets(s), b as nat);
    assert Octets(s + [b]) == Octets(s) + [b as nat];
  }

  lemma {:induction false} NumberOfPrefix(s: seq<byte>, n: nat)
    requires n < |s|
    ensures Number(256, Octets(s[..n + 1])) == 0x100 * Number(256, Octets(s[..n])) + s[n] as nat
  {
    hide Number, Octets;
    NumberOfOctets(s[..n], s[n]);
    assert s[..n] + [s[n]] == s[..n + 1];
  }

  lemma NumberOfNone(s: seq<byte>)
    ensures Number(256, Octets(s[..0])) == 0
  {
    NumberOfNothing(256);
  }

  /** The first byte is the most significant one. */
  lemma FirstByteCountsMost(s: seq<byte>)
    ensures |s| == 1 ==> Number(256, Octets(s)) == s[0] as nat
    ensures |s| == 2 ==> Number(256, Octets(s)) == 0x100 * s[0] as nat + s[1] as nat
    ensures |s| == 4 ==> Number(256, Octets(s)) == Word32(s)
    ensures |s| == 8 ==> Number(256, Octets(s)) == 0x1_0000_0000 * Word32(s[..4]) + Word32(s[4..])
  {
    hide Number, Octets;
    assert s[..|s|] == s;
    NumberOfNone(s);
    if |s| >= 1 {
      NumberOfPrefix(s, 0);
    }
    if |s| >= 2 {
      NumberOfPrefix(s, 1);
    }
    if |s| >= 4 {
      NumberOfPrefix(s, 2);
      NumberOfPrefix(s, 3);
    }
    if |s| == 8 {
      NumberOfPrefix(s, 4);
      NumberOfPrefix(s, 5);
      NumberOfPrefix(s, 6);
      NumberOfPrefix(s, 7);
    }
  }

  /** As a number in two's complement. */
  lemma Signed(high: nat, low: nat)
    requires high < 0x1_0000_0000 && low < 0x1_0000_0000
    ensures Wrap(0x1_0000_0000 * high + low) ==
      0x1_0000_0000 * (if high < 0x8000_0000 then high else high - 0x1_0000_0000) + low
  {}

  /** A big-endian field has its most significant byte first; fields of 1, 2 and 4 bytes are unsigned, those of
      8 bytes are in two's complement. */
  lemma BigEndianValue(s: seq<byte>)
    ensures |s| == 1 ==> BinaryValue(BigEndian, s) == s[0] as int
    ensures |s| == 2 ==> BinaryValue(BigEndian, s) == 0x100 * s[0] as int + s[1] as int
    ensures |s| == 4 ==> BinaryValue(BigEndian, s) == Word32(s)
    ensures |s| == 8 ==>
      var high: int := Word32(s[..4]);
      BinaryValue(BigEndian, s) ==
        0x1_0000_0000 * (if high < 0x8000_0000 then high else high - 0x1_0000_0000) + Word32(s[4..])
  {
    hide Number, Octets, Wrap;
    FirstByteCountsMost(s);
    if |s| == 8 {
      Signed(Word32(s[..4]), Word32(s[4..]));
    } else if IsBinaryWidth(|s|) {
      WrapIsIdentity(Number(256, Octets(s)));
    }
  }

  lemma WrapIsIdentity(n: int)
    requires -MAX_INT64 - 1 <= n <= MAX_INT64
    ensures Wrap(n) == n
  {}

  /** A little-endian field is the big-endian one of its bytes in reverse. */
  lemma LittleEndianValue(s: seq<byte>, t: seq<byte>)
    requires |t| == |s| && forall i :: 0 <= i < |s| ==> t[i] == s[|s| - 1 - i]
    ensures BinaryValue(LittleEndian, s) == BinaryValue(BigEndian, t)
  {
    hide Wrap, Number, Octets;
    assert Ordered(LittleEndian, s) == t;
  }

  lemma BytesAndOctets(order: ByteOrder, ds: seq<nat>)
    requires AllBelow(ds, 256)
    ensures Octets(Ordered(order, Ordered(order, Bytes(ds)))) == ds
  {}

  lemma PowersOf256(width: nat)
    requires IsBinaryWidth(width)
    ensures Pow(256, width) == if width == 8 then TWO_64 else Capacity(width) + 1
  {
    assert Pow(256, 1) == 0x100;
    assert Pow(256, 2) == 0x1_0000;
    assert Pow(256, 4) == 0x1_0000_0000;
    assert Pow(256, 5) == 0x100_0000_0000;
    assert Pow(256, 8) == TWO_64;
  }

  /** A packed number reads back exactly when it is not negative, or the field is 8 bytes wide; a
      negative number in a narrower field is cut, and never reads back. */
  lemma BinaryFieldRoundTrip(order: ByteOrder, width: nat, n: int64)
    requires IsBinaryWidth(width) && n <= Capacity(width)
    ensures BinaryValue(order, BinaryField(order, width, n)) == n <==> n >= 0 || width == 8
  {
    hide Pow, Number, Digits, Ordered, Bytes, Octets;
    PowersOf256(width);
    var digits := Digits(256, n % TWO_64, width);
    BytesAndOctets(order, digits);
    NumberBound(256, digits);
    if n >= 0 || width == 8 {
      NumberOfDigits(256, n % TWO_64, width);
    }
  }

  // ----- Decimal fields -----

  /** How many digits the decimal notation of `n` has. */
  function DecimalLength(n: nat): nat {
    if n < 10 then 1 else 1 + DecimalLength(n / 10)
  }

  function Numerals(ds: seq<nat>): (s: seq<byte>)
    requires AllBelow(ds, 10)
    ensures |s| == |ds|
  {
    seq(|ds|, i requires 0 <= i < |ds| => (48 + ds[i]) as byte)
  }

  function Abs(n: int): nat {
    if n >= 0 then n else -n
  }

  /** The zero-padded decimal notation in exactly `width` characters; the source panics if `n` is longer. */
  function PackDecimal(width: nat, n: int64): (field: Option<seq<byte>>)
    ensures field.Some? ==> |field.value| == width
  {
    if n >= 0 then
      if DecimalLength(n) > width then None else Some(Numerals(Digits(10, n, width)))
    else
      if 1 + DecimalLength(Abs(n)) > width then None else Some([45] + Numerals(Digits(10, Abs(n), width - 1)))
  }

  predicate IsSpace(c: byte) {
    9 <= c <= 13 || c == 32
  }

  function TrimLeft(s: seq<byte>): seq<byte> {
    if s != [] && IsSpace(s[0]) then TrimLeft(s[1..]) else s
  }

  function TrimRight(s: seq<byte>): seq<byte> {
    if s != [] && IsSpace(s[|s| - 1]) then TrimRight(s[..|s| - 1]) else s
  }

  predicate AreNumerals(s: seq<byte>) {
    s != [] && forall i :: 0 <= i < |s| ==> 48 <= s[i] <= 57
  }

  function DigitsIn(s: seq<byte>): (ds: seq<nat>)
    requires AreNumerals(s)
    ensures |ds| == |s|
  {
    seq(|s|, i requires 0 <= i < |s| => s[i] as nat - 48)
  }

  /** Decimal notation with an optional sign, as a 64-bit number. */
  function ParseInt(s: seq<byte>): Option<int64> {
    var signed := s != [] && (s[0] == 43 || s[0] == 45);
    var numerals := if signed then s[1..] else s;
    if !AreNumerals(numerals) then None
    else
      var magnitude: int := Number(10, DigitsIn(numerals));
      var n := if signed && s[0] == 45 then -magnitude else magnitude;
      if -MAX_INT64 - 1 <= n <= MAX_INT64 then Some(n) else None
  }

  /** The number a decimal field holds, white space around it ignored; the source panics if there is none. */
  function UnpackDecimal(s: seq<byte>): Option<int64> {
    ParseInt(TrimRight(TrimLeft(s)))
  }

  lemma {:induction false} DecimalLengthFits(n: nat, width: nat)
    requires width > 0
    ensures DecimalLength(n) <= width <==> n < Pow(10, width)
    decreases n
  {
    if n >= 10 {
      if width > 1 {
        DecimalLengthFits(n / 10, width - 1);
        assert Pow(10, width) == 10 * Pow(10, width - 1);
      } else {
        assert Pow(10, 1) == 10 * Pow(10, 0);
      }
    } else {
      PowIsPositive(width - 1);
    }
  }

  lemma {:induction false} PowIsPositive(width: nat)
    ensures Pow(10, width) >= 1
  {
    if width > 0 {
      PowIsPositive(width - 1);
    }
  }

  lemma NumeralsReadBack(ds: seq<nat>)
    requires AllBelow(ds, 10) && ds != []
    ensures AreNumerals(Numerals(ds)) && DigitsIn(Numerals(ds)) == ds
  {}

  /** A decimal field is written exactly for the numbers that fit, and every written field reads back as
      the number it was written for. */
  lemma DecimalFieldRoundTrip(width: nat, n: int64)
    requires width > 0
    ensures PackDecimal(width, n).Some? <==>
      if n >= 0 then n < Pow(10, width) else width > 1 && Abs(n) < Pow(10, width - 1)
    ensures PackDecimal(width, n).Some? ==> UnpackDecimal(PackDecimal(width, n).value) == Some(n)
  {
    hide Pow, Number, Digits, DecimalLength, Numerals, AreNumerals, DigitsIn;
    var magnitude, digits := Abs(n), if n >= 0 then width else width - 1;
    if digits > 0 {
      DecimalLengthFits(magnitude, digits);
    }
    LengthIsPositive(magnitude);
    if PackDecimal(width, n).Some? {
      var ds := Digits(10, magnitude, digits);
      NumeralsReadBack(ds);
      NumberOfDigits(10, magnitude, digits);
      var field := PackDecimal(width, n).value;
      NumeralsAreDark(Numerals(ds));
      if n < 0 {
        assert field[1..] == Numerals(ds);
      }
    }
  }

  lemma LengthIsPositive(n: nat)
    ensures DecimalLength(n) >= 1
  {}

  lemma NumeralsAreDark(s: seq<byte>)
    requires AreNumerals(s)
    ensures !IsSpace(s[0]) && !IsSpace(s[|s| - 1]) && s[0] != 43 && s[0] != 45
  {}

  // ----- What a decimal field denotes -----

  /** The white space of ASCII: tab, line feed, vertical tab, form feed, carriage return, and the blank. */
  predicate AllWhite(s: seq<byte>) {
    forall i :: 0 <= i < |s| ==> s[i] as int in [9, 10, 11, 12, 13, 32]
  }

  function DecimalValue(numerals: seq<byte>): int {
    if numerals == [] then 0
    else 10 * DecimalValue(numerals[..|numerals| - 1]) + numerals[|numerals| - 1] as int - 48
  }

  /** White space, a sign or none, numerals, and white space again. */
  predicate IsDecimal(s: seq<byte>, left: seq<byte>, sign: seq<byte>, numerals: seq<byte>, right: seq<byte>) {
    && s == left + (sign + (numerals + right)) && AllWhite(left) && AllWhite(right)
    && (sign == [] || sign == [43] || sign == [45])
    && numerals != [] && forall i :: 0 <= i < |numerals| ==> 48 <= numerals[i] <= 57
  }

  /** A sign of 45, the minus, makes the number negative. */
  ghost predicate Denotes(s: seq<byte>, n: int) {
    exists left, sign, numerals, right :: IsDecimal(s, left, sign, numerals, right)
      && n == if sign == [45] then -DecimalValue(numerals) else DecimalValue(numerals)
  }

  lemma WhiteIsSpace(c: byte)
    ensures IsSpace(c) <==> c as int in [9, 10, 11, 12, 13, 32]
  {}

  lemma {:induction false} TrimLeftOff(white: seq<byte>, s: seq<byte>)
    requires AllWhite(white) && (s != [] ==> !IsSpace(s[0]))
    ensures TrimLeft(white + s) == s
    decreases |white|
  {
    if white == [] {
      assert white + s == s;
    } else {
      assert (white + s)[1..] == white[1..] + s;
      TrimLeftOff(white[1..], s);
    }
  }

  lemma {:induction false} TrimRightOff(s: seq<byte>, white: seq<byte>)
    requires AllWhite(white) && (s != [] ==> !IsSpace(s[|s| - 1]))
    ensures TrimRight(s + white) == s
    decreases |white|
  {
    if white == [] {
      assert s + white == s;
    } else {
      var n := |white| - 1;
      assert (s + white)[..|s| + n] == s + white[..n];
      TrimRightOff(s, white[..n]);
    }
  }

  lemma {:induction false} TrimLeftIs(s: seq<byte>) returns (white: seq<byte>)
    ensures s == white + TrimLeft(s) && AllWhite(white)
    decreases |s|
  {
    white := [];
    if s != [] && IsSpace(s[0]) {
      var rest := TrimLeftIs(s[1..]);
      white := [s[0]] + rest;
      assert s == [s[0]] + s[1..];
    }
  }

  lemma {:induction false} TrimRightIs(s: seq<byte>) returns (white: seq<byte>)
    ensures s == TrimRight(s) + white && AllWhite(white)
    decreases |s|
  {
    white := [];
    if s != [] && IsSpace(s[|s| - 1]) {
      var n := |s| - 1;
      var rest := TrimRightIs(s[..n]);
      white := rest + [s[n]];
      assert s == s[..n] + [s[n]];
    }
  }

  lemma {:induction false} ValueIsNumber(numerals: seq<byte>)
    requires forall i :: 0 <= i < |numerals| ==> 48 <= numerals[i] <= 57
    ensures numerals != [] ==> DecimalValue(numerals) == Number(10, DigitsIn(numerals))
    ensures numerals == [] ==> DecimalValue(numerals) == 0
  {
    if |numerals| == 1 {
      var d := DigitsIn(numerals);
      NumberOfNothing(10);
      NumberOfLonger(10, [], d[0]);
      assert [] + [d[0]] == d && numerals[..0] == [];
    } else if |numerals| > 1 {
      var n := |numerals| - 1;
      ValueIsNumber(numerals[..n]);
      NumberOfLonger(10, DigitsIn(numerals[..n]), numerals[n] as nat - 48);
      assert DigitsIn(numerals) == DigitsIn(numerals[..n]) + [numerals[n] as nat - 48];
    }
  }

  /** The text between the white space, as a number. */
  lemma ParseIs(sign: seq<byte>, numerals: seq<byte>)
    requires sign == [] || sign == [43] || sign == [45]
    requires AreNumerals(numerals)
    ensures var n := if sign == [45] then -DecimalValue(numerals) else DecimalValue(numerals);
      ParseInt(sign + numerals) == if -MAX_INT64 - 1 <= n <= MAX_INT64 then Some(n) else None
  {
    hide Number, DecimalValue;
    ValueIsNumber(numerals);
    if sign == [] {
      assert sign + numerals == numerals;
    } else {
      assert (sign + numerals)[1..] == numerals;
    }
  }

  lemma DecimalReadsAs(s: seq<byte>, left: seq<byte>, sign: seq<byte>, numerals: seq<byte>, right: seq<byte>)
    requires IsDecimal(s, left, sign, numerals, right)
    ensures var n := if sign == [45] then -DecimalValue(numerals) else DecimalValue(numerals);
      UnpackDecimal(s) == if -MAX_INT64 - 1 <= n <= MAX_INT64 then Some(n) else None
  {
    hide TrimLeft, TrimRight, ParseInt, DecimalValue;
    var inner := sign + numerals;
    assert left + (sign + (numerals + right)) == left + (inner + right);
    assert inner[|inner| - 1] == numerals[|numerals| - 1];
    TrimLeftOff(left, inner + right);
    TrimRightOff(inner, right);
    ParseIs(sign, numerals);
  }

  lemma SignApart(t: seq<byte>) returns (sign: seq<byte>, numerals: seq<byte>)
    requires ParseInt(t).Some?
    ensures t == sign + numerals && (sign == [] || sign == [43] || sign == [45]) && AreNumerals(numerals)
  {
    hide Number;
    if t[0] == 43 || t[0] == 45 {
      sign, numerals := [t[0]], t[1..];
    } else {
      sign, numerals := [], t;
    }
  }

  /** A decimal field holds a number exactly if it denotes one that fits 64 bits, and then that one. */
  lemma DecimalFieldDenotes(s: seq<byte>, n: int)
    ensures UnpackDecimal(s).Some? && UnpackDecimal(s).value == n <==> Denotes(s, n) && -MAX_INT64 - 1 <= n <= MAX_INT64
  {
    hide TrimLeft, TrimRight, ParseInt, DecimalValue, IsDecimal;
    if Denotes(s, n) {
      var left, sign, numerals, right :| IsDecimal(s, left, sign, numerals, right)
        && n == if sign == [45] then -DecimalValue(numerals) else DecimalValue(numerals);
      DecimalReadsAs(s, left, sign, numerals, right);
    }
    if UnpackDecimal(s).Some? {
      var left := TrimLeftIs(s);
      var right := TrimRightIs(TrimLeft(s));
      var sign, numerals := SignApart(TrimRight(TrimLeft(s)));
      PartsOfDecimal(s, left, sign, numerals, right);
      DecimalReadsAs(s, left, sign, numerals, right);
    }
  }

  lemma PartsOfDecimal(s: seq<byte>, left: seq<byte>, sign: seq<byte>, numerals: seq<byte>, right: seq<byte>)
    requires s == left + ((sign + numerals) + right) && AllWhite(left) && AllWhite(right)
    requires (sign == [] || sign == [43] || sign == [45]) && AreNumerals(numerals)
    ensures IsDecimal(s, left, sign, numerals, right)
  {
    assert (sign + numerals) + right == sign + (numerals + right);
  }
}
