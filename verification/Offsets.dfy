/**
 Offset tokens: two 16-digit decimals joined by an underscore. Printing and parsing
 undo each other, and tokens sort byte-wise as the offsets they stand for.
 */
module Offsets {
  import opened Bytes
  import opened Appends

  const ZERO: Byte := 48
  const UNDERSCORE: Byte := 95

  function Pow10(width: nat): (r: nat)
    ensures r > 0
  {
    if width == 0 then 1 else 10 * Pow10(width - 1)
  }

  /** v as exactly `width` zero-padded decimal digits, the higher ones cut off. */
  function Pad(v: nat, width: nat): (s: ByteString)
    ensures |s| == width
  {
    if width == 0 then [] else Pad(v / 10, width - 1) + [ZERO + v % 10]
  }

  predicate AllDigits(s: ByteString) {
    forall i :: 0 <= i < |s| ==> ZERO <= s[i] <= ZERO + 9
  }

  function FromDecimal(s: ByteString): nat
    requires AllDigits(s)
  {
    if s == [] then 0 else 10 * FromDecimal(s[..|s| - 1]) + (s[|s| - 1] - ZERO)
  }

  lemma {:induction false} PadIsDigits(v: nat, width: nat)
    ensures AllDigits(Pad(v, width))
  {
    if width > 0 {
      PadIsDigits(v / 10, width - 1);
    }
  }

  /** A number is read back exactly when it fits the width. */
  lemma {:induction false} PadReadsBack(v: nat, width: nat)
    ensures AllDigits(Pad(v, width)) && FromDecimal(Pad(v, width)) < Pow10(width)
    ensures v < Pow10(width) ==> FromDecimal(Pad(v, width)) == v
  {
    PadIsDigits(v, width);
    if width > 0 {
      PadReadsBack(v / 10, width - 1);
      var s := Pad(v, width);
      assert s[..|s| - 1] == Pad(v / 10, width - 1);
    }
  }

  lemma {:induction false} DigitsPrintBack(s: ByteString)
    requires AllDigits(s)
    ensures FromDecimal(s) < Pow10(|s|) && Pad(FromDecimal(s), |s|) == s
  {
    if s != [] {
      var front := s[..|s| - 1];
      DigitsPrintBack(front);
      assert FromDecimal(s) / 10 == FromDecimal(front);
      assert s == front + [s[|s| - 1]];
    }
  }

  lemma {:induction false} PadOrder(m: nat, n: nat, width: nat)
    requires m < Pow10(width) && n < Pow10(width)
    ensures Less(Pad(m, width), Pad(n, width)) <==> m < n
    ensures Pad(m, width) == Pad(n, width) <==> m == n
  {
    if width == 0 {
      LessIrreflexive([]);
    } else {
      PadOrder(m / 10, n / 10, width - 1);
      PadReadsBack(m, width);
      PadReadsBack(n, width);
      LessByFields(Pad(m / 10, width - 1), [ZERO + m % 10], Pad(n / 10, width - 1), [ZERO + n % 10]);
      LessDigits(ZERO + m % 10, ZERO + n % 10);
    }
  }

  lemma LessDigits(a: Byte, b: Byte)
    ensures Less([a], [b]) <==> a < b
  {
    assert [a][1..] == [] && [b][1..] == [];
  }

  // ----- tokens -----

  function Token(o: Offset): (s: ByteString)
    ensures |s| == 33
  {
    Pad(o.seqno, 16) + [UNDERSCORE] + Pad(o.byte, 16)
  }

  datatype Parsed = At(off: Offset) | Now | Bad

  /** "-1" and "now". */
  const MINUS_ONE: ByteString := [45, 49]
  const NOW: ByteString := [110, 111, 119]

  function Parse(raw: ByteString): Parsed {
    if raw == [] || raw == MINUS_ONE then At(Offset(0, 0))
    else if raw == NOW then Now
    else if |raw| != 33 || raw[16] != UNDERSCORE || !AllDigits(raw[..16]) || !AllDigits(raw[17..]) then Bad
    else At(Offset(FromDecimal(raw[..16]), FromDecimal(raw[17..])))
  }

  /** appendPad16: the array is filled from its end. */
  method AppendPad16(dst: ByteString, v0: nat) returns (r: ByteString)
    ensures r == dst + Pad(v0, 16)
  {
    var tmp := new Byte[16](_ => 0);
    var v := v0;
    var i := 16;
    while i > 0
      invariant 0 <= i <= 16
      invariant Pad(v0, 16) == Pad(v, i) + tmp[i..]
    {
      i := i - 1;
      ghost var rest := tmp[i + 1..];
      ghost var w := v;
      tmp[i] := ZERO + v % 10;
      v := v / 10;
      assert tmp[i..] == [ZERO + w % 10] + rest;
      assert Pad(w, i + 1) + rest == Pad(v, i) + ([ZERO + w % 10] + rest);
    }
    assert Pad(v, 0) + tmp[0..] == tmp[..];
    r := dst + tmp[..];
  }

  method AppendOffset(dst: ByteString, o: Offset) returns (r: ByteString)
    ensures r == dst + Token(o)
  {
    r := AppendPad16(dst, o.seqno);
    r := r + [UNDERSCORE];
    r := AppendPad16(r, o.byte);
  }

  /** strconv.ParseUint in base 10, at 64 bits. */
  method ParseUint(s: ByteString) returns (n: Option<nat>)
    ensures n == if s != [] && AllDigits(s) && FromDecimal(s) < U64_LIMIT then Some(FromDecimal(s)) else None
  {
    if s == [] {
      return None;
    }
    var v := 0;
    var i := 0;
    while i < |s|
      invariant i <= |s| && AllDigits(s[..i]) && v == FromDecimal(s[..i])
    {
      if !(ZERO <= s[i] <= ZERO + 9) {
        return None;
      }
      assert s[..i + 1][..i] == s[..i];
      v := 10 * v + (s[i] - ZERO);
      i := i + 1;
    }
    assert s[..i] == s;
    return if v < U64_LIMIT then Some(v) else None;
  }

  method ParseOffset(raw: ByteString) returns (p: Parsed)
    ensures p == Parse(raw)
  {
    if raw == [] || raw == MINUS_ONE {
      return At(Offset(0, 0));
    }
    if raw == NOW {
      return Now;
    }
    if |raw| != 33 || raw[16] != UNDERSCORE {
      return Bad;
    }
    HalvesFit(raw);
    hide FromDecimal;
    var seqno := ParseUint(raw[..16]);
    if seqno.None? {
      return Bad;
    }
    var byte := ParseUint(raw[17..]);
    if byte.None? {
      return Bad;
    }
    return At(Offset(seqno.value, byte.value));
  }

  lemma Pow10Values()
    ensures Pow10(16) == 10_000_000_000_000_000
  {
    assert Pow10(4) == 10_000;
    assert Pow10(8) == 10_000 * Pow10(4) by {
      assert Pow10(6) == 100 * Pow10(4);
    }
    assert Pow10(12) == 10_000 * Pow10(8) by {
      assert Pow10(10) == 100 * Pow10(8);
    }
    assert Pow10(16) == 10_000 * Pow10(12) by {
      assert Pow10(14) == 100 * Pow10(12);
    }
  }

  /** Sixteen digits never overflow 64 bits. */
  lemma HalvesFit(raw: ByteString)
    requires |raw| == 33
    ensures AllDigits(raw[..16]) ==> FromDecimal(raw[..16]) < U64_LIMIT
    ensures AllDigits(raw[17..]) ==> FromDecimal(raw[17..]) < U64_LIMIT
  {
    Pow10Values();
    if AllDigits(raw[..16]) {
      DigitsPrintBack(raw[..16]);
    }
    if AllDigits(raw[17..]) {
      DigitsPrintBack(raw[17..]);
    }
  }

  /** A printed offset is read back exactly when both components have at most 16 digits. */
  lemma TokenRoundTrip(o: Offset)
    ensures Parse(Token(o)) == At(o) <==> o.seqno < Pow10(16) && o.byte < Pow10(16)
    ensures Parse(Token(o)).At?
  {
    var t := Token(o);
    assert t[..16] == Pad(o.seqno, 16) && t[17..] == Pad(o.byte, 16);
    PadReadsBack(o.seqno, 16);
    PadReadsBack(o.byte, 16);
    hide Pad, FromDecimal, Pow10;
  }

  /** Printing what was parsed from a token gives that token. */
  lemma TokenPrintsBack(raw: ByteString)
    requires |raw| == 33 && Parse(raw).At?
    ensures Token(Parse(raw).off) == raw
  {
    DigitsPrintBack(raw[..16]);
    DigitsPrintBack(raw[17..]);
    hide Pad, FromDecimal;
    assert raw == raw[..16] + [raw[16]] + raw[17..];
  }

  /** Tokens sort as (seq, byte). */
  lemma TokenOrder(a: Offset, b: Offset)
    requires a.seqno < Pow10(16) && a.byte < Pow10(16) && b.seqno < Pow10(16) && b.byte < Pow10(16)
    ensures Less(Token(a), Token(b)) <==> a.seqno < b.seqno || (a.seqno == b.seqno && a.byte < b.byte)
  {
    hide *;
    PadOrder(a.seqno, b.seqno, 16);
    PadOrder(a.byte, b.byte, 16);
    TokenIs(a);
    TokenIs(b);
    var p, q := Pad(a.seqno, 16), Pad(b.seqno, 16);
    LessByFields(p, [UNDERSCORE] + Pad(a.byte, 16), q, [UNDERSCORE] + Pad(b.byte, 16));
    LessCommonPrefix([UNDERSCORE], Pad(a.byte, 16), Pad(b.byte, 16));
  }

  lemma TokenIs(o: Offset)
    ensures Token(o) == Pad(o.seqno, 16) + ([UNDERSCORE] + Pad(o.byte, 16))
  {
    hide Pad;
  }
}
