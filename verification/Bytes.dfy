/**
 Byte strings as the storage engine sees them: the order of `bytes.Compare`,
 fixed-width big-endian integers, and the end of a prefix scan.
 */
module Bytes {

  type Byte = b: int | 0 <= b < 256

  type ByteString = seq<Byte>

  datatype Option<+T> = None | Some(value: T)

  const U32_LIMIT: nat := 0x1_0000_0000
  const U64_LIMIT: nat := 0x1_0000_0000_0000_0000

  /** Addition in an unsigned 64-bit register. */
  function AddU64(a: nat, b: nat): (r: nat)
    ensures a + b < U64_LIMIT ==> r == a + b
    ensures r < U64_LIMIT
  {
    (a + b) % U64_LIMIT
  }

  // ----- lexicographic order -----

  predicate Less(a: ByteString, b: ByteString) {
    b != [] && (a == [] || a[0] < b[0] || (a[0] == b[0] && Less(a[1..], b[1..])))
  }

  predicate AtMost(a: ByteString, b: ByteString) {
    !Less(b, a)
  }

  lemma {:induction false} LessIrreflexive(a: ByteString)
    ensures !Less(a, a)
  {
    if a != [] {
      LessIrreflexive(a[1..]);
    }
  }

  lemma {:induction false} LessTransitive(a: ByteString, b: ByteString, c: ByteString)
    requires Less(a, b) && Less(b, c)
    ensures Less(a, c)
  {
    if a != [] && a[0] == b[0] && b[0] == c[0] {
      LessTransitive(a[1..], b[1..], c[1..]);
    }
  }

  lemma {:induction false} LessTotal(a: ByteString, b: ByteString)
    ensures Less(a, b) || a == b || Less(b, a)
  {
    if a != [] && b != [] {
      LessTotal(a[1..], b[1..]);
      assert a == [a[0]] + a[1..] && b == [b[0]] + b[1..];
    }
  }

  /** A shared prefix does not influence a comparison. */
  lemma {:induction false} LessCommonPrefix(p: ByteString, a: ByteString, b: ByteString)
    ensures Less(p + a, p + b) <==> Less(a, b)
  {
    if p == [] {
      assert p + a == a && p + b == b;
    } else {
      assert (p + a)[1..] == p[1..] + a && (p + b)[1..] == p[1..] + b;
      LessCommonPrefix(p[1..], a, b);
    }
  }

  /** Strings whose heads have one width are ordered by head first, then by tail. */
  lemma {:induction false} LessByFields(a: ByteString, c: ByteString, b: ByteString, d: ByteString)
    requires |a| == |b|
    ensures Less(a + c, b + d) <==> (Less(a, b) || (a == b && Less(c, d)))
  {
    if a == [] {
      assert a + c == c && b + d == d;
    } else {
      assert (a + c)[1..] == a[1..] + c && (b + d)[1..] == b[1..] + d;
      LessByFields(a[1..], c, b[1..], d);
      assert a == [a[0]] + a[1..] && b == [b[0]] + b[1..];
      if a == b {
        LessIrreflexive(a);
      }
    }
  }

  // ----- big-endian integers -----

  function Pow256(width: nat): (r: nat)
    ensures r > 0
  {
    if width == 0 then 1 else 256 * Pow256(width - 1)
  }

  function BigEndian(n: nat, width: nat): (s: ByteString)
    ensures |s| == width
  {
    if width == 0 then [] else BigEndian(n / 256, width - 1) + [n % 256]
  }

  function FromBigEndian(s: ByteString): nat {
    if s == [] then 0 else 256 * FromBigEndian(s[..|s| - 1]) + s[|s| - 1]
  }

  lemma Pow256Values()
    ensures Pow256(4) == U32_LIMIT && Pow256(8) == U64_LIMIT
  {
    assert Pow256(2) == 65536;
    assert Pow256(4) == 256 * (256 * Pow256(2));
    assert Pow256(6) == 256 * (256 * Pow256(4));
  }

  lemma {:induction false} BigEndianRoundTrip(n: nat, width: nat)
    requires n < Pow256(width)
    ensures FromBigEndian(BigEndian(n, width)) == n
  {
    if width > 0 {
      BigEndianRoundTrip(n / 256, width - 1);
      var s := BigEndian(n, width);
      assert s[..|s| - 1] == BigEndian(n / 256, width - 1);
    }
  }

  lemma {:induction false} FromBigEndianBound(s: ByteString)
    ensures FromBigEndian(s) < Pow256(|s|)
  {
    if s != [] {
      FromBigEndianBound(s[..|s| - 1]);
    }
  }

  /** Fixed-width big-endian encodings sort as the numbers they encode. */
  lemma {:induction false} BigEndianOrder(m: nat, n: nat, width: nat)
    requires m < Pow256(width) && n < Pow256(width)
    ensures Less(BigEndian(m, width), BigEndian(n, width)) <==> m < n
    ensures BigEndian(m, width) == BigEndian(n, width) <==> m == n
  {
    if width > 0 {
      BigEndianOrder(m / 256, n / 256, width - 1);
      LessByFields(BigEndian(m / 256, width - 1), [m % 256], BigEndian(n / 256, width - 1), [n % 256]);
      BigEndianRoundTrip(m, width);
      BigEndianRoundTrip(n, width);
    }
  }

  /** be64Decode: shift-and-or into a 64-bit register. */
  method DecodeU64(b: ByteString) returns (v: nat)
    ensures |b| <= 8 ==> v == FromBigEndian(b)
  {
    v := 0;
    for i := 0 to |b|
      invariant i <= 8 ==> v == FromBigEndian(b[..i])
    {
      assert b[..i + 1][..i] == b[..i];
      if i < 8 {
        FromBigEndianBound(b[..i + 1]);
        Pow256Values();
        Pow256Monotone(i + 1, 8);
      }
      v := (256 * v + b[i]) % U64_LIMIT;
    }
    assert b[..|b|] == b;
  }

  lemma {:induction false} Pow256Monotone(v: nat, w: nat)
    requires v <= w
    ensures Pow256(v) <= Pow256(w)
  {
    if v < w {
      Pow256Monotone(v, w - 1);
    }
  }

  // ----- prefix scans -----

  /** b lies in the half-open scan range [start, end); no end means to the end of the keyspace. */
  predicate InRange(start: ByteString, end: Option<ByteString>, b: ByteString) {
    AtMost(start, b) && (end.Some? ==> Less(b, end.value))
  }

  /** The scan range from p to `end` holds exactly the strings that have p as a prefix. */
  ghost predicate CoversPrefix(p: ByteString, end: Option<ByteString>) {
    forall b: ByteString :: InRange(p, end, b) <==> p <= b
  }

  /** prefixEnd: increment the last byte that is not 0xff and drop what follows it. */
  method PrefixEnd(p: ByteString) returns (end: Option<ByteString>)
    ensures CoversPrefix(p, end)
  {
    var buf := new Byte[|p|](i requires 0 <= i < |p| => p[i]);
    var i := |p| - 1;
    while i >= 0
      invariant -1 <= i < |p|
      invariant buf[..] == p
      invariant forall k :: i < k < |p| ==> p[k] == 255
    {
      if buf[i] != 255 {
        buf[i] := buf[i] + 1;
        end := Some(buf[..i + 1]);
        assert end.value == p[..i] + [p[i] + 1];
        forall b: ByteString ensures InRange(p, end, b) <==> p <= b {
          PrefixEndBounds(p, i, b);
        }
        return;
      }
      i := i - 1;
    }
    end := None;
    forall b: ByteString ensures InRange(p, end, b) <==> p <= b {
      AllOnesIsLast(p, b);
    }
  }

  lemma {:induction false} PrefixEndBounds(p: ByteString, i: nat, b: ByteString)
    requires i < |p| && p[i] < 255 && forall k :: i < k < |p| ==> p[k] == 255
    ensures InRange(p, Some(p[..i] + [p[i] + 1]), b) <==> p <= b
  {
    var end := p[..i] + [p[i] + 1];
    if i > 0 {
      if b != [] && b[0] == p[0] {
        assert end[1..] == p[1..][..i - 1] + [p[1..][i - 1] + 1];
        PrefixEndBounds(p[1..], i - 1, b[1..]);
      }
    } else if b != [] && b[0] == p[0] {
      AllOnesIsLast(p[1..], b[1..]);
    } else if b != [] && b[0] == p[0] + 1 {
      assert !Less(b[1..], []);
    }
  }

  lemma {:induction false} AllOnesIsLast(p: ByteString, b: ByteString)
    requires forall k :: 0 <= k < |p| ==> p[k] == 255
    ensures AtMost(p, b) <==> p <= b
  {
    if p != [] && b != [] && b[0] == p[0] {
      AllOnesIsLast(p[1..], b[1..]);
    }
  }
}
