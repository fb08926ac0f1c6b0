// curve25519_donna: the X25519 function of section 5 of RFC 7748, except that
// the result is not always in canonical form.
module Donna {
  import opened Arith
  import opened Bits
  import opened FieldSpec
  import opened LimbArithmetic
  import opened LimbBytes
  import opened Ladder
  import opened Reciprocal

  /** decodeScalar25519: the three low bits cleared, bit 255 cleared and bit 254 set. */
  function DecodeScalar(n: nat): nat
  {
    var low := Low(n, 254);
    low - low % 8 + Pow2(254)
  }

  /** The source's clamping of the secret bytes. */
  method Clamp(secret: array<byte>) returns (e: array<byte>)
    requires secret.Length == 32
    ensures fresh(e) && e.Length == 32
    ensures LittleEndian(e[..]) == DecodeScalar(LittleEndian(secret[..]))
  {
    e := new byte[32];
    for i := 0 to 32
      invariant e[..i] == secret[..i]
    {
      e[i] := secret[i];
    }
    ghost var s := secret[..];
    assert e[..32] == secret[..32] == s;
    hide *;
    ClampBytes(s[0] as int, s[31] as int);
    e[0] := And(e[0] as int, 248) as byte;
    e[31] := And(e[31] as int, 127) as byte;
    e[31] := Or(e[31] as int, 64) as byte;
    assert e[..] == [e[0]] + s[1..31] + [e[31]];
    ClampedValue(s, e[0], e[31]);
  }

  lemma ClampBytes(a: nat, b: nat)
    requires a < 256 && b < 256
    ensures And(a, 248) == a - a % 8
    ensures And(b, 127) == b % 128 && Or(b % 128, 64) == b % 64 + 64
  {
    Pow2Small();
    hide Pow2, And, Or;
    And248(a);
    AndMask(b, 7);
    Or64(b % 128);
  }

  lemma ClampedValue(s: seq<byte>, first: byte, last: byte)
    requires |s| == 32
    requires first as int == s[0] as int - s[0] as int % 8 && last as int == s[31] as int % 64 + 64
    ensures LittleEndian([first] + s[1..31] + [last]) == DecodeScalar(LittleEndian(s))
  {
    hide *;
    ThreeParts(first, s[1..31], last);
    DecodedSecret(s);
    TimesAdd(last as int - 64, 64, Pow2(248));
  }

  lemma DecodedSecret(s: seq<byte>)
    requires |s| == 32
    ensures DecodeScalar(LittleEndian(s))
         == s[0] as int - s[0] as int % 8 + 256 * LittleEndian(s[1..31])
            + Times(Pow2(248), s[31] as int % 64) + Times(Pow2(248), 64)
  {
    hide *;
    LowOfSecret(s);
    LowThree(s[0] as int, LittleEndian(s[1..31]), s[31] as int % 64);
    DecodeIs(LittleEndian(s));
    TopPower();
  }

  lemma TopPower()
    ensures Pow2(254) == Times(Pow2(248), 64)
  {
    Pow2Small();
    hide Times, Pow2;
    Pow2Add(248, 6);
  }

  lemma LowOfSecret(s: seq<byte>)
    requires |s| == 32
    ensures Low(LittleEndian(s), 254)
         == s[0] as int + 256 * LittleEndian(s[1..31]) + Times(Pow2(248), s[31] as int % 64)
  {
    hide *;
    var mid, q, t := s[1..31], s[31] as int / 64, s[31] as int % 64;
    assert s == [s[0]] + mid + [s[31]];
    TopPower();
    ThreeParts(s[0], mid, s[31]);
    TimesByLiteral(q);
    TimesCommutes(64, q);
    LowIs(LittleEndian(s), 254);
    TopBits(s[0] as int + 256 * LittleEndian(mid), Pow2(248), 64, q, t);
  }

  lemma LowIs(n: nat, k: nat)
    ensures Low(n, k) == n % Pow2(k)
  {
  }

  lemma DecodeIs(n: nat)
    ensures DecodeScalar(n) == Low(n, 254) - Low(n, 254) % 8 + Pow2(254)
  {
  }

  lemma LowThree(x: nat, y: nat, t: nat)
    ensures (x + 256 * y + Times(Pow2(248), t)) % 8 == x % 8
  {
    Pow2Small();
    hide Times, Pow2;
    Pow2Add(3, 245);
    TimesAssoc(8, Pow2(245), t);
    ModEight(x, y, Times(Pow2(245), t));
  }

  lemma ModEight(x: nat, y: nat, z: int)
    ensures (x + 256 * y + Times(8, z)) % 8 == x % 8
  {
  }

  lemma ThreeParts(a: byte, mid: seq<byte>, z: byte)
    requires |mid| == 30
    ensures LittleEndian([a] + mid + [z])
         == a as int + 256 * LittleEndian(mid) + Times(Pow2(248), z as int)
    ensures a as int + 256 * LittleEndian(mid) < Pow2(248)
  {
    LittleEndianOfOne(z);
    assert ([a] + mid)[1..] == mid;
    assert LittleEndian([a] + mid) == a as int + 256 * LittleEndian(mid);
    hide LittleEndian, Pow2, Times;
    LittleEndianAppend([a] + mid, [z]);
    LittleEndianBound([a] + mid);
  }

  /** The result as projective coordinates of the ladder over the clamped scalar and
      the 255-bit u-coordinate. */
  function Ladder256(secret: seq<byte>, basepoint: seq<byte>): Point
  {
    LadderTo(DecodeScalar(LittleEndian(secret)), Res(Low(LittleEndian(basepoint), 255)), 256).low
  }

  /** X25519: the public bytes stand for X times Z to the power p - 2 modulo p. They are
      below 2^255, but values from p to 2^255 - 1 are not reduced further. */
  method Curve25519Donna(mypublic: array<byte>, secret: array<byte>, basepoint: array<byte>)
    requires mypublic.Length == 32 && secret.Length == 32 && basepoint.Length == 32
    modifies mypublic
    ensures var r := old(Ladder256(secret[..], basepoint[..]));
            Res(LittleEndian(mypublic[..])) == Mul(r.x, Power(r.z, ReciprocalExponent()))
    ensures LittleEndian(mypublic[..]) < Pow2(255)
  {
    hide *;
    ghost var target := Ladder256(secret[..], basepoint[..]);
    LadderIs(secret[..], basepoint[..]);
    var e := Clamp(secret);
    var bp, x, z, zmone := new limb[10], new limb[10], new limb[10], new limb[10];
    FExpand(bp, basepoint);
    CanonicalIsShort(bp);
    ElementIs(bp);
    CMult(x, z, e, bp);
    AtIs(x, z);
    CRecip(zmone, z);
    ShortIsBelow62(x, 1);
    ShortIsBelow62(zmone, 1);
    FMul(z, x, zmone);
    FContract(mypublic, z);
  }

  lemma LadderIs(secret: seq<byte>, basepoint: seq<byte>)
    ensures Ladder256(secret, basepoint)
         == LadderTo(DecodeScalar(LittleEndian(secret)), Res(Low(LittleEndian(basepoint), 255)), 256).low
  {
  }

  lemma ElementIs(a: array<limb>)
    requires a.Length >= 10
    ensures Element(a) == Res(Value(a[..10]))
  {
  }
}
