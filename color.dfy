/**
 * `UIColor(hex:)`: the red, green and blue bytes of a colour written as a
 * hexadecimal integer, and the app's `theme` colour. On Swift's `Int`,
 * `x >> k` rounds towards minus infinity and `& 0xff` keeps the low eight
 * bits of the two's-complement value, which is floor division by `2^k`
 * followed by a non-negative remainder modulo 256: Dafny's `/` and `%`
 * with a positive divisor.
 */
module Color {
  datatype Rgb = Rgb(red: int, green: int, blue: int)

  predicate IsByte(v: int) {
    0 <= v < 256
  }

  /** `(hex >> 16) & 0xff`, `(hex >> 8) & 0xff` and `hex & 0xff`. */
  function Channels(hex: int): (c: Rgb)
    ensures IsByte(c.red) && IsByte(c.green) && IsByte(c.blue)
  {
    Rgb((hex / 65536) % 256, (hex / 256) % 256, hex % 256)
  }

  /** The integer three bytes stand for, red highest. */
  function Pack(c: Rgb): int {
    c.red * 65536 + c.green * 256 + c.blue
  }

  /** `UIColor.theme`. */
  const Theme: int := 0x005BAA

  lemma ThemeChannels()
    ensures Channels(Theme) == Rgb(0, 91, 170)
  {
  }

  /** A quotient and a remainder in range are the quotient and the remainder. */
  lemma DivModUnique(a: int, d: int, x: int, y: int)
    requires d > 0 && a == x * d + y && 0 <= y < d
    ensures a / d == x && a % d == y
  {
    var k := a / d - x;
    assert k * d == y - a % d;
  }

  /** Dividing `q * d + r` by `d` keeps `q` whole and divides the rest. */
  lemma DivAcross(q: int, d: int, r: int)
    requires d > 0 && 0 <= r
    ensures (q * d + r) / d == q + r / d
  {
    assert q * d + r == (q + r / d) * d + r % d;
    DivModUnique(q * d + r, d, q + r / d, r % d);
  }

  /** Adding a multiple of `m` does not change a remainder modulo `m`. */
  lemma ModAcross(q: int, m: int, x: int)
    requires m > 0
    ensures (q * m + x) % m == x % m
  {
    assert q * m + x == (q + x / m) * m + x % m;
    DivModUnique(q * m + x, m, q + x / m, x % m);
  }

  /** Only the low 24 bits of `hex` matter. */
  lemma LowBitsOnly(hex: int)
    ensures Channels(hex) == Channels(hex % 0x100_0000)
  {
    var q := hex / 0x100_0000;
    var r := hex % 0x100_0000;
    DivAcross(q * 256, 65536, r);
    ModAcross(q, 256, r / 65536);
    DivAcross(q * 65536, 256, r);
    ModAcross(q * 256, 256, r / 256);
    ModAcross(q * 65536, 256, r);
  }

  /** The three channels of a 24-bit colour pack back into it, and three bytes unpack to themselves. */
  lemma PackChannels(hex: int, c: Rgb)
    ensures 0 <= hex < 0x100_0000 ==> Pack(Channels(hex)) == hex
    ensures IsByte(c.red) && IsByte(c.green) && IsByte(c.blue) ==> 0 <= Pack(c) < 0x100_0000 && Channels(Pack(c)) == c
  {
    if 0 <= hex < 0x100_0000 {
      var r, g, b := hex / 65536, (hex / 256) % 256, hex % 256;
      assert hex == (hex / 256) * 256 + b;
      assert hex / 256 == (hex / 256 / 256) * 256 + g;
      assert hex / 256 / 256 == r;
      assert r % 256 == r;
    }
    if IsByte(c.red) && IsByte(c.green) && IsByte(c.blue) {
      var p := Pack(c);
      var high := c.red * 256 + c.green;
      assert p == high * 256 + c.blue;
      assert p / 256 == high;
      assert p % 256 == c.blue;
      assert high / 256 == c.red;
      assert high % 256 == c.green;
      assert p == c.red * 65536 + (c.green * 256 + c.blue);
      assert p / 65536 == c.red;
    }
  }
}
