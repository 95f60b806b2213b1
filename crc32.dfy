/**
 * `crc32` of the ZIP writer: the CRC-32 of section 4.4.7 of the PKWARE
 * ZIP application note (APPNOTE.TXT), bit by bit with the reflected
 * polynomial 0xEDB88320, register preset to 0xFFFFFFFF and the result
 * complemented. JavaScript's bitwise operators work on 32-bit patterns and
 * the final `>>> 0` reads the pattern as an unsigned number, so the
 * register is a `bv32` and the result's value is in [0, 2^32).
 */
module Crc32 {

  type Byte = bv8

  const Poly: bv32 := 0xEDB8_8320
  const Preset: bv32 := 0xFFFF_FFFF
  /** The inner loop's count: one step per bit of the byte. */
  const BitsPerByte: nat := 8

  /** One step of the inner loop: `crc & 1 ? (crc >>> 1) ^ 0xedb88320 : crc >>> 1`. */
  function Shift(c: bv32): bv32
  {
    if c & 1 == 1 then (c >> 1) ^ Poly else c >> 1
  }

  /** The loop body's conditional expression is one step. */
  lemma {:induction false} StepIsShift(c: bv32)
    ensures (if c & 1 == 1 then (c >> 1) ^ 0xEDB8_8320 else c >> 1) == Shift(c)
  {
  }

  /** `k` steps of the inner loop. */
  function Shifts(c: bv32, k: nat): bv32
  {
    if k == 0 then c else Shift(Shifts(c, k - 1))
  }

  /** One pass of the outer loop: `crc ^= b`, then eight steps. */
  function Feed(c: bv32, b: Byte): bv32
  {
    Shifts(c ^ (b as bv32), BitsPerByte)
  }

  /** The register after feeding `data` to a register holding `c`. */
  function Register(c: bv32, data: seq<Byte>): bv32
  {
    if data == [] then c else Feed(Register(c, data[..|data| - 1]), data[|data| - 1])
  }

  /** The CRC-32 of `data`. */
  function Crc32Of(data: seq<Byte>): bv32
  {
    Register(Preset, data) ^ Preset
  }

  /** `crc32(buf)`, with the source's two nested loops. */
  method Crc32(buf: seq<Byte>) returns (r: bv32)
    ensures r == Crc32Of(buf)
  {
    var crc := Preset;
    for i := 0 to |buf|
      invariant crc == Register(Preset, buf[..i])
    {
      crc := crc ^ (buf[i] as bv32);
      ghost var start := crc;
      for j := 0 to BitsPerByte
        invariant crc == Shifts(start, j)
      {
        StepIsShift(crc);
        crc := if crc & 1 == 1 then (crc >> 1) ^ 0xEDB8_8320 else crc >> 1;
      }
      RegisterSnoc(buf, i, crc);
    }
    assert buf[..|buf|] == buf;
    FinalXor(buf, crc);
    r := crc ^ 0xFFFF_FFFF;
  }

  /** The closing `(crc ^ 0xffffffff) >>> 0` of the register of all bytes is the CRC. */
  lemma {:induction false} FinalXor(buf: seq<Byte>, c: bv32)
    requires c == Register(Preset, buf)
    ensures c ^ 0xFFFF_FFFF == Crc32Of(buf)
  {
  }

  /** The register after the outer loop's pass over byte `i`. */
  lemma {:induction false} RegisterSnoc(buf: seq<Byte>, i: nat, c: bv32)
    requires i < |buf|
    requires c == Shifts(Register(Preset, buf[..i]) ^ (buf[i] as bv32), BitsPerByte)
    ensures c == Register(Preset, buf[..i + 1])
  {
    assert buf[..i + 1][..i] == buf[..i];
  }

  /** The CRC of no bytes is 0. */
  lemma {:induction false} EmptyIsZero()
    ensures Crc32Of([]) == 0
  {
  }

  /** The register can be fed in pieces: the CRC can be computed incrementally. */
  lemma {:induction false} RegisterAppend(c: bv32, a: seq<Byte>, b: seq<Byte>)
    ensures Register(c, a + b) == Register(Register(c, a), b)
  {
    if b == [] {
      assert a + b == a;
    } else {
      assert (a + b)[..|a + b| - 1] == a + b[..|b| - 1];
      RegisterAppend(c, a, b[..|b| - 1]);
    }
  }

  /** Eight steps, written out. */
  lemma {:induction false} FeedUnrolled(c: bv32, b: Byte)
    ensures Feed(c, b) == Shift(Shift(Shift(Shift(Shift(Shift(Shift(Shift(c ^ (b as bv32)))))))))
  {
    var x := c ^ (b as bv32);
    assert Shifts(x, 1) == Shift(x);
    assert Shifts(x, 2) == Shift(Shifts(x, 1));
    assert Shifts(x, 3) == Shift(Shifts(x, 2));
    assert Shifts(x, 4) == Shift(Shifts(x, 3));
    assert Shifts(x, 5) == Shift(Shifts(x, 4));
    assert Shifts(x, 6) == Shift(Shifts(x, 5));
    assert Shifts(x, 7) == Shift(Shifts(x, 6));
  }

  /** The check value of the algorithm: the CRC-32 of the ASCII digits "123456789" is 0xCBF43926. */
  lemma {:induction false} CheckValue()
    ensures Crc32Of([0x31, 0x32, 0x33, 0x34, 0x35, 0x36, 0x37, 0x38, 0x39]) == 0xCBF4_3926
  {
    var s: seq<Byte> := [0x31, 0x32, 0x33, 0x34, 0x35, 0x36, 0x37, 0x38, 0x39];
    FeedUnrolled(Preset, s[0]);
    assert Register(Preset, s[..1]) == 0x7C23_1048 by { assert s[..1][..0] == s[..0]; }
    FeedUnrolled(0x7C23_1048, s[1]);
    assert Register(Preset, s[..2]) == 0xB0AC_BB32 by { assert s[..2][..1] == s[..1]; }
    FeedUnrolled(0xB0AC_BB32, s[2]);
    assert Register(Preset, s[..3]) == 0x77B7_9C2D by { assert s[..3][..2] == s[..2]; }
    FeedUnrolled(0x77B7_9C2D, s[3]);
    assert Register(Preset, s[..4]) == 0x641C_1F5C by { assert s[..4][..3] == s[..3]; }
    FeedUnrolled(0x641C_1F5C, s[4]);
    assert Register(Preset, s[..5]) == 0x340A_C5E3 by { assert s[..5][..4] == s[..4]; }
    FeedUnrolled(0x340A_C5E3, s[5]);
    assert Register(Preset, s[..6]) == 0xF68D_2C9E by { assert s[..6][..5] == s[..5]; }
    FeedUnrolled(0xF68D_2C9E, s[6]);
    assert Register(Preset, s[..7]) == 0xAFFC_9660 by { assert s[..7][..6] == s[..6]; }
    FeedUnrolled(0xAFFC_9660, s[7]);
    assert Register(Preset, s[..8]) == 0x651F_2550 by { assert s[..8][..7] == s[..7]; }
    FeedUnrolled(0x651F_2550, s[8]);
    assert Register(Preset, s[..9]) == 0x340B_C6D9 by { assert s[..9][..8] == s[..8]; }
    assert s[..9] == s;
  }

  /** No two registers step to the same value. */
  lemma {:induction false} ShiftInjective(a: bv32, b: bv32)
    requires Shift(a) == Shift(b)
    ensures a == b
  {
  }

  lemma {:induction false} ShiftsInjective(a: bv32, b: bv32, k: nat)
    requires Shifts(a, k) == Shifts(b, k)
    ensures a == b
  {
    if k > 0 {
      ShiftInjective(Shifts(a, k - 1), Shifts(b, k - 1));
      ShiftsInjective(a, b, k - 1);
    }
  }

  /** A byte fed to two different registers gives different registers. */
  lemma {:induction false} FeedInjective(a: bv32, b: bv32, x: Byte)
    requires Feed(a, x) == Feed(b, x)
    ensures a == b
  {
    ShiftsInjective(a ^ (x as bv32), b ^ (x as bv32), 8);
  }

  /** One register fed two different bytes gives different registers. */
  lemma {:induction false} FeedRegisterInjective(r: bv32, x: Byte, y: Byte)
    requires Feed(r, x) == Feed(r, y)
    ensures x == y
  {
    ShiftsInjective(r ^ (x as bv32), r ^ (y as bv32), 8);
  }

  /** Different registers stay different whatever bytes follow. */
  lemma {:induction false} RegisterInjective(a: bv32, b: bv32, data: seq<Byte>)
    requires Register(a, data) == Register(b, data)
    ensures a == b
  {
    if data != [] {
      var d', x := data[..|data| - 1], data[|data| - 1];
      FeedInjective(Register(a, d'), Register(b, d'), x);
      RegisterInjective(a, b, d');
    }
  }

  /** Every change of a single byte changes the CRC. */
  lemma {:induction false} SingleByteErrorDetected(a: seq<Byte>, x: Byte, y: Byte, b: seq<Byte>)
    requires x != y
    ensures Crc32Of(a + [x] + b) != Crc32Of(a + [y] + b)
  {
    var r := Register(Preset, a);
    RegisterAppend(Preset, a + [x], b);
    RegisterAppend(Preset, a + [y], b);
    RegisterAppend(Preset, a, [x]);
    RegisterAppend(Preset, a, [y]);
    assert [x][..0] == [] && [y][..0] == [];
    assert Register(Preset, a + [x]) == Feed(r, x) by { assert (a + [x])[..|a|] == a; }
    assert Register(Preset, a + [y]) == Feed(r, y) by { assert (a + [y])[..|a|] == a; }
    if Crc32Of(a + [x] + b) == Crc32Of(a + [y] + b) {
      RegisterInjective(Register(Preset, a + [x]), Register(Preset, a + [y]), b);
      assert Feed(r, x) == Feed(r, y);
      FeedRegisterInjective(r, x, y);
    }
  }
}
