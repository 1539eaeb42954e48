/** The LEB128 encoders of bench/scripts/wasm-mod.js against the decoders of
    section 5.2.2 of the WebAssembly Core Specification 1.0. */
module Leb128 {
  import opened Common

  const TWO31 := 0x8000_0000
  const TWO32 := 0x1_0000_0000

  /** The conversions JavaScript applies to the operands of `>>>` and `>>`. */
  function ToUint32(n: int): (u: nat)
    ensures u < TWO32
    ensures 0 <= n < TWO32 ==> u == n
  {
    n % TWO32
  }

  function ToInt32(n: int): (i: int)
    ensures -TWO31 <= i < TWO31
    ensures -TWO31 <= n < TWO31 ==> i == n
  {
    if n % TWO32 < TWO31 then n % TWO32 else n % TWO32 - TWO32
  }

  function Pow2(n: nat): (p: int)
    ensures p >= 1
  { if n == 0 then 1 else 2 * Pow2(n - 1) }

  // ----- Reference encodings -----

  function UlebBytes(n: nat): seq<byte> {
    if n < 128 then [n] else [n % 128 + 128] + UlebBytes(n / 128)
  }

  function SlebBytes(n: int): seq<byte>
    decreases if n < 0 then -n else n
  {
    if -64 <= n < 64 then [n % 128] else [n % 128 + 128] + SlebBytes(n / 128)
  }

  lemma ModShift(a: int, r: int)
    ensures (a * 128 + r) % 128 == r % 128
  {
    var x := a * 128 + r;
    assert x / 128 == a + r / 128;
  }

  /** The low seven bits survive both conversions. */
  lemma LowBits(n: int)
    ensures n % 128 == ToUint32(n) % 128 == ToInt32(n) % 128
  {
    ModShift(n / TWO32 * 0x200_0000, n % TWO32);
    ModShift(-0x200_0000, n % TWO32);
  }

  lemma UlebUnfold(u: nat)
    ensures UlebBytes(u) == if u / 128 == 0 then [u % 128] else [u % 128 + 128] + UlebBytes(u / 128)
  {
  }

  lemma SlebUnfold(n: int)
    ensures (n / 128 == 0 && n % 128 < 64) || (n / 128 == -1 && n % 128 >= 64) <==> -64 <= n < 64
    ensures !(-64 <= n < 64) ==> SlebBytes(n) == [n % 128 + 128] + SlebBytes(n / 128)
  {
  }

  // ----- The emitter's loops -----

  lemma Onward(out: seq<byte>, b: byte, rest: seq<byte>)
    ensures out + ([b] + rest) == (out + [b]) + rest
  {
  }

  /** `n & 0x7f` is `n % 128`, `n >>> 7` divides the unsigned image, and
      `b | 0x80` adds 128 because `b` is below 128. */
  method Uleb(value: int) returns (out: seq<byte>)
    ensures out == UlebBytes(ToUint32(value))
  {
    var n := value;
    out := [];
    ghost var u := ToUint32(n);
    var more := true;
    while more
      invariant more ==> u == ToUint32(n) && out + UlebBytes(u) == UlebBytes(ToUint32(value))
      invariant !more ==> out == UlebBytes(ToUint32(value))
      decreases more, u
    {
      LowBits(n);
      UlebUnfold(u);
      var b: byte := n % 128;
      n := ToUint32(n) / 128;
      if n != 0 {
        b := b + 128;
      }
      Onward(out, b, UlebBytes(n));
      out := out + [b];
      more := n != 0;
      u := n;
    }
  }

  /** `n >> 7` floors the signed image; `b & 0x40` asks whether `b` is at least 64. */
  method Sleb(value: int) returns (out: seq<byte>)
    ensures out == SlebBytes(ToInt32(value))
  {
    var n := value;
    out := [];
    ghost var i := ToInt32(n);
    while true
      invariant i == ToInt32(n) && out + SlebBytes(i) == SlebBytes(ToInt32(value))
      decreases if i < 0 then -i else i
    {
      LowBits(n);
      SlebUnfold(i);
      var b: byte := n % 128;
      n := ToInt32(n) / 128;
      if (n == 0 && b < 64) || (n == -1 && b >= 64) {
        out := out + [b];
        return;
      }
      Onward(out, b + 128, SlebBytes(n));
      out := out + [b + 128];
      i := n;
    }
  }

  // ----- Decoders: every encoding the standard admits, shortest or not -----

  function DecodeU(N: nat, bs: seq<byte>): (r: Option<(nat, seq<byte>)>)
    ensures r.Some? ==> |r.value.1| < |bs|
    decreases N
  {
    if bs == [] then None
    else if bs[0] < 128 then
      if bs[0] < Pow2(N) then Some((bs[0], bs[1..])) else None
    else if N <= 7 then None
    else
      match DecodeU(N - 7, bs[1..])
      case None => None
      case Some((m, rest)) => Some((128 * m + (bs[0] - 128), rest))
  }

  function DecodeS(N: nat, bs: seq<byte>): (r: Option<(int, seq<byte>)>)
    requires N > 0
    ensures r.Some? ==> |r.value.1| < |bs|
    decreases N
  {
    if bs == [] then None
    else if bs[0] < 64 then
      if bs[0] < Pow2(N - 1) then Some((bs[0], bs[1..])) else None
    else if bs[0] < 128 then
      var v := bs[0] as int - 128;
      if -Pow2(N - 1) <= v then Some((v, bs[1..])) else None
    else if N <= 7 then None
    else
      match DecodeS(N - 7, bs[1..])
      case None => None
      case Some((m, rest)) => Some((128 * m + (bs[0] - 128), rest))
  }

  // ----- Powers of two -----

  lemma {:induction false} Pow2Step(n: nat)
    requires n >= 7
    ensures Pow2(n) == 128 * Pow2(n - 7)
  {
    assert Pow2(n - 5) == 4 * Pow2(n - 7);
    assert Pow2(n - 3) == 4 * Pow2(n - 5);
    assert Pow2(n - 1) == 4 * Pow2(n - 3);
  }

  lemma {:induction false} Pow2Mono(a: nat, b: nat)
    requires a <= b
    ensures 1 <= Pow2(a) <= Pow2(b)
    decreases b
  {
    if a < b {
      Pow2Mono(a, b - 1);
    } else if a > 0 {
      Pow2Mono(a - 1, a - 1);
    }
  }

  lemma Pow2Values()
    ensures Pow2(7) == 128 && Pow2(6) == 64 && Pow2(31) == TWO31 && Pow2(32) == TWO32
  {
    assert Pow2(3) == 8;
    Pow2Step(10);
    Pow2Step(17);
    Pow2Step(24);
    Pow2Step(31);
  }

  // ----- Round trips, with any trailing bytes -----

  lemma {:induction false} DecodeUInverts(N: nat, n: nat, rest: seq<byte>)
    requires n < Pow2(N)
    ensures DecodeU(N, UlebBytes(n) + rest) == Some((n, rest))
    decreases n
  {
    var bs := UlebBytes(n) + rest;
    if n < 128 {
      assert bs[1..] == rest;
    } else {
      Pow2Values();
      if N <= 7 {
        Pow2Mono(N, 7);
      }
      Pow2Step(N);
      DecodeUInverts(N - 7, n / 128, rest);
      assert bs[1..] == UlebBytes(n / 128) + rest;
    }
  }

  lemma {:induction false} DecodeSInverts(N: nat, n: int, rest: seq<byte>)
    requires N > 0 && -Pow2(N - 1) <= n < Pow2(N - 1)
    ensures DecodeS(N, SlebBytes(n) + rest) == Some((n, rest))
    decreases if n < 0 then -n else n
  {
    var bs := SlebBytes(n) + rest;
    if -64 <= n < 64 {
      assert bs[1..] == rest;
    } else {
      SignedStep(N, n);
      DecodeSInverts(N - 7, n / 128, rest);
      assert bs[1..] == SlebBytes(n / 128) + rest;
    }
  }

  lemma SignedStep(N: nat, n: int)
    requires N > 0 && -Pow2(N - 1) <= n < Pow2(N - 1) && !(-64 <= n < 64)
    ensures N > 7 && -Pow2(N - 8) <= n / 128 < Pow2(N - 8)
  {
    Pow2Values();
    if N <= 7 {
      Pow2Mono(N - 1, 6);
    }
    Pow2Step(N - 1);
  }

  /** A 32-bit signed encoding read as 64-bit: `i64c` reuses `sleb`. */
  lemma DecodeInt32(n: int, rest: seq<byte>)
    requires -TWO31 <= n < TWO31
    ensures DecodeS(32, SlebBytes(n) + rest) == Some((n, rest))
    ensures DecodeS(64, SlebBytes(n) + rest) == Some((n, rest))
  {
    Pow2Values();
    Pow2Mono(31, 63);
    DecodeSInverts(32, n, rest);
    DecodeSInverts(64, n, rest);
  }

  lemma DecodeUint32(n: nat, rest: seq<byte>)
    requires n < TWO32
    ensures DecodeU(32, UlebBytes(n) + rest) == Some((n, rest))
  {
    Pow2Values();
    DecodeUInverts(32, n, rest);
  }

  // ----- Shortest encodings -----

  lemma UlebCons(m: nat, r: nat)
    requires r < 128
    ensures |UlebBytes(128 * m + r)| <= 1 + |UlebBytes(m)|
    ensures |UlebBytes(128 * m + r)| == 1 + |UlebBytes(m)| ==> UlebBytes(128 * m + r) == [r + 128] + UlebBytes(m)
  {
    var v := 128 * m + r;
    assert v / 128 == m && v % 128 == r;
  }

  lemma SlebCons(m: int, r: nat)
    requires r < 128
    ensures |SlebBytes(128 * m + r)| <= 1 + |SlebBytes(m)|
    ensures |SlebBytes(128 * m + r)| == 1 + |SlebBytes(m)| ==> SlebBytes(128 * m + r) == [r + 128] + SlebBytes(m)
  {
    var v := 128 * m + r;
    assert v / 128 == m && v % 128 == r;
  }

  /** Whatever bytes the decoder reads as `v` are at least as long as the
      emitter's, and no other bytes of that length mean `v`. */
  lemma {:induction false} UlebShortest(N: nat, bs: seq<byte>, v: nat, rest: seq<byte>)
    requires DecodeU(N, bs) == Some((v, rest))
    ensures |bs| - |rest| >= |UlebBytes(v)|
    ensures bs == bs[..|bs| - |rest|] + rest
    ensures |bs| - |rest| == |UlebBytes(v)| ==> bs == UlebBytes(v) + rest
    decreases N
  {
    assert bs == [bs[0]] + bs[1..];
    if bs[0] >= 128 {
      var m := DecodeU(N - 7, bs[1..]).value.0;
      UlebShortest(N - 7, bs[1..], m, rest);
      UlebCons(m, bs[0] - 128);
      OneMoreByte(bs[0], bs[1..], rest, UlebBytes(v), UlebBytes(m));
    }
  }

  /** One more byte in front: `code` is what the emitter writes for the longer number. */
  lemma OneMoreByte(b: byte, tail: seq<byte>, rest: seq<byte>, code: seq<byte>, more: seq<byte>)
    requires |tail| >= |rest| && tail == tail[..|tail| - |rest|] + rest
    requires |tail| - |rest| >= |more| && (|tail| - |rest| == |more| ==> tail == more + rest)
    requires |code| <= 1 + |more| && (|code| == 1 + |more| ==> code == [b] + more)
    ensures var bs := [b] + tail;
      && |bs| - |rest| >= |code| && bs == bs[..|bs| - |rest|] + rest
      && (|bs| - |rest| == |code| ==> bs == code + rest)
  {
    assert ([b] + tail)[..1 + |tail| - |rest|] == [b] + tail[..|tail| - |rest|];
  }

  lemma {:induction false} SlebShortest(N: nat, bs: seq<byte>, v: int, rest: seq<byte>)
    requires N > 0 && DecodeS(N, bs) == Some((v, rest))
    ensures |bs| - |rest| >= |SlebBytes(v)|
    ensures bs == bs[..|bs| - |rest|] + rest
    ensures |bs| - |rest| == |SlebBytes(v)| ==> bs == SlebBytes(v) + rest
    decreases N
  {
    assert bs == [bs[0]] + bs[1..];
    if bs[0] >= 128 {
      var m := DecodeS(N - 7, bs[1..]).value.0;
      SlebShortest(N - 7, bs[1..], m, rest);
      SlebCons(m, bs[0] - 128);
      OneMoreByte(bs[0], bs[1..], rest, SlebBytes(v), SlebBytes(m));
    }
  }

  lemma {:induction false} UlebLength(n: nat, k: nat)
    requires n < Pow2(7 * k) && k > 0
    ensures 1 <= |UlebBytes(n)| <= k
    decreases k
  {
    Pow2Values();
    if n >= 128 {
      Pow2Step(7 * k);
      UlebLength(n / 128, k - 1);
    }
  }

  lemma {:induction false} SlebLength(n: int, k: nat)
    requires k > 0 && -Pow2(7 * k - 1) <= n < Pow2(7 * k - 1)
    ensures 1 <= |SlebBytes(n)| <= k
    decreases k
  {
    Pow2Values();
    if !(-64 <= n < 64) {
      Pow2Step(7 * k - 1);
      SlebLength(n / 128, k - 1);
    }
  }

  /** Both encoders emit at most five bytes, whatever number they are given. */
  lemma AtMostFiveBytes(n: int)
    ensures 1 <= |UlebBytes(ToUint32(n))| <= 5
    ensures 1 <= |SlebBytes(ToInt32(n))| <= 5
  {
    Pow2Values();
    Pow2Mono(32, 35);
    Pow2Mono(31, 34);
    UlebLength(ToUint32(n), 5);
    SlebLength(ToInt32(n), 5);
  }

  // ----- Prefix-free codes -----

  lemma UlebPrefixFree(a: nat, b: nat, s: seq<byte>, t: seq<byte>)
    requires a < TWO32 && b < TWO32
    requires UlebBytes(a) + s == UlebBytes(b) + t
    ensures a == b && s == t
  {
    DecodeUint32(a, s);
    DecodeUint32(b, t);
  }

  lemma SlebPrefixFree(a: int, b: int, s: seq<byte>, t: seq<byte>)
    requires -TWO31 <= a < TWO31 && -TWO31 <= b < TWO31
    requires SlebBytes(a) + s == SlebBytes(b) + t
    ensures a == b && s == t
  {
    DecodeInt32(a, s);
    DecodeInt32(b, t);
  }
}
