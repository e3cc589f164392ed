/** The variable-width base62 codec behind TURN credentials: 6-bit chunks taken
    from the end of the byte string, except that chunks of the form x1111x take 5. */
module Base62 {
  import opened Common
  import Lists

  // -------------------------------------------------------------------------
  // Shifts and big-endian values
  // -------------------------------------------------------------------------

  /** `v << n` without truncation. */
  function Shl(v: nat, n: nat): nat {
    if n == 0 then v else 2 * Shl(v, n - 1)
  }

  /** `v >> n`. */
  function Shr(v: nat, n: nat): nat
    decreases n
  {
    if n == 0 then v else Shr(v / 2, n - 1)
  }

  lemma {:induction false} ShlAdd(v: nat, a: nat, b: nat)
    ensures Shl(v, a + b) == Shl(Shl(v, a), b)
  {
    if b == 0 {
    } else {
      ShlAdd(v, a, b - 1);
    }
  }

  lemma {:induction false} ShlPlus(u: nat, v: nat, n: nat)
    ensures Shl(u + v, n) == Shl(u, n) + Shl(v, n)
  {
    if n == 0 {
    } else {
      ShlPlus(u, v, n - 1);
    }
  }

  lemma {:induction false} ShlTimes256(v: nat, n: nat)
    ensures Shl(256 * v, n) == 256 * Shl(v, n)
  {
    if n == 0 {
    } else {
      ShlTimes256(v, n - 1);
    }
  }

  /** Room for one more below `w`. */
  lemma {:induction false} ShlLess(v: nat, w: nat, n: nat)
    requires v < w
    ensures Shl(v, n) + Shl(1, n) <= Shl(w, n)
  {
    if n == 0 {
    } else {
      ShlLess(v, w, n - 1);
    }
  }

  lemma {:induction false} ShrAdd(v: nat, a: nat, b: nat)
    ensures Shr(v, a + b) == Shr(Shr(v, a), b)
    decreases a
  {
    if a == 0 {
    } else {
      ShrAdd(v / 2, a - 1, b);
    }
  }

  /** Shifting right by `k` leaves what was shifted left by more than `k`. */
  lemma {:induction false} ShrOfShl(a: nat, r: nat, k: nat, x: nat)
    ensures Shr(Shl(a, r + k) + x, k) == Shl(a, r) + Shr(x, k)
    decreases k
  {
    if k == 0 {
    } else {
      ShrOfShl(a, r, k - 1, x / 2);
    }
  }

  lemma SmallShl(v: nat)
    ensures Shl(v, 5) == 32 * v && Shl(v, 6) == 64 * v
  {
    assert Shl(v, 1) == 2 * v;
    assert Shl(v, 2) == 4 * v;
    assert Shl(v, 3) == 8 * v;
    assert Shl(v, 4) == 16 * v;
    assert Shl(v, 5) == 32 * v;
  }

  lemma Shl8(v: nat)
    ensures Shl(v, 8) == 256 * v
  {
    SmallShl(v);
    assert Shl(v, 7) == 128 * v;
  }

  lemma SmallShr(v: nat)
    ensures Shr(v, 5) == v / 32 && Shr(v, 6) == v / 64
  {
    ShrAdd(v, 1, 1);
    assert Shr(v, 2) == v / 4;
    ShrAdd(v, 2, 1);
    assert Shr(v, 3) == v / 8;
    ShrAdd(v, 3, 1);
    assert Shr(v, 4) == v / 16;
    ShrAdd(v, 4, 1);
    assert Shr(v, 5) == v / 32;
    ShrAdd(v, 5, 1);
  }

  function Value(s: seq<Byte>): nat {
    if s == [] then 0 else Value(s[..|s| - 1]) * 256 + s[|s| - 1]
  }

  lemma {:induction false} ValueBound(s: seq<Byte>)
    ensures Value(s) < Shl(1, 8 * |s|)
  {
    if s == [] {
    } else {
      ValueBound(s[..|s| - 1]);
      ShlAdd(1, 8 * (|s| - 1), 8);
      Shl8(Shl(1, 8 * (|s| - 1)));
    }
  }

  /** Shifting out the low-order bytes leaves the value of the others. */
  lemma {:induction false} ValuePrefix(s: seq<Byte>, i: nat)
    requires i <= |s|
    ensures Shr(Value(s), 8 * (|s| - i)) == Value(s[..i])
    decreases |s| - i
  {
    if i == |s| {
      assert s[..i] == s;
    } else {
      ValuePrefix(s, i + 1);
      assert s[..i + 1][..i] == s[..i];
      ShrAdd(Value(s), 8 * (|s| - i - 1), 8);
      LastByteShift(Value(s[..i]), s[i], 8);
    }
  }

  lemma {:induction false} ByteVanishes(x: nat, n: nat)
    requires x < Shl(1, n)
    ensures Shr(x, n) == 0
    decreases n
  {
    if n == 0 {
    } else {
      ByteVanishes(x / 2, n - 1);
    }
  }

  lemma LastByteShift(a: nat, x: Byte, n: nat)
    requires n == 8
    ensures Shr(a * 256 + x, n) == a
  {
    Shl8(a);
    Shl8(1);
    ShrOfShl(a, 0, n, x);
    ByteVanishes(x, n);
  }

  /** Prepending a byte adds it at the top. */
  lemma {:induction false} ValuePrepend(x: Byte, s: seq<Byte>)
    ensures Value([x] + s) == Shl(x, 8 * |s|) + Value(s)
  {
    var t := [x] + s;
    if s == [] {
      assert t[..0] == [];
    } else {
      assert t[..|t| - 1] == [x] + s[..|s| - 1];
      ValuePrepend(x, s[..|s| - 1]);
      ShlAdd(x, 8 * (|s| - 1), 8);
      Shl8(Shl(x, 8 * (|s| - 1)));
    }
  }

  /** The `n` big-endian bytes of a number. */
  function BytesOf(v: nat, n: nat): (s: seq<Byte>)
    ensures |s| == n
    decreases n
  {
    if n == 0 then [] else BytesOf(v / 256, n - 1) + [v % 256]
  }

  lemma {:induction false} BytesOfValue(s: seq<Byte>)
    ensures BytesOf(Value(s), |s|) == s
  {
    if s == [] {
    } else {
      var before, x := s[..|s| - 1], s[|s| - 1];
      BytesOfValue(before);
      assert Value(s) / 256 == Value(before) && Value(s) % 256 == x;
      assert s == before + [x];
    }
  }

  /** A length and a value determine the bytes. */
  lemma ValueInjective(s: seq<Byte>, t: seq<Byte>)
    requires |s| == |t| && Value(s) == Value(t)
    ensures s == t
  {
    BytesOfValue(s);
    BytesOfValue(t);
  }

  // -------------------------------------------------------------------------
  // The alphabet
  // -------------------------------------------------------------------------

  /** The character of a digit: A-Z, a-z, 0-9. */
  function CharOf(d: nat): Byte
    requires d < 62
  {
    if d < 26 then 'A' as int + d else if d < 52 then 'a' as int + d - 26 else '0' as int + d - 52
  }

  const INVALID := 0xFF

  /** The digit of a character, or 0xFF. */
  function DigitOf(c: Byte): Byte {
    if 'A' as int <= c <= 'Z' as int then c - 'A' as int
    else if 'a' as int <= c <= 'z' as int then c - 'a' as int + 26
    else if '0' as int <= c <= '9' as int then c - '0' as int + 52
    else INVALID
  }

  predicate IsText(s: seq<Byte>) {
    forall i :: 0 <= i < |s| ==> DigitOf(s[i]) != INVALID
  }

  function DigitsOf(s: seq<Byte>): seq<nat> {
    seq(|s|, i requires 0 <= i < |s| => DigitOf(s[i]))
  }

  predicate AreDigits(ds: seq<nat>) {
    forall i :: 0 <= i < |ds| ==> ds[i] < 62
  }

  function TextOf(ds: seq<nat>): seq<Byte>
    requires AreDigits(ds)
  {
    seq(|ds|, i requires 0 <= i < |ds| => CharOf(ds[i]))
  }

  lemma TextAppend(ds: seq<nat>, d: nat)
    requires AreDigits(ds) && d < 62
    ensures AreDigits(ds + [d]) && TextOf(ds + [d]) == TextOf(ds) + [CharOf(d)]
  {
  }

  lemma TextIff(s: seq<Byte>)
    ensures IsText(s) <==> AreDigits(DigitsOf(s))
  {
    var ds := DigitsOf(s);
    if AreDigits(ds) {
      forall i | 0 <= i < |s|
        ensures DigitOf(s[i]) != INVALID
      {
        assert ds[i] == DigitOf(s[i]);
      }
    }
  }

  lemma TextRoundTrip(ds: seq<nat>)
    requires AreDigits(ds)
    ensures IsText(TextOf(ds)) && DigitsOf(TextOf(ds)) == ds
  {
  }

  method BuildTable() returns (table: seq<Byte>)
    ensures |table| == 256 && forall c: Byte :: table[c] == DigitOf(c)
  {
    var t := new Byte[256](_ => INVALID);
    for i := 0 to 62
      invariant forall c: Byte :: t[c] == if DigitOf(c) < i then DigitOf(c) else INVALID
    {
      t[CharOf(i)] := i;
    }
    table := t[..];
  }

  // -------------------------------------------------------------------------
  // Encoding
  // -------------------------------------------------------------------------

  /** `b & 0x1E == 0x1E`: bits 1 to 4 all set. */
  predicate Compact(b: nat) {
    b / 2 % 16 == 15
  }

  lemma CompactValues(b: nat)
    requires b < 64
    ensures Compact(b) <==> b == 30 || b == 31 || b == 62 || b == 63
  {
  }

  /** The width of the chunk taken when `bits` bits remain and the low six are `b`. */
  function ChunkSize(b: nat, bits: int): nat {
    if Compact(b) && (bits > 6 || b > 31) then 5 else 6
  }

  function DigitFor(b: nat): nat {
    if Compact(b) then b % 32 else b
  }

  /** Reference encoder: the digits of the number `v` of `bits` bits, low end first. */
  function Digits(v: nat, bits: int): (ds: seq<nat>)
    ensures AreDigits(ds)
    decreases if bits > 0 then bits else 0
  {
    if bits <= 0 then []
    else
      var b := v % 64;
      var size := ChunkSize(b, bits);
      [DigitFor(b)] + Digits(Shr(v, size), bits - size)
  }

  /** What is left of the source when its first `pos` bits remain. */
  function Rest(src: seq<Byte>, pos: nat): nat
    requires pos <= 8 * |src|
  {
    Shr(Value(src), 8 * |src| - pos)
  }

  /** The remaining number ends in the top `r` bits of byte `i`. */
  lemma RestAtByte(src: seq<Byte>, i: nat, r: nat)
    requires i < |src| && 1 <= r <= 8
    ensures Rest(src, 8 * i + r) == Shl(Value(src[..i]), r) + Shr(src[i], 8 - r)
  {
    RestOfPrefix(src, i + 1, 8 - r);
    assert src[..i + 1][..i] == src[..i];
    TopBits(Value(src[..i]), src[i], r);
  }

  lemma RestOfPrefix(src: seq<Byte>, i: nat, k: nat)
    requires i <= |src| && k <= 8 * i
    ensures Rest(src, 8 * i - k) == Shr(Value(src[..i]), k)
  {
    ValuePrefix(src, i);
    ShrAdd(Value(src), 8 * (|src| - i), k);
  }

  lemma TopBits(a: nat, x: Byte, r: nat)
    requires 1 <= r <= 8
    ensures Shr(a * 256 + x, 8 - r) == Shl(a, r) + Shr(x, 8 - r)
  {
    Shl8(a);
    ShrOfShl(a, r, 8 - r, x);
  }

  lemma Mod64(k: nat, z: nat)
    ensures (64 * k + z) % 64 == z % 64
  {
  }

  /** The bits of byte `i - 1` that reach the chunk survive the 8-bit shift. */
  lemma TwoBytes(a: nat, hi: Byte, low: nat, r: nat)
    ensures (low + Shl(hi, r) % 256) % 64 == (Shl(a * 256 + hi, r) + low) % 64
  {
    ShlPlus(256 * a, hi, r);
    ShlTimes256(a, r);
    var h := Shl(hi, r);
    Mod64(4 * Shl(a, r) + 4 * (h / 256), low + h % 256);
  }

  lemma HighBitsOut(a: nat, low: nat, r: nat)
    requires 6 <= r
    ensures (Shl(a, r) + low) % 64 == low % 64
  {
    ShlAdd(a, r - 6, 6);
    var t := Shl(a, r - 6);
    SmallShl(t);
    Mod64(t, low);
  }

  /** The six bits read out of at most two bytes are the low six of what remains. */
  method ReadChunk(src: seq<Byte>, pos: nat) returns (b: nat)
    requires 0 < pos <= 8 * |src|
    ensures b == Rest(src, pos) % 64
  {
    var r, i := pos % 8, pos / 8;
    if r == 0 {
      i := i - 1;
      r := 8;
    }
    RestAtByte(src, i, r);
    b := Shr(src[i], 8 - r);
    if r < 6 && i > 0 {
      assert src[..i][..i - 1] == src[..i - 1];
      TwoBytes(Value(src[..i - 1]), src[i - 1], b, r);
      b := b + Shl(src[i - 1], r) % 256;
    } else if r >= 6 {
      HighBitsOut(Value(src[..i]), b, r);
    } else {
      assert src[..i] == [];
      ShlZero(r);
    }
    b := b % 64;
  }

  lemma {:induction false} ShlZero(n: nat)
    ensures Shl(0, n) == 0
  {
    if n == 0 {
    } else {
      ShlZero(n - 1);
    }
  }

  lemma EncodeTurn(src: seq<Byte>, pos: nat, size: nat)
    requires 0 < pos <= 8 * |src| && size == ChunkSize(Rest(src, pos) % 64, pos)
    ensures var v := Rest(src, pos);
            && Digits(v, pos) == [DigitFor(v % 64)] + Digits(Shr(v, size), pos - size)
            && (pos > size ==> Shr(v, size) == Rest(src, pos - size))
  {
    ShrAdd(Value(src), 8 * |src| - pos, size);
  }

  /** Chunks that would print past the alphabet are written in five bits. */
  method PickDigit(b: nat, pos: nat) returns (digit: nat, size: nat)
    requires b < 64
    ensures size == ChunkSize(b, pos) && digit == DigitFor(b)
  {
    size, digit := 6, b;
    if Compact(b) {
      if pos > 6 || b > 31 {
        size := 5;
      }
      digit := b % 32;
    }
    CompactValues(b);
  }

  /** The text of a byte string, from its value and width alone. */
  function EncodedText(src: seq<Byte>): seq<Byte> {
    TextOf(Digits(Value(src), 8 * |src|))
  }

  method Encode(src: seq<Byte>) returns (out: seq<Byte>)
    ensures out == EncodedText(src)
  {
    var pos: int := 8 * |src|;
    out := [];
    ghost var done: seq<nat> := [];
    ghost var rest := Value(src);
    while pos > 0
      invariant pos <= 8 * |src|
      invariant pos > 0 ==> rest == Rest(src, pos)
      invariant AreDigits(done) && out == TextOf(done)
      invariant done + Digits(rest, pos) == Digits(Value(src), 8 * |src|)
    {
      var b := ReadChunk(src, pos);
      var digit, size := PickDigit(b, pos);
      out := out + [CharOf(digit)];
      TextAppend(done, digit);
      EncodeTurn(src, pos, size);
      Lists.Regroup(done, [digit], Digits(Shr(rest, size), pos - size));
      done := done + [digit];
      rest := Shr(rest, size);
      pos := pos - size;
    }
  }

  // -------------------------------------------------------------------------
  // Decoding
  // -------------------------------------------------------------------------

  /** The number of bits up to the highest set one. */
  function BitLen(x: nat): nat {
    if x == 0 then 0 else 1 + BitLen(x / 2)
  }

  function Width(x: nat): nat {
    if Compact(x) then 5 else 6
  }

  /** The width of the first digit: the last digit of all takes only its significant bits. */
  function WidthAt(ds: seq<nat>): nat
    requires ds != []
  {
    if |ds| == 1 then BitLen(ds[0]) else Width(ds[0])
  }

  /** The number a digit string stands for. */
  function DigitsValue(ds: seq<nat>): nat {
    if ds == [] then 0 else ds[0] + Shl(DigitsValue(ds[1..]), WidthAt(ds))
  }

  /** How many bits of it are significant. */
  function DigitsBits(ds: seq<nat>): nat {
    if ds == [] then 0 else WidthAt(ds) + DigitsBits(ds[1..])
  }

  lemma {:induction false} BitLenBound(x: nat, n: nat)
    requires x < Shl(1, n)
    ensures BitLen(x) <= n && x < Shl(1, BitLen(x))
  {
    if x == 0 {
    } else {
      BitLenBound(x / 2, n - 1);
    }
  }

  lemma DigitFits(ds: seq<nat>)
    requires ds != [] && ds[0] < 62
    ensures ds[0] < Shl(1, WidthAt(ds)) && WidthAt(ds) <= 6
  {
    SmallShl(1);
    BitLenBound(ds[0], 6);
  }

  /** Value left of the decoder: flushed bytes below, `b` next, unread digits on top. */
  function Total(flushed: nat, f: nat, b: nat, pos: nat, unread: nat): nat {
    flushed + Shl(b + Shl(unread, pos), 8 * f)
  }

  lemma TakeDigit(flushed: nat, f: nat, b: nat, pos: nat, x: nat, w: nat, unread: nat)
    requires b < Shl(1, pos) && x < Shl(1, w)
    ensures Total(flushed, f, b, pos, x + Shl(unread, w)) == Total(flushed, f, b + Shl(x, pos), pos + w, unread)
    ensures b + Shl(x, pos) < Shl(1, pos + w)
  {
    ShlPlus(x, Shl(unread, w), pos);
    ShlAdd(unread, w, pos);
    ShlAdd(1, w, pos);
    ShlLess(x, Shl(1, w), pos);
  }

  lemma FlushByte(flushed: nat, f: nat, b: nat, pos: nat, unread: nat)
    requires b < Shl(1, pos + 8)
    ensures Total(flushed, f, b, pos + 8, unread)
         == Total(Shl(b % 256, 8 * f) + flushed, f + 1, b / 256, pos, unread)
    ensures b / 256 < Shl(1, pos)
  {
    ShlAdd(1, pos, 8);
    Shl8(Shl(1, pos));
    ShlAdd(unread, pos, 8);
    Shl8(Shl(unread, pos));
    var top := b / 256 + Shl(unread, pos);
    assert b + Shl(unread, pos + 8) == b % 256 + 256 * top;
    ShlPlus(b % 256, 256 * top, 8 * f);
    ShlTimes256(top, 8 * f);
    ShlAdd(top, 8 * f, 8);
    Shl8(Shl(top, 8 * f));
  }

  /** With nothing unread, the bits left over are the top byte. */
  lemma LastByte(flushed: nat, f: nat, b: nat, pos: nat)
    requires pos < 8 && b < Shl(1, pos)
    ensures b < 256 && Total(flushed, f, b, pos, 0) == Shl(b, 8 * f) + flushed
    ensures pos == 0 ==> Total(flushed, f, b, pos, 0) == flushed
  {
    ShlZero(pos);
    ShlZero(8 * f);
    Shl8(1);
    ShlAdd(1, pos, 8 - pos);
    GrowsWithShift(Shl(1, pos), 8 - pos);
  }

  /** `idx -= 1; dst[idx] = x`. */
  method PutByte(dst: array<Byte>, idx: nat, x: Byte)
    requires 0 < idx <= dst.Length
    modifies dst
    ensures Value(dst[idx - 1..]) == Shl(x, 8 * (dst.Length - idx)) + old(Value(dst[idx..]))
  {
    ghost var tail := dst[idx..];
    dst[idx - 1] := x;
    assert dst[idx - 1..] == [x] + tail;
    ValuePrepend(x, tail);
  }

  /** The decoder's state: `total` is what the flushed bytes, `b` and the unread digits make up. */
  ghost predicate Holding(dst: array<Byte>, idx: nat, pos: nat, b: nat, unread: nat, total: nat)
    reads dst
  {
    && idx <= dst.Length && pos < 8 && b < Shl(1, pos)
    && Total(Value(dst[idx..]), dst.Length - idx, b, pos, unread) == total
  }

  /** `width` bits go on top of `b`, and a full byte is flushed. */
  method Absorb(dst: array<Byte>, idx: nat, pos: nat, b: nat, x: nat, width: nat, ghost rest: nat, ghost total: nat)
    returns (idx': nat, pos': nat, b': nat)
    requires Holding(dst, idx, pos, b, x + Shl(rest, width), total)
    requires x < Shl(1, width) && width <= 6 && (pos + width >= 8 ==> idx > 0)
    modifies dst
    ensures Holding(dst, idx', pos', b', rest, total)
    ensures pos' - 8 * idx' == pos - 8 * idx + width
  {
    TakeDigit(Value(dst[idx..]), dst.Length - idx, b, pos, x, width, rest);
    idx', b', pos' := idx, b + Shl(x, pos), pos + width;
    if pos' >= 8 {
      idx', pos', b' := Flush(dst, idx, pos', b', rest, total);
    }
  }

  /** The low byte of a full buffer goes out. */
  method Flush(dst: array<Byte>, idx: nat, pos: nat, b: nat, ghost rest: nat, ghost total: nat)
    returns (idx': nat, pos': nat, b': nat)
    requires 0 < idx <= dst.Length && 8 <= pos < 16 && b < Shl(1, pos)
    requires Total(Value(dst[idx..]), dst.Length - idx, b, pos, rest) == total
    modifies dst
    ensures Holding(dst, idx', pos', b', rest, total) && idx' == idx - 1 && pos' == pos - 8
  {
    FlushByte(Value(dst[idx..]), dst.Length - idx, b, pos - 8, rest);
    PutByte(dst, idx, b % 256);
    idx', pos', b' := idx - 1, pos - 8, b / 256;
  }

  /** One digit, with the width its value and position give it. */
  method AbsorbDigit(dst: array<Byte>, idx: nat, pos: nat, b: nat, x: nat, last: bool,
                     ghost unread: seq<nat>, ghost total: nat)
    returns (idx': nat, pos': nat, b': nat)
    requires unread != [] && unread[0] == x < 62 && (last <==> |unread| == 1)
    requires Holding(dst, idx, pos, b, DigitsValue(unread), total) && (pos >= 2 ==> idx > 0)
    modifies dst
    ensures Holding(dst, idx', pos', b', DigitsValue(unread[1..]), total)
    ensures pos' - 8 * idx' + DigitsBits(unread[1..]) == pos - 8 * idx + DigitsBits(unread)
    ensures pos' - 8 * idx' <= pos - 8 * idx + 6
  {
    var width := if last then BitLen(x) else Width(x);
    DigitFits(unread);
    idx', pos', b' := Absorb(dst, idx, pos, b, x, width, DigitsValue(unread[1..]), total);
  }

  /** The last partial byte, if any, and the bytes flushed before. */
  method TakeBytes(dst: array<Byte>, idx: nat, pos: nat, b: nat, ghost total: nat) returns (bytes: seq<Byte>)
    requires Holding(dst, idx, pos, b, 0, total) && (pos > 0 ==> idx > 0)
    modifies dst
    ensures |bytes| == (8 * (dst.Length - idx) + pos + 7) / 8
    ensures Value(bytes) == total
  {
    LastByte(Value(dst[idx..]), dst.Length - idx, b, pos);
    if pos > 0 {
      PutByte(dst, idx, b % 256);
      return dst[idx - 1..];
    }
    return dst[idx..];
  }

  /** The first `i` digits are read, in at most six bits each. */
  ghost predicate Reading(dst: array<Byte>, idx: nat, pos: nat, b: nat, ds: seq<nat>, i: nat)
    requires i <= |ds|
    reads dst
  {
    && Holding(dst, idx, pos, b, DigitsValue(ds[i..]), DigitsValue(ds))
    && 8 * (dst.Length - idx) + pos <= 6 * i
    && 8 * (dst.Length - idx) + pos + DigitsBits(ds[i..]) == DigitsBits(ds)
  }

  method ReadDigit(dst: array<Byte>, idx: nat, pos: nat, b: nat, x: nat, last: bool,
                   ghost ds: seq<nat>, ghost i: nat)
    returns (idx': nat, pos': nat, b': nat)
    requires i < |ds| && ds[i] == x < 62 && (last <==> i == |ds| - 1) && dst.Length == |ds| * 6 / 8 + 1
    requires Reading(dst, idx, pos, b, ds, i)
    modifies dst
    ensures Reading(dst, idx', pos', b', ds, i + 1)
  {
    ghost var unread := ds[i..];
    assert unread[1..] == ds[i + 1..];
    idx', pos', b' := AbsorbDigit(dst, idx, pos, b, x, last, unread, DigitsValue(ds));
  }

  /** The decoding loop over a non-empty string; None at the first invalid character. */
  method DecodeInto(s: seq<Byte>, table: seq<Byte>) returns (r: Option<seq<Byte>>)
    requires s != [] && |table| == 256 && forall c: Byte :: table[c] == DigitOf(c)
    ensures r.Some? <==> AreDigits(DigitsOf(s))
    ensures r.Some? ==> |r.value| == (DigitsBits(DigitsOf(s)) + 7) / 8 && Value(r.value) == DigitsValue(DigitsOf(s))
  {
    ghost var ds := DigitsOf(s);
    var dst := new Byte[|s| * 6 / 8 + 1](_ => 0);
    var idx: nat, pos: nat, b: nat := dst.Length, 0, 0;
    assert ds[0..] == ds;
    for i := 0 to |s|
      invariant Reading(dst, idx, pos, b, ds, i) && AreDigits(ds[..i])
    {
      var x := table[s[i]];
      assert x == ds[i] && ds[..i + 1] == ds[..i] + [ds[i]];
      if x == INVALID {
        assert ds[i] in ds;
        return None;
      }
      idx, pos, b := ReadDigit(dst, idx, pos, b, x, i == |s| - 1, ds, i);
    }
    assert ds[..|s|] == ds && ds[|s|..] == [];
    var bytes := TakeBytes(dst, idx, pos, b, DigitsValue(ds));
    r := Some(bytes);
  }

  /** Reference decoder: nothing unless every character is in the alphabet, else
      the big-endian bytes of the digits' value, as many as its bits need. */
  function Decoded(s: seq<Byte>): Option<seq<Byte>> {
    if !IsText(s) then None
    else
      var ds := DigitsOf(s);
      Some(BytesOf(DigitsValue(ds), (DigitsBits(ds) + 7) / 8))
  }

  /** Decodes any byte string; all indexing stays inside the buffer. */
  method Decode(s: seq<Byte>) returns (r: Option<seq<Byte>>)
    ensures r == Decoded(s)
  {
    var table := BuildTable();
    if s == [] {
      return Some([]);
    }
    TextIff(s);
    r := DecodeInto(s, table);
    if r.Some? {
      BytesOfValue(r.value);
    }
  }

  // -------------------------------------------------------------------------
  // Round trip
  // -------------------------------------------------------------------------

  lemma SplitLow(v: nat)
    ensures v == v % 32 + Shl(Shr(v, 5), 5) && v == v % 64 + Shl(Shr(v, 6), 6)
  {
    SmallShr(v);
    SmallShl(Shr(v, 5));
    SmallShl(Shr(v, 6));
  }

  lemma {:induction false} ShrBound(v: nat, bits: nat, n: nat)
    requires v < Shl(1, bits) && n <= bits
    ensures Shr(v, n) < Shl(1, bits - n)
    decreases n
  {
    if n == 0 {
    } else {
      ShrBound(v / 2, bits - 1, n - 1);
    }
  }

  lemma LowSix(v: nat)
    ensures v % 64 < 64 && v % 64 % 32 == v % 32 && (v < 64 ==> v % 64 == v)
  {
    var k, low := v / 64, v % 64;
    assert v == 32 * (2 * k + low / 32) + low % 32;
    Mod32(2 * k + low / 32, low % 32);
  }

  lemma Mod32(k: nat, z: nat)
    requires z < 32
    ensures (32 * k + z) % 32 == z
  {
  }

  /** The last chunk is the whole number left. */
  lemma LastChunk(v: nat, bits: nat)
    requires 0 < bits && v < Shl(1, bits) && bits <= ChunkSize(v % 64, bits)
    ensures Digits(v, bits) == [v] && BitLen(v) <= bits <= 6
  {
    LowSix(v);
    CompactValues(v % 64);
    ShlSmallBits(bits);
    BitLenBound(v, bits);
    assert v < 64 && ChunkSize(v, bits) == 6 && DigitFor(v) == v;
    assert Digits(Shr(v, 6), bits - 6) == [];
  }

  /** Any other chunk is as wide as its digit says. */
  lemma InnerChunk(v: nat, bits: nat)
    requires v < Shl(1, bits) && bits > ChunkSize(v % 64, bits)
    ensures var size, d := ChunkSize(v % 64, bits), DigitFor(v % 64);
            size == Width(d) && v == d + Shl(Shr(v, size), size)
  {
    SplitLow(v);
    LowSix(v);
    CompactValues(v % 64);
    CompactValues(DigitFor(v % 64));
  }

  /** The digits of a number stand for that number, and lose at most six leading bits. */
  lemma {:induction false} DigitsRoundTrip(v: nat, bits: nat)
    requires v < Shl(1, bits)
    ensures var ds := Digits(v, bits);
            && DigitsValue(ds) == v
            && bits - 6 <= DigitsBits(ds) <= bits && (bits > 0 ==> ds != [])
    decreases bits
  {
    if bits == 0 {
    } else {
      var size, ds := ChunkSize(v % 64, bits), Digits(v, bits);
      if bits > size {
        InnerChunk(v, bits);
        ShrBound(v, bits, size);
        DigitsRoundTrip(Shr(v, size), bits - size);
        assert ds[1..] == Digits(Shr(v, size), bits - size);
      } else {
        LastChunk(v, bits);
        assert [v][1..] == [] && DigitsValue([]) == 0;
        ShlZero(BitLen(v));
      }
    }
  }

  lemma {:induction false} ShlSmallBits(bits: nat)
    requires bits <= 6
    ensures Shl(1, bits) <= 64 && (bits <= 5 ==> Shl(1, bits) <= 32)
  {
    SmallShl(1);
    ShlAdd(1, bits, 6 - bits);
    GrowsWithShift(Shl(1, bits), 6 - bits);
    if bits <= 5 {
      ShlAdd(1, bits, 5 - bits);
      GrowsWithShift(Shl(1, bits), 5 - bits);
    }
  }

  lemma {:induction false} GrowsWithShift(v: nat, n: nat)
    ensures v <= Shl(v, n)
  {
    if n == 0 {
    } else {
      GrowsWithShift(v, n - 1);
    }
  }

  /** Encoding then decoding is the identity on every byte string. */
  method RoundTrip(src: seq<Byte>) returns (text: seq<Byte>, back: Option<seq<Byte>>)
    ensures text == EncodedText(src)
    ensures back == Some(src)
  {
    text := Encode(src);
    back := Decode(text);
    DecodedOfEncoded(src);
  }

  lemma DecodedOfEncoded(src: seq<Byte>)
    ensures Decoded(EncodedText(src)) == Some(src)
  {
    ValueBound(src);
    DigitsRoundTrip(Value(src), 8 * |src|);
    TextRoundTrip(Digits(Value(src), 8 * |src|));
    BytesOfValue(src);
  }
}
