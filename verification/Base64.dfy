/**
 The hand-written base64 codec of the API's token code.

 Text is modelled as its UTF-8 bytes, one `char` per byte. The encoder keeps a 32-bit
 accumulator that is shifted but never masked, so its high bits wrap away; the decoder masks
 its accumulator after every byte. `<<` doubles modulo 2^32, `>>` halves, `& 0x3F` is `% 64`,
 and `|` is `+` because the low bits are zero after the shift.
 */
module Base64 {
  import opened Arithmetic

  type byte = x: int | 0 <= x < 256
  type sextet = x: int | 0 <= x < 64
  type u32 = x: int | 0 <= x < 0x1_0000_0000

  const ALPHABET: string :=
    "ABCDEFGHIJKLMNOPQRSTUVWXYZ" + "abcdefghijklmnopqrstuvwxyz" + "0123456789+/"

  datatype DecodeResult = Ok(bytes: seq<byte>) | Err

  // ---------------------------------------------------------------------------------------
  // The alphabet
  // ---------------------------------------------------------------------------------------

  /** `ALPHABET[v]`, by character class. */
  function Letter(v: sextet): char {
    if v < 26 then (v + 65) as char
    else if v < 52 then (v + 71) as char
    else if v < 62 then (v - 4) as char
    else if v == 62 then '+'
    else '/'
  }

  /** The classes spell out the literal table of the source. */
  lemma LetterIsTableEntry(v: sextet)
    ensures |ALPHABET| == 64 && Letter(v) == ALPHABET[v]
  {
    if v < 26 {
      assert ALPHABET[v] == "ABCDEFGHIJKLMNOPQRSTUVWXYZ"[v];
    } else if v < 52 {
      assert ALPHABET[v] == "abcdefghijklmnopqrstuvwxyz"[v - 26];
    } else {
      assert ALPHABET[v] == "0123456789+/"[v - 52];
    }
  }

  /** First index of `c` in the table at or after `i`; -1 when there is none. */
  function PositionFrom(c: char, i: nat): (r: int)
    requires i <= 64
    ensures r == -1 || (i <= r < 64 && Letter(r) == c)
    ensures r == -1 ==> forall j :: i <= j < 64 ==> Letter(j) != c
    decreases 64 - i
  {
    if i == 64 then -1
    else if Letter(i) == c then i
    else PositionFrom(c, i + 1)
  }

  function Position(c: char): (r: int)
    ensures -1 <= r < 64
    ensures r >= 0 ==> Letter(r) == c
  {
    PositionFrom(c, 0)
  }

  /** The table has no repeated letter, so the linear search inverts indexing. */
  lemma PositionOfLetter(v: sextet)
    ensures Position(Letter(v)) == v
    ensures Letter(v) != '=' && Letter(v) != '-' && Letter(v) != '_'
  {
    var r := Position(Letter(v));
    assert Letter(r) == Letter(v);
  }

  // ---------------------------------------------------------------------------------------
  // Shifts and bits
  // ---------------------------------------------------------------------------------------

  /** `v >> n`. */
  function Shr(v: nat, n: nat): nat { if n == 0 then v else Shr(v / 2, n - 1) }

  /** `v << n` on a `u32`: the bits shifted past the top are lost. */
  function Shl(v: u32, n: nat): u32
    decreases n, v
  {
    if n == 0 then v else Shl(2 * v as int % 0x1_0000_0000, n - 1)
  }

  /** The low `n` bits of `v`, most significant first. */
  function Bits(v: nat, n: nat): (b: seq<bool>)
    ensures |b| == n
  {
    if n == 0 then [] else Bits(v / 2, n - 1) + [v % 2 == 1]
  }

  /** The number that a bit string spells. */
  function Number(b: seq<bool>): nat {
    if b == [] then 0 else 2 * Number(b[..|b| - 1]) + if b[|b| - 1] then 1 else 0
  }

  /** The `w`-bit values of `vs` laid end to end. */
  function Stream(vs: seq<nat>, w: nat): (b: seq<bool>)
    ensures w == 6 ==> |b| == 6 * |vs|
    ensures w == 8 ==> |b| == 8 * |vs|
  {
    if vs == [] then [] else Bits(vs[0], w) + Stream(vs[1..], w)
  }

  /** The complete `w`-bit groups of a bit string; a shorter rest is dropped. */
  function Groups(b: seq<bool>, w: nat): (vs: seq<nat>)
    requires w > 0
    ensures Below(vs, Pow2(w))
  {
    if |b| < w then [] else
      BitsOfNumber(b[..w]);
      [Number(b[..w])] + Groups(b[w..], w)
  }

  predicate Below(vs: seq<nat>, m: nat) { forall i :: 0 <= i < |vs| ==> vs[i] < m }

  function Zeros(n: nat): seq<bool> { seq(n, _ => false) }

  lemma Associative(a: seq<bool>, b: seq<bool>, c: seq<bool>)
    ensures (a + b) + c == a + (b + c)
  {
  }

  lemma {:induction false} NumberOfBits(v: nat, n: nat)
    requires v < Pow2(n)
    ensures Number(Bits(v, n)) == v
  {
    if n > 0 {
      NumberOfBits(v / 2, n - 1);
      assert Bits(v, n)[..n - 1] == Bits(v / 2, n - 1);
    }
  }

  lemma {:induction false} BitsOfNumber(b: seq<bool>)
    ensures Number(b) < Pow2(|b|) && Bits(Number(b), |b|) == b
  {
    if b != [] {
      BitsOfNumber(b[..|b| - 1]);
      assert b == b[..|b| - 1] + [b[|b| - 1]];
    }
  }

  /** Cutting a bit string in two is a right shift and a keeping of the low part. */
  lemma {:induction false} BitsSplit(v: nat, a: nat, b: nat)
    ensures Bits(v, a + b) == Bits(Shr(v, b), a) + Bits(v, b)
  {
    if b > 0 {
      BitsSplit(v / 2, a, b - 1);
    } else {
      assert Bits(v, a) == Bits(v, a) + [];
    }
  }

  lemma ModOfDouble(v: nat, m: nat)
    requires m > 0
    ensures v % (2 * m) == 2 * (v / 2 % m) + v % 2
  {
    var h := v / 2;
    var q, r := h / m, h % m;
    assert m * q + r == h;
    QuotientUnique(v, 2 * m, q, 2 * r + v % 2);
  }

  /** The low bits of a value do not change when its high bits are cleared or lost. */
  lemma {:induction false} BitsOfLowPart(v: nat, m: nat, n: nat)
    requires n <= m
    ensures Bits(v % Pow2(m), n) == Bits(v, n)
  {
    if n > 0 {
      ModOfDouble(v, Pow2(m - 1));
      BitsOfLowPart(v / 2, m - 1, n - 1);
    }
  }

  lemma PowersOfTwo()
    ensures Pow2(6) == 64 && Pow2(8) == 256
  {
  }

  lemma WordSize()
    ensures Pow2(32) == 0x1_0000_0000
  {
    assert Pow2(8) == 256;
    assert Pow2(12) == 4096;
    assert Pow2(16) == 65536;
    assert Pow2(20) == 1048576;
    assert Pow2(24) == 16777216;
    assert Pow2(28) == 268435456;
  }

  lemma BitsOfWord(v: nat, n: nat)
    requires n <= 32
    ensures Bits(v % 0x1_0000_0000, n) == Bits(v, n)
  {
    WordSize();
    BitsOfLowPart(v, 32, n);
  }

  lemma BitsOfDouble(v: u32, n: nat)
    requires n + 1 <= 32
    ensures Bits(2 * v as int % 0x1_0000_0000, n + 1) == Bits(v, n) + [false]
  {
    BitsOfWord(2 * v, n + 1);
    assert 2 * v / 2 == v;
  }

  /** A left shift appends zeros, as long as the bits looked at still fit in the word. */
  lemma {:induction false} BitsOfShl(v: u32, k: nat, n: nat)
    requires n + k <= 32
    ensures Bits(Shl(v, k), n + k) == Bits(v, n) + Zeros(k)
    decreases k
  {
    if k == 0 {
      assert Bits(v, n) + Zeros(0) == Bits(v, n);
    } else {
      BitsOfShl(2 * v as int % 0x1_0000_0000, k - 1, n + 1);
      BitsOfDouble(v, n);
      assert [false] + Zeros(k - 1) == Zeros(k);
      Associative(Bits(v, n), [false], Zeros(k - 1));
    }
  }

  /** Or-ing a `k`-bit value into `k` zero bits puts its bits there. */
  lemma {:induction false} BitsOfOr(s: nat, c: nat, n: nat, k: nat)
    requires Bits(s, k) == Zeros(k) && c < Pow2(k)
    ensures Bits(s + c, n + k) == Bits(Shr(s, k), n) + Bits(c, k)
  {
    if k == 0 {
      assert Bits(s, n) + [] == Bits(s, n);
    } else {
      assert Bits(s, k)[k - 1] == false;
      assert Bits(s / 2, k - 1) == Bits(s, k)[..k - 1] == Zeros(k - 1);
      BitsOfOr(s / 2, c / 2, n, k - 1);
      assert (s + c) / 2 == s / 2 + c / 2;
    }
  }

  /** `(v << k) | c`: the low bits of `v` followed by the bits of `c`. */
  lemma BitsOfShiftIn(v: u32, c: nat, n: nat, k: nat)
    requires n + k <= 32 && c < Pow2(k)
    ensures Bits(Shl(v, k) + c, n + k) == Bits(v, n) + Bits(c, k)
  {
    BitsOfShl(v, k, n);
    BitsOfShl(v, k, 0);
    BitsOfOr(Shl(v, k), c, n, k);
    BitsSplit(Shl(v, k), n, k);
    assert Bits(Shl(v, k), n + k)[..n] == Bits(v, n);
  }

  lemma {:induction false} ZerosAreZero(k: nat)
    ensures Number(Zeros(k)) == 0
  {
    if k > 0 {
      ZerosAreZero(k - 1);
      assert Zeros(k)[..k - 1] == Zeros(k - 1);
    }
  }

  /** A left shift leaves room for the bits or-ed in: they never carry into the next word. */
  lemma RoomAfterShl(v: u32, k: nat)
    requires k == 6 || k == 8
    ensures Shl(v, k) % Pow2(k) == 0 && Shl(v, k) + Pow2(k) <= 0x1_0000_0000
  {
    BitsOfShl(v, k, 0);
    assert Bits(v, 0) + Zeros(k) == Zeros(k);
    LowBitsZero(Shl(v, k), k);
    PowersOfTwo();
    MultiplesOfBlock(Shl(v, k));
  }

  lemma MultiplesOfBlock(s: u32)
    ensures s % 64 == 0 ==> s as int + 64 <= 0x1_0000_0000
    ensures s % 256 == 0 ==> s as int + 256 <= 0x1_0000_0000
  {
  }

  lemma LowBitsZero(s: nat, k: nat)
    requires Bits(s, k) == Zeros(k)
    ensures s % Pow2(k) == 0
  {
    BitsOfLowPart(s, k, k);
    NumberOfBits(s % Pow2(k), k);
    ZerosAreZero(k);
  }

  lemma ModAtMost(v: nat, m: nat)
    requires m > 0
    ensures v % m <= v
  {
    if v < m {
      QuotientUnique(v, m, 0, v);
    }
  }

  /** `v & ((1 << n) - 1)`. */
  function Mask(v: u32, n: nat): (r: u32)
    ensures Bits(r, n) == Bits(v, n)
  {
    BitsOfLowPart(v, n, n);
    ModAtMost(v, Pow2(n));
    v as int % Pow2(n)
  }

  /** `(v << k) | c` for a `k`-bit value `c`. */
  function ShiftIn(v: u32, c: nat, k: nat): u32
    requires (k == 6 || k == 8) && c < Pow2(k)
  {
    RoomAfterShl(v, k);
    Shl(v, k) + c
  }

  lemma BitsOfNext(v: u32, c: nat, n: nat, k: nat)
    requires n + k <= 32 && ((k == 6 && c < 64) || (k == 8 && c < 256))
    ensures c < Pow2(k) && Bits(ShiftIn(v, c, k), n + k) == Bits(v, n) + Bits(c, k)
  {
    PowersOfTwo();
    BitsOfShiftIn(v, c, n, k);
  }

  lemma {:induction false} StreamOfAppend(vs: seq<nat>, v: nat, w: nat)
    ensures Stream(vs + [v], w) == Stream(vs, w) + Bits(v, w)
  {
    if vs == [] {
      assert Stream([v], w) == Bits(v, w) + Stream([], w);
    } else {
      StreamOfAppend(vs[1..], v, w);
      assert (vs + [v])[1..] == vs[1..] + [v];
    }
  }

  lemma GroupsOfNext(head: seq<bool>, rest: seq<bool>, w: nat)
    requires |head| == w > 0
    ensures Groups(head + rest, w) == [Number(head)] + Groups(rest, w)
  {
    assert (head + rest)[..w] == head && (head + rest)[w..] == rest;
  }

  /** Regrouping a stream with fewer than `w` bits after it gives the values back. */
  lemma {:induction false} GroupsOfStream(vs: seq<nat>, rest: seq<bool>, w: nat)
    requires 0 < w && |rest| < w && Below(vs, Pow2(w))
    ensures Groups(Stream(vs, w) + rest, w) == vs
  {
    if vs == [] {
      assert [] + rest == rest;
    } else {
      NumberOfBits(vs[0], w);
      GroupsOfStream(vs[1..], rest, w);
      GroupsOfNext(Bits(vs[0], w), Stream(vs[1..], w) + rest, w);
      Associative(Bits(vs[0], w), Stream(vs[1..], w), rest);
    }
  }

  // ---------------------------------------------------------------------------------------
  // Reference: the bit stream of section 4 of RFC 4648
  // ---------------------------------------------------------------------------------------

  function Spell(vs: seq<nat>): (s: string)
    requires Below(vs, 64)
    ensures |s| == |vs|
  {
    seq(|vs|, i requires 0 <= i < |vs| => Letter(vs[i]))
  }

  function Pads(n: nat): string { seq(n, _ => '=') }

  /** Zero bits needed after `n` bytes to complete the last six-bit group. */
  function Fill(n: nat): (f: nat)
    ensures f < 6 && (8 * n + f) % 6 == 0
  {
    if n % 3 == 0 then 0 else if n % 3 == 1 then 4 else 2
  }

  /** The bytes as one bit string, zero-filled to whole six-bit groups. */
  function Sextets(x: seq<byte>): (vs: seq<nat>)
    ensures Below(vs, 64)
  {
    var b := Stream(x, 8) + Zeros(Fill(|x|));
    PowersOfTwo();
    Groups(b, 6)
  }

  /** Section 4 of RFC 4648: six-bit groups, then one '=' for every byte missing from the last three. */
  function Rfc4648(x: seq<byte>): string { Spell(Sextets(x)) + Pads((3 - |x| % 3) % 3) }

  /** What `base64_encode` writes: the same letters, but two pads after any incomplete group. */
  function Encoded(x: seq<byte>): string { Spell(Sextets(x)) + Pads(if |x| % 3 == 0 then 0 else 2) }

  // ---------------------------------------------------------------------------------------
  // The encoder
  // ---------------------------------------------------------------------------------------

  /** Shifting a byte into the buffer appends its bits to the pending ones. */
  lemma StreamOfPush(written: seq<byte>, emitted: seq<nat>, buffer: u32, bits: nat, c: byte)
    requires bits < 6 && Stream(written, 8) == Stream(emitted, 6) + Bits(buffer, bits)
    ensures c < Pow2(8)
    ensures Stream(written + [c], 8) == Stream(emitted, 6) + Bits(ShiftIn(buffer, c, 8), bits + 8)
  {
    BitsOfNext(buffer, c, bits, 8);
    StreamOfAppend(written, c, 8);
    Associative(Stream(emitted, 6), Bits(buffer, bits), Bits(c, 8));
  }

  /** Moving the top six of the pending bits to the output keeps the whole stream. */
  lemma StreamOfEmit(emitted: seq<nat>, buffer: u32, b: nat)
    ensures Stream(emitted, 6) + Bits(buffer, b + 6)
            == Stream(emitted + [Shr(buffer, b) % 64], 6) + Bits(buffer, b)
  {
    var index := Shr(buffer, b) % 64;
    PowersOfTwo();
    BitsSplit(buffer, 6, b);
    BitsOfLowPart(Shr(buffer, b), 6, 6);
    StreamOfAppend(emitted, index, 6);
    Associative(Stream(emitted, 6), Bits(index, 6), Bits(buffer, b));
  }

  /** A zero-filled stream of bytes determines its six-bit groups. */
  lemma SextetsUnique(x: seq<byte>, vs: seq<nat>, fill: nat)
    requires Below(vs, 64)
    requires fill < 6 && Stream(vs, 6) == Stream(x, 8) + Zeros(fill)
    ensures vs == Sextets(x) && fill == Fill(|x|)
  {
    PowersOfTwo();
    FillUnique(|x|, |vs|, fill);
    GroupsOfStream(vs, [], 6);
    assert Stream(vs, 6) + [] == Stream(vs, 6);
  }

  lemma FillUnique(n: nat, m: nat, fill: nat)
    requires fill < 6 && 6 * m == 8 * n + fill
    ensures fill == Fill(n)
  {
  }

  class Encoder {
    var output: string
    var buffer: u32
    var bits: nat
    ghost var written: seq<byte>
    ghost var emitted: seq<nat>

    /** What was written is what was emitted followed by the low `bits` of the buffer. */
    ghost predicate Streaming()
      reads this
    {
      && Below(emitted, 64)
      && output == Spell(emitted)
      && Stream(written, 8) == Stream(emitted, 6) + Bits(buffer, bits)
    }

    ghost predicate Valid()
      reads this
    {
      Streaming() && bits < 6
    }

    constructor ()
      ensures Valid() && written == [] && output == []
    {
      output, buffer, bits := [], 0, 0;
      written, emitted := [], [];
    }

    method Write(buf: seq<byte>)
      requires Valid()
      modifies this
      ensures Valid() && written == old(written) + buf
    {
      var i := 0;
      while i < |buf|
        invariant i <= |buf| && Valid() && written == old(written) + buf[..i]
      {
        TakeNext(old(written), buf, i);
        PushByte(buf[i]);
        Drain();
        i := i + 1;
      }
      assert buf[..i] == buf;
    }

    /** Emits every complete six-bit group of the pending bits. */
    method Drain()
      requires Streaming()
      modifies this
      ensures Valid() && written == old(written)
    {
      while bits >= 6
        invariant Streaming() && written == old(written)
      {
        EmitSextet();
      }
    }

    /** Takes a byte into the accumulator behind the pending bits. */
    method PushByte(c: byte)
      requires Valid()
      modifies this
      ensures Streaming() && bits == old(bits) + 8
      ensures written == old(written) + [c] && output == old(output)
    {
      StreamOfPush(written, emitted, buffer, bits, c);
      buffer := ShiftIn(buffer, c, 8);
      bits := bits + 8;
      written := written + [c];
    }

    /** Writes the letter of the six oldest pending bits. */
    method EmitSextet()
      requires Streaming() && bits >= 6
      modifies this
      ensures Streaming() && bits == old(bits) - 6
      ensures written == old(written) && |output| == |old(output)| + 1
    {
      StreamOfEmit(emitted, buffer, bits - 6);
      bits := bits - 6;
      var index := Shr(buffer, bits) % 64;
      SpellOfAppend(emitted, index);
      output := output + [Letter(index)];
      emitted := emitted + [index];
    }

    method AddPadding(padding: nat)
      modifies `output
      ensures output == old(output) + Pads(padding)
    {
      var n := 0;
      while n < padding
        invariant n <= padding && output == old(output) + Pads(n)
      {
        assert Pads(n + 1) == Pads(n) + ['='];
        output := output + ['='];
        n := n + 1;
      }
    }

    /** Writes the last incomplete group and its padding; runs once, when the encoder is dropped. */
    method Flush()
      requires Valid()
      modifies this
      ensures output == Encoded(written) && written == old(written)
    {
      if bits > 0 {
        LastGroup(written, emitted, buffer, bits);
        var index := Shl(buffer, 6 - bits) % 64;
        output := output + [Letter(index)];
        AddPadding((3 - (bits / 8 + 1) % 3) % 3);
      } else {
        NoLastGroup(written, emitted, buffer);
      }
    }
  }

  lemma TakeNext(before: seq<byte>, buf: seq<byte>, i: nat)
    requires i < |buf|
    ensures before + buf[..i] + [buf[i]] == before + buf[..i + 1]
  {
  }

  lemma SpellOfAppend(vs: seq<nat>, v: sextet)
    requires Below(vs, 64)
    ensures Spell(vs + [v]) == Spell(vs) + [Letter(v)]
  {
  }

  /** Shifting the pending bits up to six zero-fills the last group. */
  lemma LastGroup(written: seq<byte>, emitted: seq<nat>, buffer: u32, bits: nat)
    requires 0 < bits < 6 && Below(emitted, 64)
    requires Stream(written, 8) == Stream(emitted, 6) + Bits(buffer, bits)
    ensures |written| % 3 != 0
    ensures Spell(Sextets(written)) == Spell(emitted) + [Letter(Shl(buffer, 6 - bits) % 64)]
  {
    var index := Shl(buffer, 6 - bits) % 64;
    StreamOfLast(emitted, buffer, bits);
    assert Stream(emitted + [index], 6) == Stream(written, 8) + Zeros(6 - bits);
    SextetsUnique(written, emitted + [index], 6 - bits);
    SpellOfAppend(emitted, index);
  }

  lemma StreamOfLast(emitted: seq<nat>, buffer: u32, bits: nat)
    requires bits < 6
    ensures Stream(emitted + [Shl(buffer, 6 - bits) % 64], 6)
            == (Stream(emitted, 6) + Bits(buffer, bits)) + Zeros(6 - bits)
  {
    var shifted := Shl(buffer, 6 - bits);
    PowersOfTwo();
    BitsOfShl(buffer, 6 - bits, bits);
    BitsOfLowPart(shifted, 6, 6);
    StreamOfAppend(emitted, shifted % 64, 6);
    Associative(Stream(emitted, 6), Bits(buffer, bits), Zeros(6 - bits));
  }

  lemma NoLastGroup(written: seq<byte>, emitted: seq<nat>, buffer: u32)
    requires Below(emitted, 64) && Stream(written, 8) == Stream(emitted, 6) + Bits(buffer, 0)
    ensures |written| % 3 == 0 && Spell(emitted) == Encoded(written)
  {
    assert Stream(emitted, 6) == Stream(written, 8) + Zeros(0);
    SextetsUnique(written, emitted, 0);
    assert Pads(0) == [];
  }

  method Base64Encode(data: seq<byte>) returns (text: string)
    ensures text == Encoded(data)
  {
    var encoder := new Encoder();
    encoder.Write(data);
    assert encoder.written == data;
    encoder.Flush();
    text := encoder.output;
  }

  // ---------------------------------------------------------------------------------------
  // The decoder
  // ---------------------------------------------------------------------------------------

  /** The text up to the first '='. */
  function Payload(text: string): (p: string)
    ensures p <= text && '=' !in p
    ensures p == text || (|p| < |text| && text[|p|] == '=')
  {
    if text == [] || text[0] == '=' then [] else
      var rest := Payload(text[1..]);
      assert text[..|rest| + 1] == [text[0]] + rest;
      [text[0]] + rest
  }

  /** Every character is a letter of the alphabet. */
  predicate Spelled(p: string) { forall i :: 0 <= i < |p| ==> Position(p[i]) >= 0 }

  function Values(p: string): (v: seq<nat>)
    requires Spelled(p)
    ensures |v| == |p|
  {
    seq(|p|, i requires 0 <= i < |p| => Position(p[i]) as nat)
  }

  /** The standard decoder as a function: complete bytes of the text before the first '='. */
  function DecodedStandard(text: string): DecodeResult {
    var p := Payload(text);
    PowersOfTwo();
    if Spelled(p) then Ok(Groups(Stream(Values(p), 6), 8)) else Err
  }

  method Base64DecodeStandard(data: string) returns (r: DecodeResult)
    ensures r == DecodedStandard(data)
  {
    var result: seq<byte> := [];
    var buffer: u32, bits := 0, 0;
    var i := 0;
    ghost var p := Payload(data);
    while i < |data| && data[i] != '='
      invariant i <= |p| && Spelled(p[..i])
      invariant bits < 8 && Stream(Values(p[..i]), 6) == Stream(result, 8) + Bits(buffer, bits)
    {
      var value := Position(data[i]);
      if value < 0 {
        return Err;
      }
      ValuesOfNext(p, i);
      result, buffer, bits := AcceptValue(result, buffer, bits, value, Values(p[..i]));
      i := i + 1;
    }
    assert p[..i] == p;
    BytesOfStream(Values(p), result, Bits(buffer, bits));
    r := Ok(result);
  }

  /** One turn of the decoding loop; `values` are the ones read before. */
  method AcceptValue(result: seq<byte>, buffer: u32, bits: nat, value: sextet, ghost values: seq<nat>)
    returns (result': seq<byte>, buffer': u32, bits': nat)
    requires bits < 8 && Stream(values, 6) == Stream(result, 8) + Bits(buffer, bits)
    ensures bits' < 8 && Stream(values + [value], 6) == Stream(result', 8) + Bits(buffer', bits')
  {
    StreamOfRead(values, result, buffer, bits, value);
    result', buffer', bits' := result, ShiftIn(buffer, value, 6), bits + 6;
    if bits' >= 8 {
      bits' := bits' - 8;
      StreamOfTake(values + [value], result', buffer', bits');
      result' := result' + [Shr(buffer', bits') % 256];
      buffer' := Mask(buffer', bits');
    }
  }

  lemma ValuesOfNext(p: string, i: nat)
    requires i < |p| && Spelled(p[..i]) && Position(p[i]) >= 0
    ensures Spelled(p[..i + 1]) && Values(p[..i + 1]) == Values(p[..i]) + [Position(p[i])]
  {
    assert p[..i + 1] == p[..i] + [p[i]];
  }

  /** Shifting a six-bit value into the buffer appends its bits to the pending ones. */
  lemma StreamOfRead(values: seq<nat>, result: seq<nat>, buffer: u32, bits: nat, v: sextet)
    requires bits < 8 && Stream(values, 6) == Stream(result, 8) + Bits(buffer, bits)
    ensures v < Pow2(6)
    ensures Stream(values + [v], 6) == Stream(result, 8) + Bits(ShiftIn(buffer, v, 6), bits + 6)
  {
    BitsOfNext(buffer, v, bits, 6);
    StreamOfAppend(values, v, 6);
    Associative(Stream(result, 8), Bits(buffer, bits), Bits(v, 6));
  }

  /** Moving the top eight of the pending bits to the result keeps the whole stream. */
  lemma StreamOfTake(values: seq<nat>, result: seq<byte>, buffer: u32, b: nat)
    requires Stream(values, 6) == Stream(result, 8) + Bits(buffer, b + 8)
    ensures Stream(values, 6) == Stream(result + [Shr(buffer, b) % 256], 8) + Bits(Mask(buffer, b), b)
  {
    var taken := Shr(buffer, b) % 256;
    PowersOfTwo();
    BitsSplit(buffer, 8, b);
    BitsOfLowPart(Shr(buffer, b), 8, 8);
    StreamOfAppend(result, taken, 8);
    Associative(Stream(result, 8), Bits(taken, 8), Bits(buffer, b));
  }

  lemma BytesOfStream(values: seq<nat>, result: seq<byte>, rest: seq<bool>)
    requires |rest| < 8 && Stream(values, 6) == Stream(result, 8) + rest
    ensures Groups(Stream(values, 6), 8) == result
  {
    PowersOfTwo();
    GroupsOfStream(result, rest, 8);
  }

  /** The URL-safe letters of section 5 of RFC 4648 mapped to those of section 4. */
  function Normalised(text: string): (r: string)
    ensures |r| == |text|
  {
    seq(|text|, i requires 0 <= i < |text| =>
      if text[i] == '-' then '+' else if text[i] == '_' then '/' else text[i])
  }

  /** The other way round: what a section 5 encoder would have written. */
  function UrlSafe(text: string): (r: string)
    ensures |r| == |text|
  {
    seq(|text|, i requires 0 <= i < |text| =>
      if text[i] == '+' then '-' else if text[i] == '/' then '_' else text[i])
  }

  function Decoded(text: string): DecodeResult {
    DecodedStandard(Normalised(text) + Pads((4 - |text| % 4) % 4))
  }

  method Base64Decode(data: string) returns (r: DecodeResult)
    ensures r == Decoded(data)
  {
    var padded := Normalised(data) + Pads((4 - |data| % 4) % 4);
    r := Base64DecodeStandard(padded);
  }

  // ---------------------------------------------------------------------------------------
  // What the codec promises
  // ---------------------------------------------------------------------------------------

  lemma {:induction false} PayloadOfPadded(text: string, n: nat)
    ensures Payload(text + Pads(n)) == Payload(text)
  {
    if text == [] {
      assert text + Pads(n) == Pads(n);
    } else {
      PayloadOfPadded(text[1..], n);
      assert (text + Pads(n))[1..] == text[1..] + Pads(n);
    }
  }

  /** The padding the decoder adds is inert: every text decodes as if it had none. */
  lemma PaddingIsInert(text: string)
    ensures Decoded(text) == DecodedStandard(Normalised(text))
  {
    PayloadOfPadded(Normalised(text), (4 - |text| % 4) % 4);
  }

  lemma {:induction false} PayloadOfLetters(vs: seq<nat>)
    requires Below(vs, 64)
    ensures Payload(Spell(vs)) == Spell(vs)
    ensures Spelled(Spell(vs)) && Values(Spell(vs)) == vs
  {
    var s := Spell(vs);
    forall i | 0 <= i < |s|
      ensures Position(s[i]) == vs[i] && s[i] != '='
    {
      PositionOfLetter(vs[i]);
    }
    assert Payload(s) == s;
  }

  /** The decoder inverts the encoder on every byte string, in either alphabet. */
  lemma RoundTrip(x: seq<byte>)
    ensures Decoded(Encoded(x)) == Ok(x)
    ensures Decoded(UrlSafe(Encoded(x))) == Ok(x)
  {
    var vs := Sextets(x);
    var n := if |x| % 3 == 0 then 0 else 2;
    PayloadOfLetters(vs);
    PaddingIsInert(Encoded(x));
    PaddingIsInert(UrlSafe(Encoded(x)));
    PayloadOfPadded(Spell(vs), n);
    NormalisedPads(vs, n);
    BytesOfSextets(x);
  }

  lemma NormalisedPads(vs: seq<nat>, n: nat)
    requires Below(vs, 64)
    ensures Normalised(Spell(vs) + Pads(n)) == Spell(vs) + Pads(n)
    ensures Normalised(UrlSafe(Spell(vs) + Pads(n))) == Spell(vs) + Pads(n)
  {
    PayloadOfLetters(vs);
    var s, t := Spell(vs), Spell(vs) + Pads(n);
    forall i | 0 <= i < |t|
      ensures Normalised(t)[i] == t[i] && Normalised(UrlSafe(t))[i] == t[i]
    {
      if i < |s| {
        PositionOfLetter(vs[i]);
      }
    }
  }

  lemma BytesOfSextets(x: seq<byte>)
    ensures Groups(Stream(Sextets(x), 6), 8) == x
  {
    StreamOfGroups(Stream(x, 8) + Zeros(Fill(|x|)));
    PowersOfTwo();
    GroupsOfStream(x, Zeros(Fill(|x|)), 8);
  }

  lemma {:induction false} StreamOfGroups(b: seq<bool>)
    requires |b| % 6 == 0
    ensures Stream(Groups(b, 6), 6) == b
    decreases |b|
  {
    if |b| >= 6 {
      BitsOfNumber(b[..6]);
      StreamOfGroups(b[6..]);
      assert b == b[..6] + b[6..];
    }
  }

  /** The encoder follows section 4 of RFC 4648 except for one '=' too many after a two-byte rest. */
  lemma AgreesWithRfc4648(x: seq<byte>)
    ensures Encoded(x) == Rfc4648(x) + (if |x| % 3 == 2 then "=" else "")
    ensures Encoded(x) == Rfc4648(x) <==> |x| % 3 != 2
    ensures |Rfc4648(x)| % 4 == 0
  {
    SextetCount(x);
    LengthOfRfc4648(|x|, |Sextets(x)|);
    assert Pads(2) == Pads(1) + "=" && Pads(0) == "" && Pads(1) == "=";
  }

  /** Two zero bytes are written with two padding signs, where the standard has one. */
  lemma TwoBytesOverpadded()
    ensures Encoded([0, 0]) == Rfc4648([0, 0]) + "=" && Encoded([0, 0]) != Rfc4648([0, 0])
  {
    AgreesWithRfc4648([0, 0]);
  }

  lemma SextetCount(x: seq<byte>)
    ensures 6 * |Sextets(x)| == 8 * |x| + Fill(|x|)
  {
    StreamOfGroups(Stream(x, 8) + Zeros(Fill(|x|)));
  }

  lemma LengthOfRfc4648(n: nat, m: nat)
    requires 6 * m == 8 * n + Fill(n)
    ensures (m + (3 - n % 3) % 3) % 4 == 0
  {
    var q := n / 3;
    assert m == 4 * q + if n % 3 == 0 then 0 else n % 3 + 1;
  }

  // ---------------------------------------------------------------------------------------
  // Which texts decode
  // ---------------------------------------------------------------------------------------

  /** The letters of section 4 of RFC 4648. */
  predicate Legal(c: char) { 'A' <= c <= 'Z' || 'a' <= c <= 'z' || '0' <= c <= '9' || c == '+' || c == '/' }

  lemma LetterIsLegal(v: sextet)
    ensures Legal(Letter(v))
  {
  }

  /** The search finds exactly the legal letters. */
  lemma PositionMeaning(c: char)
    ensures Position(c) >= 0 <==> Legal(c)
  {
    if Position(c) >= 0 {
      LetterIsLegal(Position(c));
    }
    if Legal(c) {
      var v: sextet :=
        if 'A' <= c <= 'Z' then c as int - 65
        else if 'a' <= c <= 'z' then c as int - 71
        else if '0' <= c <= '9' then c as int + 4
        else if c == '+' then 62 else 63;
      assert Letter(v) == c;
      PositionOfLetter(v);
    }
  }

  /** The payload is the one prefix without a padding sign that ends at one or at the end. */
  lemma PayloadIs(text: string, p: string)
    requires p <= text && '=' !in p && (p == text || text[|p|] == '=')
    ensures Payload(text) == p
  {
    var q := Payload(text);
    assert forall i :: 0 <= i < |p| ==> p[i] == text[i] && p[i] != '=';
    assert forall i :: 0 <= i < |q| ==> q[i] == text[i] && q[i] != '=';
    assert |p| == |q|;
  }

  lemma PayloadOfNormalised(text: string)
    ensures Payload(Normalised(text)) == Normalised(Payload(text))
  {
    var p := Payload(text);
    assert forall i :: 0 <= i < |p| ==> p[i] == text[i];
    PayloadIs(Normalised(text), Normalised(p));
  }

  /** A character that neither alphabet has. */
  predicate Foreign(c: char) { !Legal(c) && c != '-' && c != '_' }

  /** Decoding fails exactly when a character before the first padding sign belongs to neither alphabet. */
  lemma FailsOnForeign(text: string)
    ensures Decoded(text) == Err <==> exists i :: 0 <= i < |Payload(text)| && Foreign(text[i])
  {
    var p := Payload(text);
    var q := Normalised(p);
    PaddingIsInert(text);
    PayloadOfNormalised(text);
    forall i | 0 <= i < |p|
      ensures Position(q[i]) < 0 <==> Foreign(text[i])
    {
      assert p[i] == text[i];
      PositionMeaning(q[i]);
    }
    assert Decoded(text) == Err <==> !Spelled(q);
    if !Spelled(q) {
      var i :| 0 <= i < |q| && Position(q[i]) < 0;
      assert Foreign(text[i]);
    }
  }

  /** Every eight bits of the letters before the padding make a byte; fewer are dropped. */
  lemma DecodedLength(text: string)
    requires Decoded(text).Ok?
    ensures 0 <= 6 * |Payload(text)| - 8 * |Decoded(text).bytes| < 8
  {
    PaddingIsInert(text);
    PayloadOfNormalised(text);
    PowersOfTwo();
    var values := Values(Payload(Normalised(text)));
    var rest := GroupsSplit(Stream(values, 6), 8);
    assert Decoded(text).bytes == Groups(Stream(values, 6), 8);
  }

  // ---------------------------------------------------------------------------------------
  // Which texts the encoder could have written
  // ---------------------------------------------------------------------------------------

  /** What the unused low bits of the last of `n` letters count up to. */
  function UnusedUnit(n: nat): nat { if n % 4 == 2 then 16 else if n % 4 == 3 then 4 else 1 }

  function Unused(n: nat): nat { if n % 4 == 2 then 4 else if n % 4 == 3 then 2 else 0 }

  lemma UnusedUnits(n: nat)
    ensures Pow2(Unused(n)) == UnusedUnit(n)
  {
  }

  /**
   Letters of section 4 in a number that is no remainder of 1, with zeros in the unused bits of the
   last one, then two padding signs after an incomplete group and none otherwise.
   */
  predicate CanonicalText(text: string) {
    var p := Payload(text);
    && Spelled(p) && |p| % 4 != 1
    && (p != [] ==> Position(p[|p| - 1]) % UnusedUnit(|p|) == 0)
    && text == p + Pads(if |p| % 4 == 0 then 0 else 2)
  }

  /** The complete groups of a bit string and what is left of it. */
  lemma {:induction false} GroupsSplit(b: seq<bool>, w: nat) returns (rest: seq<bool>)
    requires w > 0
    ensures |rest| < w && Stream(Groups(b, w), w) + rest == b
    decreases |b|
  {
    if |b| < w {
      rest := b;
      assert [] + b == b;
    } else {
      rest := GroupsSplit(b[w..], w);
      BitsOfNumber(b[..w]);
      Associative(b[..w], Stream(Groups(b[w..], w), w), rest);
      assert b == b[..w] + b[w..];
      assert ([Number(b[..w])] + Groups(b[w..], w))[1..] == Groups(b[w..], w);
    }
  }

  lemma BitsOfZero(k: nat)
    ensures Bits(0, k) == Zeros(k)
  {
    if k > 0 {
      BitsOfZero(k - 1);
      assert Zeros(k) == Zeros(k - 1) + [false];
    }
  }

  lemma LowBitsZeroIff(v: nat, k: nat)
    ensures Bits(v, k) == Zeros(k) <==> v % Pow2(k) == 0
  {
    if Bits(v, k) == Zeros(k) {
      LowBitsZero(v, k);
    }
    BitsOfLowPart(v, k, k);
    BitsOfZero(k);
  }

  lemma SplitLast(front: seq<nat>, last: nat, k: nat) returns (head: seq<bool>)
    requires k <= 6
    ensures Stream(front + [last], 6) == head + Bits(last, k)
  {
    StreamOfAppend(front, last, 6);
    BitsSplit(last, 6 - k, k);
    Associative(Stream(front, 6), Bits(Shr(last, k), 6 - k), Bits(last, k));
    head := Stream(front, 6) + Bits(Shr(last, k), 6 - k);
  }

  /** The last bits of a stream of six-bit values are the low bits of the last value. */
  lemma TailOfStream(front: seq<nat>, last: nat, head: seq<bool>, rest: seq<bool>)
    requires |rest| <= 6 && Stream(front + [last], 6) == head + rest
    ensures rest == Bits(last, |rest|)
  {
    var other := SplitLast(front, last, |rest|);
    SameTail(head, rest, other, Bits(last, |rest|));
  }

  lemma EndsIn(vs: seq<nat>) returns (front: seq<nat>, last: nat)
    requires vs != []
    ensures vs == front + [last] && last == vs[|vs| - 1]
  {
    front, last := vs[..|vs| - 1], vs[|vs| - 1];
  }

  lemma LastBits(vs: seq<nat>, head: seq<bool>, rest: seq<bool>)
    requires vs != [] && |rest| <= 6 && Stream(vs, 6) == head + rest
    ensures rest == Bits(vs[|vs| - 1], |rest|)
  {
    var front, last := EndsIn(vs);
    TailOfStream(front, last, head, rest);
  }

  lemma SameTail(a: seq<bool>, b: seq<bool>, c: seq<bool>, d: seq<bool>)
    requires a + b == c + d && |b| == |d|
    ensures b == d
  {
    assert b == (a + b)[|a|..] && d == (c + d)[|c|..];
  }

  lemma SpellOfValues(p: string)
    requires Spelled(p)
    ensures Below(Values(p), 64) && Spell(Values(p)) == p
  {
  }

  /** The bits after the last byte of `n` sextets, and after `m` bytes that fill them. */
  lemma LeftoverCount(n: nat, m: nat, rest: nat)
    requires 6 * n == 8 * m + rest && rest < 8
    ensures n % 4 != 1 ==> rest == Unused(n) && (m % 3 == 0 <==> n % 4 == 0)
    ensures rest < 6 ==> n % 4 != 1
  {
    var q, r := n / 4, n % 4;
    assert n == 4 * q + r;
    assert m == 3 * q + (if r == 0 then 0 else r - 1);
  }

  lemma CanonicalReturns(text: string)
    requires CanonicalText(text)
    ensures Decoded(text).Ok? && Encoded(Decoded(text).bytes) == text
  {
    var p := Payload(text);
    var vs := Values(p);
    SpellOfValues(p);
    NormalisedIsSame(text);
    PaddingIsInert(text);
    PowersOfTwo();
    var x: seq<byte> := Groups(Stream(vs, 6), 8);
    var rest := GroupsSplit(Stream(vs, 6), 8);
    LeftoverCount(|p|, |x|, |rest|);
    if vs != [] {
      LastBits(vs, Stream(x, 8), rest);
      LowBitsZeroIff(vs[|vs| - 1], |rest|);
      UnusedUnits(|p|);
    } else {
      assert rest == Zeros(0);
    }
    SextetsUnique(x, vs, |rest|);
  }

  lemma NormalisedIsSame(text: string)
    requires CanonicalText(text)
    ensures Normalised(text) == text
  {
    var p := Payload(text);
    forall i | 0 <= i < |text|
      ensures text[i] != '-' && text[i] != '_'
    {
      if i < |p| {
        PositionOfLetter(Position(p[i]));
      }
    }
  }

  lemma EncodedIsCanonical(x: seq<byte>)
    ensures CanonicalText(Encoded(x))
  {
    var vs, n := Sextets(x), if |x| % 3 == 0 then 0 else 2;
    PayloadOfLetters(vs);
    PayloadOfPadded(Spell(vs), n);
    SextetCount(x);
    LeftoverCount(|vs|, |x|, Fill(|x|));
    if vs != [] {
      StreamOfGroups(Stream(x, 8) + Zeros(Fill(|x|)));
      LastBits(vs, Stream(x, 8), Zeros(Fill(|x|)));
      LowBitsZeroIff(vs[|vs| - 1], Fill(|x|));
      UnusedUnits(|vs|);
      PositionOfLetter(vs[|vs| - 1]);
    }
  }

  /** Re-encoding what a text decodes to gives the text back exactly when it is canonical. */
  lemma ReencodingReturns(text: string)
    ensures (Decoded(text).Ok? && Encoded(Decoded(text).bytes) == text) <==> CanonicalText(text)
  {
    if CanonicalText(text) {
      CanonicalReturns(text);
    }
    if Decoded(text).Ok? && Encoded(Decoded(text).bytes) == text {
      EncodedIsCanonical(Decoded(text).bytes);
    }
  }
}
