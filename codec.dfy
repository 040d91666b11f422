/** The little-endian binary32 codec behind `vectorToBuffer`, `bufferToVector`,
    `to_buf` and `from_buf`: each number is stored as the four bytes of its
    IEEE 754-2008 binary32 interchange encoding (clause 3.4), least significant
    byte first. The rounding of a JavaScript number to binary32 and the reading
    of a binary32 word back are left abstract. */
module Codec {
  import opened Wrappers
  import Js

  newtype Byte = b: int | 0 <= b < 0x100

  /** A 32-bit word, read as an unsigned number. */
  newtype Word = w: int | 0 <= w < 0x1_0000_0000

  type Bytes = seq<Byte>

  /** `encode` rounds a number to binary32 and gives its bit pattern; `decode`
      reads a bit pattern back as a number. */
  datatype Binary32 = Binary32(encode: real -> Word, decode: Word -> real)

  /** Reading back the word of an encoded number gives that word again: every
      word the encoder produces is the canonical encoding of its own value. */
  ghost predicate ValidBinary32(f: Binary32)
  {
    forall x :: f.encode(f.decode(f.encode(x))) == f.encode(x)
  }

  /** A number as it comes back from a binary32 slot. */
  function Round(f: Binary32, x: real): real
  {
    f.decode(f.encode(x))
  }

  /** Rounding an already rounded number changes nothing. */
  lemma RoundIdempotent(f: Binary32, x: real)
    requires ValidBinary32(f)
    ensures Round(f, Round(f, x)) == Round(f, x)
  {
  }

  function RoundAll(f: Binary32, v: seq<real>): (r: seq<real>)
    ensures |r| == |v| && forall i :: 0 <= i < |v| ==> r[i] == Round(f, v[i])
  {
    seq(|v|, i requires 0 <= i < |v| => Round(f, v[i]))
  }

  /** The four bytes of a word, least significant first (`writeFloatLE`). */
  function WordBytes(w: Word): (r: Bytes)
    ensures |r| == 4
  {
    [(w % 0x100) as Byte, (w / 0x100 % 0x100) as Byte, (w / 0x1_0000 % 0x100) as Byte, (w / 0x100_0000) as Byte]
  }

  /** The word stored in four bytes, least significant first (`readFloatLE`). */
  function BytesWord(b: Bytes): Word
    requires |b| == 4
  {
    (b[0] as int + 0x100 * b[1] as int + 0x1_0000 * b[2] as int + 0x100_0000 * b[3] as int) as Word
  }

  lemma WordRoundTrip(w: Word)
    ensures BytesWord(WordBytes(w)) == w
  {
    var n := w as int;
    var q1 := n / 0x100;
    var q2 := q1 / 0x100;
    assert n == n % 0x100 + 0x100 * q1;
    assert q1 == q1 % 0x100 + 0x100 * q2;
    assert q2 == q2 % 0x100 + 0x100 * (q2 / 0x100);
    assert n / 0x1_0000 == q2;
    assert n / 0x100_0000 == q2 / 0x100;
    assert n == n % 0x100 + 0x100 * (q1 % 0x100) + 0x1_0000 * (q2 % 0x100) + 0x100_0000 * (q2 / 0x100);
  }

  lemma BytesRoundTrip(b: Bytes)
    requires |b| == 4
    ensures WordBytes(BytesWord(b)) == b
  {
    var q2 := b[2] as int + 0x100 * b[3] as int;
    var q1 := b[1] as int + 0x100 * q2;
    var n := b[0] as int + 0x100 * q1;
    assert BytesWord(b) as int == n;
    DivMod256(q1, b[0] as int);
    DivMod256(q2, b[1] as int);
    DivMod256(b[3] as int, b[2] as int);
    assert n / 0x1_0000 == (n / 0x100) / 0x100;
    assert n / 0x100_0000 == ((n / 0x100) / 0x100) / 0x100;
  }

  lemma DivMod256(q: int, r: int)
    requires 0 <= r < 0x100
    ensures (0x100 * q + r) / 0x100 == q && (0x100 * q + r) % 0x100 == r
  {
  }

  /** `vectorToBuffer(v)` and `to_buf(v)`: four bytes per element. */
  function Encode(f: Binary32, v: seq<real>): (r: Bytes)
    ensures |r| == 4 * |v|
  {
    if v == [] then [] else Encode(f, v[..|v| - 1]) + WordBytes(f.encode(v[|v| - 1]))
  }

  /** The numbers held by a buffer whose length is a multiple of four. */
  function Words(f: Binary32, b: Bytes): (r: seq<real>)
    requires |b| % 4 == 0
    ensures |r| == |b| / 4
  {
    if b == [] then [] else Words(f, b[..|b| - 4]) + [f.decode(BytesWord(b[|b| - 4..]))]
  }

  /** `bufferToVector(b)`: the read at the last offset runs past the end of the
      buffer when its length is not a multiple of four, and throws. */
  function Decode(f: Binary32, b: Bytes): (r: Result<seq<real>>)
    ensures r.Err? <==> |b| % 4 != 0
    ensures r.Err? ==> r.msg == OffsetError(|b|)
    ensures r.Ok? ==> |r.value| == |b| / 4
  {
    if |b| % 4 != 0 then Err(OffsetError(|b|))
    else Ok(Words(f, b))
  }

  /** Node's error for `readFloatLE` at the first offset whose four bytes run
      past the end of a buffer of `len` bytes (the last multiple of four): a
      buffer shorter than four bytes has no valid offset at all, otherwise the
      offset must lie in `[0, len - 4]`. */
  function OffsetError(len: nat): string
  {
    if len < 4 then "Attempt to access memory outside buffer bounds"
    else OutOfRange(len - 4, len - len % 4)
  }

  /** `ERR_OUT_OF_RANGE` for the argument `offset`. */
  function OutOfRange(max: nat, received: nat): string
  {
    "The value of \"offset\" is out of range. It must be >= 0 and <= "
      + Js.NatToString(max) + ". Received " + Js.NatToString(received)
  }

  /** `from_buf(b)`: a binary32 view of the buffer, `byteLength / 4` elements long,
      the fraction dropped. */
  function View(f: Binary32, b: Bytes): (r: seq<real>)
    ensures |r| == |b| / 4
  {
    Words(f, b[..|b| - |b| % 4])
  }

  /** Decoding an encoded vector gives back every element rounded to binary32. */
  lemma {:induction false} DecodeEncode(f: Binary32, v: seq<real>)
    ensures Decode(f, Encode(f, v)) == Ok(RoundAll(f, v))
    ensures View(f, Encode(f, v)) == RoundAll(f, v)
  {
    WordsEncode(f, v);
    var b := Encode(f, v);
    assert b[..|b| - |b| % 4] == b;
  }

  lemma {:induction false} WordsEncode(f: Binary32, v: seq<real>)
    ensures Words(f, Encode(f, v)) == RoundAll(f, v)
  {
    if v != [] {
      var b := Encode(f, v);
      var init := v[..|v| - 1];
      var w := f.encode(v[|v| - 1]);
      WordsEncode(f, init);
      assert b[..|b| - 4] == Encode(f, init);
      WordRoundTrip(w);
      assert b[|b| - 4..] == WordBytes(w);
      assert Words(f, b) == RoundAll(f, init) + [Round(f, v[|v| - 1])];
      RoundAllSnoc(f, v);
    }
  }

  /** Rounding a sequence rounds its prefix and then its last element. */
  lemma RoundAllSnoc(f: Binary32, v: seq<real>)
    requires v != []
    ensures RoundAll(f, v) == RoundAll(f, v[..|v| - 1]) + [Round(f, v[|v| - 1])]
  {
  }

  /** Every four-byte group of the buffer holds the canonical encoding of its value. */
  ghost predicate Canonical(f: Binary32, b: Bytes)
  {
    forall k :: 0 <= k < |b| / 4 && 4 * k + 4 <= |b| ==>
      f.encode(f.decode(BytesWord(b[4 * k..4 * k + 4]))) == BytesWord(b[4 * k..4 * k + 4])
  }

  /** Encoding the numbers a canonical buffer holds gives back the buffer. */
  lemma {:induction false} EncodeDecode(f: Binary32, b: Bytes)
    requires |b| % 4 == 0 && Canonical(f, b)
    ensures Encode(f, Words(f, b)) == b
  {
    if b != [] {
      var init, last := b[..|b| - 4], b[|b| - 4..];
      CanonicalSplit(f, b);
      EncodeDecode(f, init);
      var x := f.decode(BytesWord(last));
      var w := Words(f, b);
      assert w[..|w| - 1] == Words(f, init) && w[|w| - 1] == x;
      BytesRoundTrip(last);
      assert b == init + last;
    }
  }

  /** Both the buffer without its last word and that last word are canonical. */
  lemma CanonicalSplit(f: Binary32, b: Bytes)
    requires |b| % 4 == 0 && |b| >= 4 && Canonical(f, b)
    ensures Canonical(f, b[..|b| - 4])
    ensures f.encode(f.decode(BytesWord(b[|b| - 4..]))) == BytesWord(b[|b| - 4..])
  {
    var init := b[..|b| - 4];
    forall j | 0 <= j < |init| / 4 && 4 * j + 4 <= |init|
      ensures f.encode(f.decode(BytesWord(init[4 * j..4 * j + 4]))) == BytesWord(init[4 * j..4 * j + 4])
    {
      assert init[4 * j..4 * j + 4] == b[4 * j..4 * j + 4];
    }
    var k := |b| / 4 - 1;
    assert b[4 * k..4 * k + 4] == b[|b| - 4..];
  }
}
