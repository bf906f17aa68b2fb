/** The primitive layer of the wire codec: base-128 varints (the same
    scheme as Protocol Buffers) and varint-length-prefixed byte runs,
    read and written at a cursor into a frame (eew.js `_readVarint`,
    `_writeVarint`, `_writeBytes`, `_getBytes`). */
module Varints {
  import opened Support

  const Two31: nat := 0x8000_0000
  const Two32: nat := 0x1_0000_0000

  /** The weight 2^(7k) of the k-th seven-bit group. */
  function Weight(k: nat): (w: nat)
    ensures w >= 1
  {
    if k == 0 then 1 else 128 * Weight(k - 1)
  }

  /** The bytes `_writeVarint` emits for `v`: the low seven bits with the
      continuation bit 0x80 while the value exceeds 127, then the rest.
      After the first group the source shifts with `>>> 7`, which first
      truncates the value to 32 bits. */
  function Varint(v: nat): seq<byte>
    decreases v
  {
    if v <= 127 then [v as byte]
    else [Continued(v)] + Varint(Shifted(v))
  }

  /** `(value & 0x7f) | 0x80`: the low seven bits with the continuation bit. */
  function Continued(v: nat): (b: byte)
    ensures b >= 128 && b as nat % 128 == v % 128
  {
    (v % 128 + 128) as byte
  }

  /** `value >>> 7`: the value truncated to 32 bits, shifted right by seven. */
  function Shifted(v: nat): (w: nat)
    ensures v > 127 ==> w < v
    ensures v < Two32 ==> w == v / 128 && v == v % 128 + 128 * w
  {
    (v % Two32) / 128
  }

  /** `binary[i]` as the varint reader sees it: an index past the end
      yields `undefined`, which `& 0x7f` and `& 0x80` turn into 0. */
  function ByteAt(buf: seq<byte>, i: nat): nat
  {
    if i < |buf| then buf[i] as nat else 0
  }

  /** The varint that starts at cursor `i` when `k` groups have been read
      already: its value and the cursor after its last group, or
      MalformedVarint when it would need a sixth group. */
  function Groups(buf: seq<byte>, i: nat, k: nat): (r: Result<(nat, nat)>)
    requires k <= 5
    decreases 5 - k
    ensures r.Ok? ==> i < r.value.1 <= i + (5 - k)
  {
    if k == 5 then Err(MalformedVarint)
    else
      var current := ByteAt(buf, i);
      if current < 128 then Ok((current, i + 1))
      else
        match Groups(buf, i + 1, k + 1)
        case Ok((rest, next)) => Ok((current % 128 + 128 * rest, next))
        case Err(e) => Err(e)
  }

  /** `(0x7f & b) << 7k`: the low seven bits of `b` placed as group `k`. */
  function Group(b: nat, k: nat): nat
  {
    b % 128 * Weight(k)
  }

  /** The JavaScript reading of a 32-bit pattern as a signed integer
      (what `|=` and `<<` leave in `result`). */
  function ToInt32(u: nat): (r: int)
    requires u < Two32
    ensures -(Two31 as int) <= r < Two31
    ensures r == u || r == u - Two32
    ensures u < Two31 ==> r == u
  {
    if u < Two31 then u else u - Two32
  }

  /** `_readVarint` at cursor `i`: the integer read and the new cursor.
      The groups are OR-ed into a 32-bit `result`, so the value is the
      sum of the groups truncated to 32 bits, read as signed. */
  function ParseVarint(buf: seq<byte>, i: nat): (r: Result<(int, nat)>)
  {
    match Groups(buf, i, 0)
    case Ok((sum, next)) => Ok((ToInt32(sum % Two32), next))
    case Err(e) => Err(e)
  }

  /** `Uint8Array.slice(from, to)` for a non-negative start: both bounds
      are clamped to the buffer, a negative end counts back from the end
      of the buffer, and an empty run results when the end is not past
      the start. */
  function Slice(buf: seq<byte>, from: nat, to: int): (r: seq<byte>)
    ensures |r| <= |buf|
  {
    var lo := if from < |buf| then from else |buf|;
    var hi := SliceEnd(|buf|, to);
    if lo <= hi then buf[lo..hi] else []
  }

  /** The end bound of `slice` on a buffer of length `n`. */
  function SliceEnd(n: nat, to: int): (hi: nat)
    ensures hi <= n
    ensures 0 <= to <= n ==> hi == to
  {
    if to < 0 then (if n + to < 0 then 0 else n + to) else if to < n then to else n
  }

  /** `_getBytes` at cursor `i`: a varint length, then that many bytes.
      The source moves the cursor by the signed length; a negative length
      moves it backwards, so the decoder here rejects one (see Findings). */
  function ParseBytes(buf: seq<byte>, i: nat): (r: Result<(seq<byte>, nat)>)
    ensures r.Ok? ==> i < r.value.1
  {
    match ParseVarint(buf, i)
    case Err(e) => Err(e)
    case Ok((len, j)) =>
      if len < 0 then Err(NegativeLength)
      else Ok((Slice(buf, j, j + len), j + len))
  }

  /** `run` lies in `buf` at `i`. */
  ghost predicate At(buf: seq<byte>, i: nat, run: seq<byte>)
  {
    i + |run| <= |buf| && buf[i..i + |run|] == run
  }

  lemma AtSplit(buf: seq<byte>, i: nat, a: seq<byte>, b: seq<byte>)
    requires At(buf, i, a + b)
    ensures At(buf, i, a) && At(buf, i + |a|, b)
  {
    assert buf[i..i + |a|] == (a + b)[..|a|];
    assert buf[i + |a|..i + |a| + |b|] == (a + b)[|a|..];
  }

  /** The bytes after a prefix lie there. */
  lemma AtEnd(prefix: seq<byte>, run: seq<byte>)
    ensures At(prefix + run, |prefix|, run)
  {
    assert (prefix + run)[|prefix|..|prefix| + |run|] == run;
  }

  // ---------------------------------------------------------------------
  // Properties of the varint scheme

  /** The shape of every varint: one to five bytes, every byte but the
      last carrying the continuation bit, the last one at most 127. */
  lemma {:induction false} VarintShape(v: nat)
    ensures 1 <= |Varint(v)| <= 5
    ensures Varint(v)[|Varint(v)| - 1] <= 127
    ensures forall j :: 0 <= j < |Varint(v)| - 1 ==> Varint(v)[j] >= 128
  {
    ContinuationBits(v);
    if v < Two32 {
      WeightFive();
      VarintFits(v, 5);
    } else {
      var w := Shifted(v);
      assert w < 0x200_0000;
      WeightFour();
      VarintFits(w, 4);
    }
  }

  lemma {:induction false} ContinuationBits(v: nat)
    ensures |Varint(v)| >= 1
    ensures Varint(v)[|Varint(v)| - 1] <= 127
    ensures forall j :: 0 <= j < |Varint(v)| - 1 ==> Varint(v)[j] >= 128
    decreases v
  {
    if v > 127 {
      var w := Shifted(v);
      ContinuationBits(w);
      assert Varint(v) == [Continued(v)] + Varint(w);
    }
  }

  lemma WeightFour()
    ensures Weight(4) == 0x1000_0000
  {
    assert Weight(1) == 128;
    assert Weight(2) == 0x4000;
    assert Weight(3) == 0x20_0000;
  }

  lemma WeightFive()
    ensures Weight(5) == 0x8_0000_0000
  {
    WeightFour();
  }

  /** A value below 2^(7n) (and below 2^32) needs at most n groups. */
  lemma {:induction false} VarintFits(v: nat, n: nat)
    requires 1 <= n && v < Weight(n) && v < Two32
    ensures |Varint(v)| <= n
    decreases n
  {
    if v > 127 {
      assert Weight(1) == 128;
      assert n != 1;
      assert v / 128 < Weight(n - 1);
      VarintFits(v / 128, n - 1);
    }
  }

  /** The groups of `Varint(v)` read back as `v`. */
  lemma {:induction false} GroupsOfVarint(buf: seq<byte>, i: nat, k: nat, v: nat)
    requires k < 5 && v < Weight(5 - k) && v < Two32
    requires At(buf, i, Varint(v))
    ensures Groups(buf, i, k) == Ok((v, i + |Varint(v)|))
    decreases v
  {
    if v <= 127 {
      assert buf[i] == Varint(v)[0];
    } else {
      var w := Shifted(v);
      assert ByteAt(buf, i) == Continued(v) as nat && At(buf, i + 1, Varint(w)) by {
        assert Varint(v) == [Continued(v)] + Varint(w);
        AtSplit(buf, i, [Continued(v)], Varint(w));
      }
      ShiftedFits(v, k);
      GroupsOfVarint(buf, i + 1, k + 1, w);
      assert |Varint(v)| == 1 + |Varint(w)|;
    }
  }

  lemma ShiftedFits(v: nat, k: nat)
    requires k < 5 && 127 < v < Weight(5 - k) && v < Two32
    ensures k < 4 && Shifted(v) < Weight(5 - (k + 1))
  {
    assert Weight(5 - k) == 128 * Weight(4 - k);
    assert Shifted(v) == v / 128;
    assert 1 <= v / 128 < Weight(4 - k);
  }

  /** `_readVarint` of `_writeVarint(v)` returns `v` for 0 <= v < 2^31
      and consumes exactly the bytes written. */
  lemma VarintRoundTrip(buf: seq<byte>, i: nat, v: nat, end: nat)
    requires v < Two31 && At(buf, i, Varint(v)) && end == i + |Varint(v)|
    ensures ParseVarint(buf, i) == Ok((v as int, end))
  {
    WeightFive();
    GroupsOfVarint(buf, i, 0, v);
    assert v % Two32 == v;
    assert ToInt32(v) == v;
  }

  /** At most five bytes are consumed, and the value read is a signed
      32-bit integer. */
  lemma ParseVarintBounds(buf: seq<byte>, i: nat)
    ensures ParseVarint(buf, i).Ok? ==>
      var (v, j) := ParseVarint(buf, i).value;
      i < j <= i + 5 && -(Two31 as int) <= v < Two31
  {
  }

  /** Five bytes that all carry the continuation bit make the reader
      throw instead of reading a sixth group. */
  lemma SixthGroupRejected(buf: seq<byte>, i: nat)
    requires i + 5 <= |buf|
    requires forall j :: i <= j < i + 5 ==> buf[j] >= 128
    ensures ParseVarint(buf, i) == Err(MalformedVarint)
  {
    AllContinue(buf, i, 0);
  }

  lemma {:induction false} AllContinue(buf: seq<byte>, i: nat, k: nat)
    requires k <= 5 && i + (5 - k) <= |buf|
    requires forall j :: i <= j < i + (5 - k) ==> buf[j] >= 128
    ensures Groups(buf, i, k) == Err(MalformedVarint)
    decreases 5 - k
  {
    if k < 5 {
      AllContinue(buf, i + 1, k + 1);
    }
  }

  /** A varint the reader accepts never throws later: when it stops it
      stopped at a byte without the continuation bit, within five bytes. */
  lemma {:induction false} StopsAtTerminator(buf: seq<byte>, i: nat, k: nat)
    requires k <= 5
    requires Groups(buf, i, k).Ok?
    ensures ByteAt(buf, Groups(buf, i, k).value.1 - 1) <= 127
    decreases 5 - k
  {
    if ByteAt(buf, i) >= 128 {
      StopsAtTerminator(buf, i + 1, k + 1);
    }
  }

  /** The source's reader is 32-bit: the five-byte encoding of 2^32 - 1
      reads back as -1, not as 2^32 - 1. */
  lemma ReadBackIsSigned()
    ensures ParseVarint(Varint(Two32 - 1), 0) == Ok((-1, 5))
  {
    assert Varint(15) == [15];
    assert Varint(2047) == [255] + Varint(15);
    assert Varint(262143) == [255] + Varint(2047);
    assert Varint(33554431) == [255] + Varint(262143);
    assert Varint(Two32 - 1) == [255] + Varint(33554431);
  }

  /** A byte run written as varint(length) followed by its bytes is read
      back exactly, the cursor moving past the prefix and the bytes. */
  lemma BytesRoundTrip(buf: seq<byte>, i: nat, run: seq<byte>, end: nat)
    requires |run| < Two31 && At(buf, i, Varint(|run|) + run)
    requires end == i + |Varint(|run|)| + |run|
    ensures ParseBytes(buf, i) == Ok((run, end))
  {
    var j := i + |Varint(|run|)|;
    AtSplit(buf, i, Varint(|run|), run);
    VarintRoundTrip(buf, i, |run|, j);
  }

  // ---------------------------------------------------------------------
  // The imperative reader and writer, each proved against its function

  /** `_writeVarint` appending to the frame built so far. */
  method WriteVarint(out: seq<byte>, value: nat) returns (written: seq<byte>)
    ensures written == out + Varint(value)
  {
    written := out;
    var v: nat := value;
    while v > 127
      invariant written + Varint(v) == out + Varint(value)
      decreases v
    {
      assert Varint(v) == [Continued(v)] + Varint(Shifted(v));
      written := written + [Continued(v)];
      v := Shifted(v);
    }
    written := written + [v as byte];
  }

  /** `_writeBytes`: the bytes appended one by one, with no prefix. */
  method WriteBytes(out: seq<byte>, bytes: seq<byte>) returns (written: seq<byte>)
    ensures written == out + bytes
  {
    written := out;
    for k := 0 to |bytes|
      invariant written == out + bytes[..k]
    {
      written := written + [bytes[k]];
      assert bytes[..k + 1] == bytes[..k] + [bytes[k]];
    }
    assert bytes[..|bytes|] == bytes;
  }

  /** `_readVarint` with its `do … while` loop and the guard on a sixth
      group; `result` accumulates each group at its weight. */
  method ReadVarint(buf: seq<byte>, i: nat) returns (r: Result<(int, nat)>)
    ensures r == ParseVarint(buf, i)
  {
    var result: nat := 0;
    var groups: nat := 0;
    var cursor := i;
    while true
      invariant groups <= 5
      invariant Groups(buf, i, 0) == Scaled(result, Weight(groups), Groups(buf, cursor, groups))
      decreases 5 - groups
    {
      if groups == 5 {
        return Err(MalformedVarint);
      }
      var current := ByteAt(buf, cursor);
      GroupsStep(buf, cursor, groups);
      if current >= 128 {
        ScaledStep(result, current, groups, Groups(buf, cursor + 1, groups + 1));
      } else {
        ScaledLast(result, current, groups, cursor + 1);
      }
      cursor := cursor + 1;
      result := result + Group(current, groups);
      groups := groups + 1;
      if current < 128 {
        return Ok((ToInt32(result % Two32), cursor));
      }
    }
  }

  /** A varint's value read so far (`acc`) plus the rest of it at weight `w`. */
  function Scaled(acc: nat, w: nat, rest: Result<(nat, nat)>): Result<(nat, nat)>
  {
    match rest
    case Ok((v, next)) => Ok((acc + w * v, next))
    case Err(e) => Err(e)
  }

  lemma GroupsStep(buf: seq<byte>, i: nat, k: nat)
    requires k < 5
    ensures Groups(buf, i, k) == if ByteAt(buf, i) < 128 then Ok((ByteAt(buf, i), i + 1))
                                 else Scaled(ByteAt(buf, i) % 128, 128, Groups(buf, i + 1, k + 1))
  {
  }

  lemma ScaledLast(acc: nat, current: nat, k: nat, next: nat)
    requires current < 128
    ensures Scaled(acc, Weight(k), Ok((current, next))) == Ok((acc + Group(current, k), next))
  {
    assert Group(current, k) == Weight(k) * current;
  }

  lemma ScaledStep(acc: nat, current: nat, k: nat, rest: Result<(nat, nat)>)
    ensures Scaled(acc, Weight(k), Scaled(current % 128, 128, rest))
         == Scaled(acc + Group(current, k), Weight(k + 1), rest)
  {
    if rest.Ok? {
      var v := rest.value.0;
      calc {
        Weight(k) * (current % 128 + 128 * v);
        Weight(k) * (current % 128) + Weight(k) * (128 * v);
        { assert Weight(k) * (128 * v) == (128 * Weight(k)) * v; }
        Group(current, k) + Weight(k + 1) * v;
      }
    }
  }

  /** `_getBytes`: the length prefix, then the run it announces. */
  method GetBytes(buf: seq<byte>, i: nat) returns (r: Result<(seq<byte>, nat)>)
    ensures r == ParseBytes(buf, i)
  {
    var len := ReadVarint(buf, i);
    match len
    case Err(e) =>
      return Err(e);
    case Ok((length, j)) =>
      if length < 0 {
        return Err(NegativeLength);
      }
      return Ok((Slice(buf, j, j + length), j + length));
  }
}
