/** The canonical bytes an ACL entry's signature covers, and exactly when two entries share them. */
module EntryPayload {
  import opened Common

  /** Everything the signature covers. */
  datatype Unsigned = Unsigned(sequence: nat, timestamp: nat, parent: Option<Bytes>, signer: Bytes, change: Bytes)

  const TWO32: nat := 0x1_0000_0000
  const TWO64: nat := 0x1_0000_0000_0000_0000

  /** Big-endian, wrapping like an unsigned 32-bit store. */
  function U32(n: nat): (b: Bytes)
    ensures |b| == 4
  {
    var m := n % TWO32;
    [m / 0x100_0000, m / 0x1_0000 % 256, m / 256 % 256, m % 256]
  }

  function FromU32(b: Bytes): nat
    requires |b| == 4
  {
    (b[0] as int) * 0x100_0000 + (b[1] as int) * 0x1_0000 + (b[2] as int) * 256 + b[3] as int
  }

  function ParentBytes(u: Unsigned): Bytes { if u.parent.Some? then u.parent.value else [] }

  function Prefixed(b: Bytes): Bytes { U32(|b|) + b }

  function Payload(u: Unsigned): Bytes {
    U32(u.sequence) + U32(u.timestamp / TWO32) + U32(u.timestamp)
    + Prefixed(ParentBytes(u)) + Prefixed(u.signer) + Prefixed(u.change)
  }

  /** What survives the encoding: wrapped numbers, and no parent instead of an empty one. */
  function Normal(u: Unsigned): Unsigned {
    u.(sequence := u.sequence % TWO32, timestamp := u.timestamp % TWO64,
       parent := if ParentBytes(u) == [] then None else u.parent)
  }

  predicate LengthsFit(u: Unsigned) { |ParentBytes(u)| < TWO32 && |u.signer| < TWO32 && |u.change| < TWO32 }

  // ---------------------------------------------------------------- reading back

  lemma U32RoundTrip(n: nat)
    ensures FromU32(U32(n)) == n % TWO32
  {
    var m := n % TWO32;
    var a, b, c := m / 256, m / 0x1_0000, m / 0x100_0000;
    assert m == a * 256 + m % 256;
    assert a / 256 == b && a == b * 256 + a % 256;
    assert b / 256 == c && b == c * 256 + b % 256;
  }

  lemma U32Injective(m: nat, n: nat)
    requires U32(m) == U32(n)
    ensures m % TWO32 == n % TWO32
  {
    U32RoundTrip(m);
    U32RoundTrip(n);
  }

  /** Equal concatenations with equally long heads have equal heads and tails. */
  lemma SplitEqual(a: Bytes, b: Bytes, c: Bytes, d: Bytes)
    requires a + b == c + d && |a| == |c|
    ensures a == c && b == d
  {
    assert a == (a + b)[..|a|] && c == (c + d)[..|c|];
    assert b == (a + b)[|a|..] && d == (c + d)[|c|..];
  }

  /** A length prefix makes a field self-delimiting. */
  lemma PrefixedSplits(a: Bytes, rest: Bytes, b: Bytes, rest': Bytes)
    requires Prefixed(a) + rest == Prefixed(b) + rest' && |a| < TWO32 && |b| < TWO32
    ensures a == b && rest == rest'
  {
    assert Prefixed(a) + rest == U32(|a|) + (a + rest);
    assert Prefixed(b) + rest' == U32(|b|) + (b + rest');
    SplitEqual(U32(|a|), a + rest, U32(|b|), b + rest');
    U32Injective(|a|, |b|);
    SplitEqual(a, rest, b, rest');
  }

  lemma TimestampHalves(t: nat, s: nat)
    requires t / TWO32 % TWO32 == s / TWO32 % TWO32 && t % TWO32 == s % TWO32
    ensures t % TWO64 == s % TWO64
  {
    HalvesJoin(t);
    HalvesJoin(s);
  }

  lemma HalvesJoin(t: nat)
    ensures t % TWO64 == (t / TWO32 % TWO32) * TWO32 + t % TWO32
  {
    var hi, lo := t / TWO32, t % TWO32;
    var top, mid := hi / TWO32, hi % TWO32;
    assert t == top * TWO64 + (mid * TWO32 + lo);
  }

  lemma WrappedHalves(t: nat)
    ensures t % TWO64 / TWO32 % TWO32 == t / TWO32 % TWO32 && t % TWO64 % TWO32 == t % TWO32
  {
    HalvesJoin(t);
    var hi, lo := t / TWO32 % TWO32, t % TWO32;
    assert (hi * TWO32 + lo) / TWO32 == hi && (hi * TWO32 + lo) % TWO32 == lo;
  }

  lemma SplitHeader(a: Bytes, b: Bytes, c: Bytes, rest: Bytes, a': Bytes, b': Bytes, c': Bytes, rest': Bytes)
    requires |a| == |a'| && |b| == |b'| && |c| == |c'|
    requires a + b + c + rest == a' + b' + c' + rest'
    ensures a == a' && b == b' && c == c' && rest == rest'
  {
    SplitEqual(a + b + c, rest, a' + b' + c', rest');
    SplitEqual(a + b, c, a' + b', c');
    SplitEqual(a, b, a', b');
  }

  function Fields(u: Unsigned): Bytes { Prefixed(ParentBytes(u)) + (Prefixed(u.signer) + Prefixed(u.change)) }

  lemma PayloadShape(u: Unsigned)
    ensures Payload(u) == U32(u.sequence) + U32(u.timestamp / TWO32) + U32(u.timestamp) + Fields(u)
  {
    var head := U32(u.sequence) + U32(u.timestamp / TWO32) + U32(u.timestamp);
    var a, b, c := Prefixed(ParentBytes(u)), Prefixed(u.signer), Prefixed(u.change);
    assert head + a + b + c == head + (a + (b + c));
  }

  lemma FixedFields(u: Unsigned, v: Unsigned)
    requires Payload(u) == Payload(v)
    ensures u.sequence % TWO32 == v.sequence % TWO32 && u.timestamp % TWO64 == v.timestamp % TWO64
    ensures Fields(u) == Fields(v)
  {
    PayloadShape(u);
    PayloadShape(v);
    SplitHeader(U32(u.sequence), U32(u.timestamp / TWO32), U32(u.timestamp), Fields(u),
                U32(v.sequence), U32(v.timestamp / TWO32), U32(v.timestamp), Fields(v));
    U32Injective(u.sequence, v.sequence);
    U32Injective(u.timestamp / TWO32, v.timestamp / TWO32);
    U32Injective(u.timestamp, v.timestamp);
    TimestampHalves(u.timestamp, v.timestamp);
  }

  lemma VariableFields(u: Unsigned, v: Unsigned)
    requires LengthsFit(u) && LengthsFit(v)
    requires Fields(u) == Fields(v)
    ensures ParentBytes(u) == ParentBytes(v) && u.signer == v.signer && u.change == v.change
  {
    PrefixedSplits(ParentBytes(u), Prefixed(u.signer) + Prefixed(u.change), ParentBytes(v), Prefixed(v.signer) + Prefixed(v.change));
    PrefixedSplits(u.signer, Prefixed(u.change), v.signer, Prefixed(v.change));
    assert Prefixed(u.change) + [] == Prefixed(v.change) + [];
    PrefixedSplits(u.change, [], v.change, []);
  }

  lemma NormalKeepsPayload(u: Unsigned)
    ensures Payload(Normal(u)) == Payload(u)
  {
    var n := Normal(u);
    U32Wraps(u.sequence);
    TimestampWraps(u.timestamp);
    assert ParentBytes(n) == ParentBytes(u);
  }

  lemma U32Wraps(n: nat)
    ensures U32(n % TWO32) == U32(n)
  {}

  lemma TimestampWraps(t: nat)
    ensures U32(t % TWO64 / TWO32) == U32(t / TWO32) && U32(t % TWO64) == U32(t)
  {
    WrappedHalves(t);
    U32Wraps(t % TWO64 / TWO32);
    U32Wraps(t / TWO32);
    U32Wraps(t % TWO64);
    U32Wraps(t);
  }

  /** Two entries share their signed bytes exactly when they have the same normal form. */
  lemma PayloadsAgreeIffNormal(u: Unsigned, v: Unsigned)
    requires LengthsFit(u) && LengthsFit(v)
    ensures Payload(u) == Payload(v) <==> Normal(u) == Normal(v)
  {
    if Payload(u) == Payload(v) {
      FixedFields(u, v);
      VariableFields(u, v);
    }
    if Normal(u) == Normal(v) {
      NormalKeepsPayload(u);
      NormalKeepsPayload(v);
    }
  }

  // ---------------------------------------------------------------- filling the buffer

  method StoreU32(out: array<byte>, off: nat, n: nat)
    requires off + 4 <= out.Length
    modifies out
    ensures out[..] == old(out[..off]) + U32(n) + old(out[off + 4..])
  {
    var b := U32(n);
    out[off], out[off + 1], out[off + 2], out[off + 3] := b[0], b[1], b[2], b[3];
  }

  method CopyInto(out: array<byte>, off: nat, b: Bytes)
    requires off + |b| <= out.Length
    modifies out
    ensures out[..] == old(out[..off]) + b + old(out[off + |b|..])
  {
    for i := 0 to |b|
      invariant out[..] == old(out[..off]) + b[..i] + old(out[off + i..])
    {
      out[off + i] := b[i];
      assert b[..i + 1] == b[..i] + [b[i]];
    }
    assert b[..|b|] == b;
  }

  /** Write one length-prefixed field behind what is already written. */
  method StoreField(out: array<byte>, off: nat, b: Bytes) returns (next: nat)
    requires off + 4 + |b| <= out.Length
    modifies out
    ensures next == off + 4 + |b|
    ensures out[..next] == old(out[..off]) + Prefixed(b)
  {
    StoreU32(out, off, |b|);
    assert out[..off + 4] == old(out[..off]) + U32(|b|);
    CopyInto(out, off + 4, b);
    next := off + 4 + |b|;
  }

  method EncodePayload(u: Unsigned) returns (out: array<byte>)
    ensures fresh(out) && out[..] == Payload(u)
  {
    var parent := ParentBytes(u);
    out := new byte[24 + |parent| + |u.signer| + |u.change|](_ => 0);
    StoreU32(out, 0, u.sequence);
    assert out[..4] == U32(u.sequence);
    StoreU32(out, 4, u.timestamp / TWO32);
    assert out[..8] == U32(u.sequence) + U32(u.timestamp / TWO32);
    StoreU32(out, 8, u.timestamp);
    assert out[..12] == U32(u.sequence) + U32(u.timestamp / TWO32) + U32(u.timestamp);
    var off := StoreField(out, 12, parent);
    off := StoreField(out, off, u.signer);
    off := StoreField(out, off, u.change);
    assert out[..] == out[..off];
  }
}
