/** The growable byte buffer: a vector with a read and a write position. A byte is a char below 256. */
module Buffer {

  const CHEAP_PREPEND := 8
  const INITIAL_SIZE := 1024
  const EXTRA_SIZE := 65536

  // ---------- searching ----------

  predicate CrlfAt(s: string, k: int) { 0 <= k && k + 1 < |s| && s[k] == '\r' && s[k + 1] == '\n' }

  /** The first position of "\r\n" in s, or -1. */
  function FindCRLF(s: string): (i: int)
    ensures -1 <= i && (i >= 0 ==> CrlfAt(s, i))
    ensures forall k :: CrlfAt(s, k) ==> 0 <= i <= k
  {
    if |s| < 2 then -1
    else if s[0] == '\r' && s[1] == '\n' then 0
    else
      var r := FindCRLF(s[1..]);
      assert forall k :: CrlfAt(s, k) ==> CrlfAt(s[1..], k - 1);
      if r < 0 then -1 else r + 1
  }

  /** More bytes do not move a line end that was found. */
  lemma {:induction false} FindCRLFMore(a: string, b: string)
    requires FindCRLF(a) >= 0
    ensures FindCRLF(a + b) == FindCRLF(a)
  {
    assert CrlfAt(a + b, FindCRLF(a));
    assert CrlfAt(a, FindCRLF(a + b));
  }

  // ---------- integers in network byte order ----------

  function Power256(k: nat): nat { if k == 0 then 1 else 256 * Power256(k - 1) }

  /** The k low bytes of n, most significant first. */
  function Encode(n: nat, k: nat): (s: string)
    ensures |s| == k
  {
    if k == 0 then "" else Encode(n / 256, k - 1) + [(n % 256) as char]
  }

  function Decode(s: string): nat {
    if s == "" then 0 else Decode(s[..|s| - 1]) * 256 + s[|s| - 1] as int
  }

  lemma {:induction false} DecodeEncode(n: nat, k: nat)
    requires n < Power256(k)
    ensures Decode(Encode(n, k)) == n
  {
    if k > 0 {
      DecodeEncode(n / 256, k - 1);
      assert Encode(n, k)[..k - 1] == Encode(n / 256, k - 1);
    }
  }

  /** The first byte in which a differs from b is the smaller one. */
  predicate Before(a: string, b: string) {
    a != "" && b != "" && (a[0] < b[0] || (a[0] == b[0] && Before(a[1..], b[1..])))
  }

  /** The most significant byte comes first: smaller numbers have the bytes that come first in the dictionary. */
  lemma {:induction false} EncodeOrder(m: nat, n: nat, k: nat)
    requires m < n < Power256(k)
    ensures Before(Encode(m, k), Encode(n, k))
  {
    if m / 256 < n / 256 {
      EncodeOrder(m / 256, n / 256, k - 1);
      BeforeLonger(Encode(m / 256, k - 1), Encode(n / 256, k - 1), [(m % 256) as char], [(n % 256) as char]);
    } else {
      BeforeLast(Encode(m / 256, k - 1), (m % 256) as char, (n % 256) as char);
    }
  }

  lemma {:induction false} BeforeLonger(a: string, b: string, c: string, d: string)
    requires Before(a, b)
    ensures Before(a + c, b + d)
  {
    assert (a + c)[1..] == a[1..] + c && (b + d)[1..] == b[1..] + d;
    if a[0] == b[0] { BeforeLonger(a[1..], b[1..], c, d); }
  }

  lemma {:induction false} BeforeLast(s: string, c: char, d: char)
    requires c < d
    ensures Before(s + [c], s + [d])
  {
    if s != "" {
      BeforeLast(s[1..], c, d);
      assert (s + [c])[1..] == s[1..] + [c] && (s + [d])[1..] == s[1..] + [d];
    }
  }

  /** Two's complement in k bytes. */
  function Unsigned(x: int, k: nat): int { if x >= 0 then x else x + Power256(k) }
  function Signed(n: int, k: nat): int { if 2 * n < Power256(k) then n else n - Power256(k) }

  /** The range of a k-byte signed integer. */
  predicate Fits(x: int, k: nat) { 0 - Power256(k) <= 2 * x < Power256(k) }

  lemma SignedUnsigned(x: int, k: nat)
    requires Fits(x, k)
    ensures 0 <= Unsigned(x, k) < Power256(k) && Signed(Unsigned(x, k), k) == x
  {
  }

  function EncodeInt(x: int, k: nat): (s: string)
    requires Fits(x, k)
    ensures |s| == k
  {
    SignedUnsigned(x, k);
    Encode(Unsigned(x, k), k)
  }

  function DecodeInt(s: string): int { Signed(Decode(s), |s|) }

  lemma DecodeEncodeInt(x: int, k: nat)
    requires Fits(x, k)
    ensures DecodeInt(EncodeInt(x, k)) == x
  {
    SignedUnsigned(x, k);
    DecodeEncode(Unsigned(x, k), k);
  }

  /** A signed integer has the bytes of its remainder modulo 256 to the power k. */
  lemma SignedModulo(x: int, k: nat)
    requires Fits(x, k)
    ensures Power256(k) > 0 && EncodeInt(x, k) == Encode(x % Power256(k), k)
  {
    SignedUnsigned(x, k);
    Wraps(x, Power256(k));
  }

  lemma Wraps(x: int, p: int)
    requires p > 0 && -p <= x < p
    ensures x % p == if x >= 0 then x else x + p
  {
    if x < 0 {
      var q, r := x / p, x % p;
      assert p * (q + 1) == x + p - r;
      if q + 1 != 0 { FarMultiple(p, q + 1); }
    }
  }

  lemma FarMultiple(p: int, k: int)
    requires p > 0 && k != 0
    ensures p * k >= p || p * k <= -p
  {
  }

  // ---------- the buffer ----------

  class Buffer {
    var data: string
    var readerIndex: nat
    var writerIndex: nat

    predicate Valid()
      reads this
    {
      readerIndex <= writerIndex <= |data| && CHEAP_PREPEND <= |data|
    }

    /** The readable bytes. */
    function Contents(): string
      requires Valid()
      reads this
    {
      data[readerIndex..writerIndex]
    }

    function ReadableBytes(): (n: nat)
      requires Valid()
      reads this
      ensures n == |Contents()|
    {
      writerIndex - readerIndex
    }

    function WritableBytes(): nat
      requires Valid()
      reads this
    {
      |data| - writerIndex
    }

    function PrependableBytes(): nat
      reads this
    {
      readerIndex
    }

    constructor (initialSize: nat)
      ensures Valid() && Contents() == "" && WritableBytes() == initialSize && PrependableBytes() == 8
    {
      data := seq(CHEAP_PREPEND + initialSize, _ => '\0');
      readerIndex := CHEAP_PREPEND;
      writerIndex := CHEAP_PREPEND;
    }

    method Swap(rhs: Buffer)
      requires Valid() && rhs.Valid()
      modifies this, rhs
      ensures Valid() && rhs.Valid()
      ensures data == old(rhs.data) && readerIndex == old(rhs.readerIndex) && writerIndex == old(rhs.writerIndex)
      ensures rhs.data == old(data) && rhs.readerIndex == old(readerIndex) && rhs.writerIndex == old(writerIndex)
    {
      data, rhs.data := rhs.data, data;
      readerIndex, rhs.readerIndex := rhs.readerIndex, readerIndex;
      writerIndex, rhs.writerIndex := rhs.writerIndex, writerIndex;
    }

    method RetrieveAll()
      requires Valid()
      modifies this`readerIndex, this`writerIndex
      ensures Valid() && Contents() == "" && PrependableBytes() == CHEAP_PREPEND
    {
      readerIndex := CHEAP_PREPEND;
      writerIndex := CHEAP_PREPEND;
    }

    method Retrieve(len: nat)
      requires Valid() && len <= ReadableBytes()
      modifies this`readerIndex, this`writerIndex
      ensures Valid() && Contents() == old(Contents())[len..]
    {
      if len < ReadableBytes() {
        readerIndex := readerIndex + len;
      } else {
        RetrieveAll();
      }
    }

    method RetrieveAsString(len: nat) returns (result: string)
      requires Valid() && len <= ReadableBytes()
      modifies this`readerIndex, this`writerIndex
      ensures Valid() && result + Contents() == old(Contents()) && |result| == len
    {
      result := Contents()[..len];
      Retrieve(len);
    }

    /** Room for len bytes: by growing, or by moving the readable bytes to the front. */
    method MakeSpace(len: nat)
      requires Valid() && WritableBytes() < len
      modifies this
      ensures Valid() && Contents() == old(Contents()) && WritableBytes() >= len
      ensures readerIndex == old(readerIndex) || readerIndex == CHEAP_PREPEND
    {
      if WritableBytes() + PrependableBytes() < len + CHEAP_PREPEND {
        data := data + seq(writerIndex + len - |data|, _ => '\0');
      } else {
        assert CHEAP_PREPEND < readerIndex;
        var readable := ReadableBytes();
        data := data[..CHEAP_PREPEND] + Contents() + data[CHEAP_PREPEND + readable..];
        readerIndex := CHEAP_PREPEND;
        writerIndex := readerIndex + readable;
        assert readable == ReadableBytes();
      }
    }

    method EnsureWritableBytes(len: nat)
      requires Valid()
      modifies this
      ensures Valid() && Contents() == old(Contents()) && WritableBytes() >= len
      ensures readerIndex == old(readerIndex) || readerIndex == CHEAP_PREPEND
      ensures old(WritableBytes()) >= len ==> WritableBytes() == old(WritableBytes())
    {
      if WritableBytes() < len {
        MakeSpace(len);
      }
    }

    method Append(s: string)
      requires Valid()
      modifies this
      ensures Valid() && Contents() == old(Contents()) + s
      ensures readerIndex == old(readerIndex) || readerIndex == CHEAP_PREPEND
      ensures old(WritableBytes()) >= |s| ==> WritableBytes() == old(WritableBytes()) - |s|
    {
      EnsureWritableBytes(|s|);
      data := data[..writerIndex] + s + data[writerIndex + |s|..];
      writerIndex := writerIndex + |s|;
    }

    method Unwrite(len: nat)
      requires Valid() && len <= ReadableBytes()
      modifies this`writerIndex
      ensures Valid() && Contents() == old(Contents())[..|old(Contents())| - len]
    {
      writerIndex := writerIndex - len;
    }

    method Prepend(s: string)
      requires Valid() && |s| <= PrependableBytes()
      modifies this
      ensures Valid() && Contents() == s + old(Contents()) && PrependableBytes() == old(PrependableBytes()) - |s|
    {
      readerIndex := readerIndex - |s|;
      data := data[..readerIndex] + s + data[readerIndex + |s|..];
    }

    /** Swaps with a fresh buffer that has just the readable bytes and some room. */
    method Shrink(reserve: nat)
      requires Valid()
      modifies this
      ensures Valid() && Contents() == old(Contents()) && WritableBytes() >= reserve
      ensures PrependableBytes() == CHEAP_PREPEND
    {
      var other := new Buffer(INITIAL_SIZE);
      other.EnsureWritableBytes(ReadableBytes() + reserve);
      other.Append(Contents());
      Swap(other);
    }

    /** One readv: what the kernel delivers goes first to the free space, then to a block on the
        stack, which is appended. */
    method ReadFd(got: string)
      requires Valid() && |got| <= WritableBytes() + (if WritableBytes() < EXTRA_SIZE then EXTRA_SIZE else 0)
      modifies this
      ensures Valid() && Contents() == old(Contents()) + got
    {
      var writable := WritableBytes();
      if |got| <= writable {
        data := data[..writerIndex] + got + data[writerIndex + |got|..];
        writerIndex := writerIndex + |got|;
      } else {
        data := data[..writerIndex] + got[..writable];
        writerIndex := |data|;
        assert Contents() == old(Contents()) + got[..writable];
        Append(got[writable..]);
        assert got == got[..writable] + got[writable..];
      }
    }

    // ---------- integers of 1, 2, 4 or 8 bytes ----------

    method AppendInt(x: int, k: nat)
      requires Valid() && Fits(x, k)
      modifies this
      ensures Valid() && Contents() == old(Contents()) + EncodeInt(x, k)
    {
      Append(EncodeInt(x, k));
    }

    method PrependInt(x: int, k: nat)
      requires Valid() && Fits(x, k) && k <= PrependableBytes()
      modifies this
      ensures Valid() && Contents() == EncodeInt(x, k) + old(Contents())
    {
      Prepend(EncodeInt(x, k));
    }

    method PeekInt(k: nat) returns (x: int)
      requires Valid() && k <= ReadableBytes()
      ensures x == DecodeInt(Contents()[..k])
    {
      x := DecodeInt(Contents()[..k]);
    }

    method ReadInt(k: nat) returns (x: int)
      requires Valid() && k <= ReadableBytes()
      modifies this`readerIndex, this`writerIndex
      ensures Valid() && x == DecodeInt(old(Contents())[..k]) && Contents() == old(Contents())[k..]
    {
      x := PeekInt(k);
      Retrieve(k);
    }
  }

  /** An integer appended to an empty buffer, or put in front of any, is the one read next. */
  method AppendThenRead(b: Buffer, x: int, k: nat) returns (y: int)
    requires b.Valid() && b.Contents() == "" && Fits(x, k)
    modifies b
    ensures b.Valid() && y == x && b.Contents() == ""
  {
    hide EncodeInt, DecodeInt;
    b.AppendInt(x, k);
    DecodeEncodeInt(x, k);
    assert b.Contents()[..k] == EncodeInt(x, k);
    y := b.ReadInt(k);
  }

  method PrependThenRead(b: Buffer, x: int, k: nat) returns (y: int)
    requires b.Valid() && Fits(x, k) && k <= b.PrependableBytes()
    modifies b
    ensures b.Valid() && y == x && b.Contents() == old(b.Contents())
  {
    b.PrependInt(x, k);
    DecodeEncodeInt(x, k);
    y := b.ReadInt(k);
  }
}
