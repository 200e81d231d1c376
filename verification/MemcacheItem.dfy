/** A memcached item: a key and a value that arrives piece by piece, in one block of memory. */
module MemcacheItem {
  import opened Text
  import B = Buffer
  import L = LogStream

  const LONGEST_KEY := 250

  predicate EndsWithCRLF(s: string) { |s| >= 2 && s[|s| - 2..] == CRLF }

  /** What get prints for an item, and with a cas value what gets prints. The value ends in CRLF. */
  function ItemText(key: string, flags: nat, value: string, cas: nat, needCas: bool): string
    requires |value| >= 2
  {
    "VALUE " + key + ItemNumbers(flags, |value| - 2, cas, needCas) + value
  }

  function ItemNumbers(flags: nat, size: nat, cas: nat, needCas: bool): string {
    " " + L.Decimal(flags) + " " + L.Decimal(size) + (if needCas then " " + L.Decimal(cas) else "") + CRLF
  }

  class Item {
    const hashOf: string -> nat
    var keylen: nat
    const flags: nat
    const valuelen: nat
    var receivedBytes: nat
    var cas: nat
    var hash: nat
    const data: array<char>

    predicate Valid()
      reads this, data
    {
      && 2 <= valuelen && keylen <= receivedBytes <= TotalLen() <= data.Length
      && hash == hashOf(data[..keylen])
    }

    function TotalLen(): nat
      reads this
    {
      keylen + valuelen
    }

    function Key(): string
      requires Valid()
      reads this, data
    {
      data[..keylen]
    }

    /** The part of the value that has arrived. */
    function Received(): string
      requires Valid()
      reads this, data
    {
      data[keylen..receivedBytes]
    }

    function NeededBytes(): (n: nat)
      requires Valid()
      reads this, data
      ensures n + |Received()| == valuelen
    {
      TotalLen() - receivedBytes
    }

    predicate Complete()
      requires Valid()
      reads this, data
    {
      NeededBytes() == 0 && EndsWithCRLF(Received())
    }

    constructor (hashOf: string -> nat, key: string, flags: nat, valuelen: nat, cas: nat)
      requires valuelen >= 2
      ensures Valid() && fresh(data) && Key() == key && Received() == "" && data.Length == |key| + valuelen
      ensures this.hashOf == hashOf && this.flags == flags && this.valuelen == valuelen && this.cas == cas
    {
      this.hashOf := hashOf;
      keylen, this.flags, this.valuelen := |key|, flags, valuelen;
      receivedBytes, this.cas := 0, cas;
      hash := hashOf(key);
      data := new char[|key| + valuelen](_ => '\0');
      new;
      Copy(key);
      assert data[..keylen] == key;
    }

    /** memcpy of s to where the next bytes go. */
    method Copy(s: string)
      requires receivedBytes + |s| <= data.Length
      modifies this`receivedBytes, data
      ensures receivedBytes == old(receivedBytes) + |s|
      ensures data[..receivedBytes] == old(data[..receivedBytes]) + s
    {
      forall k | 0 <= k < |s| {
        data[receivedBytes + k] := s[k];
      }
      receivedBytes := receivedBytes + |s|;
    }

    method Append(s: string)
      requires Valid() && |s| <= NeededBytes()
      modifies this`receivedBytes, data
      ensures Valid() && Key() == old(Key()) && Received() == old(Received()) + s
    {
      ghost var was := data[..receivedBytes];
      ghost var key := Key();
      Copy(s);
      assert data[..keylen] == data[..receivedBytes][..keylen] == was[..keylen] == key;
      assert data[keylen..receivedBytes] == data[..receivedBytes][keylen..];
    }

    /** The same item for another key, to look that key up; its value is forgotten. */
    method ResetKey(k: string)
      requires Valid() && |k| + valuelen <= data.Length
      modifies this, data
      ensures Valid() && Key() == k && Received() == "" && hash == hashOf(k)
    {
      keylen := |k|;
      receivedBytes := 0;
      Copy(k);
      assert data[..keylen] == k;
      hash := hashOf(k);
    }

    method SetCas(c: nat)
      modifies this`cas
      ensures cas == c
    {
      cas := c;
    }
  }

  /** A space and a number, where there is room enough. */
  method PutNumber(buf: L.Stream, v: nat)
    requires buf.Valid() && |buf.Line()| <= 1000 && L.Is64Bit(v)
    modifies buf.buffer, buf.buffer.data
    ensures buf.Valid() && buf.Line() == old(buf.Line()) + " " + L.Decimal(v) && |buf.Line()| <= old(|buf.Line()|) + 21
  {
    hide L.Decimal, L.Is64Bit;
    L.DecimalFits(v);
    buf.WriteText(" ");
    buf.WriteInteger(v);
  }

  /** The two or three numbers of an item and the line end, through a log stream. */
  method PutNumbers(flags: nat, size: nat, cas: nat, needCas: bool) returns (line: string)
    requires L.Is64Bit(flags) && L.Is64Bit(size) && L.Is64Bit(cas)
    ensures line == ItemNumbers(flags, size, cas, needCas)
  {
    hide L.Decimal, L.Is64Bit, L.Put;
    var buf := new L.Stream();
    PutNumber(buf, flags);
    PutNumber(buf, size);
    if needCas {
      PutNumber(buf, cas);
    }
    PutEnd(buf);
    line := buf.buffer.Contents();
    assert line == buf.Line();
  }

  method PutEnd(buf: L.Stream)
    requires buf.Valid() && |buf.Line()| <= 1000
    modifies buf.buffer, buf.buffer.data
    ensures buf.Valid() && buf.Line() == old(buf.Line()) + CRLF
  {
    buf.WriteText(CRLF);
  }

  /** The model's counters are unbounded: a number that no 64-bit word holds is printed as the
      numeral it is. */
  method Numbers(flags: nat, size: nat, cas: nat, needCas: bool) returns (line: string)
    ensures line == ItemNumbers(flags, size, cas, needCas)
  {
    hide ItemNumbers, L.Is64Bit, L.Decimal;
    if L.Is64Bit(flags) && L.Is64Bit(size) && L.Is64Bit(cas) {
      line := PutNumbers(flags, size, cas, needCas);
    } else {
      line := ItemNumbers(flags, size, cas, needCas);
    }
  }

  /** Item::output for a complete item. */
  method Output(key: string, flags: nat, value: string, cas: nat, needCas: bool, out: B.Buffer)
    requires out.Valid() && |value| >= 2
    modifies out
    ensures out.Valid() && out.Contents() == old(out.Contents()) + ItemText(key, flags, value, cas, needCas)
  {
    hide ItemNumbers;
    out.Append("VALUE ");
    out.Append(key);
    var numbers := Numbers(flags, |value| - 2, cas, needCas);
    out.Append(numbers);
    out.Append(value);
  }
}
