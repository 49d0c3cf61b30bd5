/**
 * The record layout of a vnode dump and the re-encoding `clk_to_zero`
 * (recoverlost_lib.rb, lines 186-194).
 *
 * A record is five big-endian 32-bit words (vn, last, clk, expt, klen),
 * klen key bytes, the 32-bit value length vlen and vlen value bytes.
 */
module Records {
  import opened Wrappers
  import opened Bytes

  datatype Record = Record(vn: u32, last: u32, clk: u32, expt: u32, key: seq<byte>, value: seq<byte>)

  /** Both lengths fit in their 32-bit length words. */
  predicate Encodable(r: Record) {
    |r.key| < 0x1_0000_0000 && |r.value| < 0x1_0000_0000
  }

  /** The wire form; the vlen word is present even when the value is empty. */
  function Serialize(r: Record): (d: seq<byte>)
    requires Encodable(r)
    ensures |d| == 24 + |r.key| + |r.value|
  {
    Be32Encode(r.vn) + Be32Encode(r.last) + Be32Encode(r.clk) + Be32Encode(r.expt)
      + Be32Encode(|r.key|) + r.key + Be32Encode(|r.value|) + r.value
  }

  /** The key length word of a dump entry (bytes 16..20). */
  function KeyLength(d: seq<byte>): u32
    requires |d| >= 20
  {
    Be32Decode(d[16..20])
  }

  /** The value length word, which follows the key. */
  function ValueLength(d: seq<byte>): u32
    requires |d| >= 20 && |d| >= 24 + KeyLength(d)
  {
    Be32Decode(d[20 + KeyLength(d)..24 + KeyLength(d)])
  }

  /** Strict decoding: Some exactly when d is one whole record and nothing more. */
  function Parse(d: seq<byte>): Option<Record> {
    if |d| < 24 || |d| < 24 + KeyLength(d) || |d| != 24 + KeyLength(d) + ValueLength(d) then None
    else
      var klen := KeyLength(d);
      Some(Record(Be32Decode(d[0..4]), Be32Decode(d[4..8]), Be32Decode(d[8..12]), Be32Decode(d[12..16]),
                  d[20..20 + klen], d[24 + klen..]))
  }

  /** s cut or NUL-padded to n bytes, as pack("a#{n}") does with a shorter or longer string. */
  function PadTo(s: seq<byte>, n: nat): (p: seq<byte>)
    ensures |p| == n
    ensures forall i :: 0 <= i < n ==> p[i] == if i < |s| then s[i] else 0
  {
    if |s| >= n then s[..n] else s + Zeros(n - |s|)
  }

  /** Both length words can be read: the header, the key and the vlen word are all there. */
  predicate Readable(d: seq<byte>) {
    |d| >= 20 && |d| >= 24 + KeyLength(d)
  }

  /**
   * The record that clk_to_zero packs. The header words are unpacked, the key
   * is the next klen bytes and vlen the word after it; a non-zero vlen takes up
   * to vlen of the remaining bytes (unpack "a#{vlen}" stops at the end of the
   * data) and pack pads them back to vlen with NULs. Bytes after the value are
   * dropped.
   */
  function Zeroed(d: seq<byte>): (r: Record)
    requires Readable(d)
  {
    var klen: int := KeyLength(d);
    var vlen: int := ValueLength(d);
    var vend: int := if |d| < 24 + klen + vlen then |d| else 24 + klen + vlen;
    var v := if vlen != 0 then PadTo(d[24 + klen..vend], vlen) else [];
    Record(Be32Decode(d[0..4]), Be32Decode(d[4..8]), 0, Be32Decode(d[12..16]), d[20..20 + klen], v)
  }

  /** clk_to_zero; an entry too short to hold its key and vlen word makes the Ruby code raise, which is None here. */
  function ClkToZero(d: seq<byte>): Option<seq<byte>> {
    if Readable(d) then Some(Serialize(Zeroed(d))) else None
  }

  /** Decoding the words of a serialized record gives back its fields. */
  lemma SerializeWords(r: Record)
    requires Encodable(r)
    ensures var d := Serialize(r);
      && d[0..4] == Be32Encode(r.vn) && d[4..8] == Be32Encode(r.last)
      && d[8..12] == Be32Encode(r.clk) && d[12..16] == Be32Encode(r.expt)
      && d[16..20] == Be32Encode(|r.key|)
      && d[20..20 + |r.key|] == r.key
      && d[20 + |r.key|..24 + |r.key|] == Be32Encode(|r.value|)
      && d[24 + |r.key|..] == r.value
  {
    var d := Serialize(r);
    var k := |r.key|;
    var h := Be32Encode(r.vn) + Be32Encode(r.last) + Be32Encode(r.clk) + Be32Encode(r.expt) + Be32Encode(k);
    assert d == h + r.key + Be32Encode(|r.value|) + r.value;
    assert d[0..4] == h[0..4];
    assert d[4..8] == h[4..8];
    assert d[8..12] == h[8..12];
    assert d[12..16] == h[12..16];
    assert d[16..20] == h[16..20];
  }

  /** Round trip: a serialized record parses back to itself. */
  lemma ParseSerialize(r: Record)
    requires Encodable(r)
    ensures Parse(Serialize(r)) == Some(r)
  {
    var d := Serialize(r);
    SerializeWords(r);
    DecodeEncode(r.vn);
    DecodeEncode(r.last);
    DecodeEncode(r.clk);
    DecodeEncode(r.expt);
    DecodeEncode(|r.key|);
    DecodeEncode(|r.value|);
  }

  /** Round trip: whatever parses is exactly the serialization of what it parses to. */
  lemma SerializeParse(d: seq<byte>)
    requires Parse(d).Some?
    ensures Encodable(Parse(d).value) && Serialize(Parse(d).value) == d
  {
    var r := Parse(d).value;
    var k := |r.key|;
    EncodeDecode(d[0..4]);
    EncodeDecode(d[4..8]);
    EncodeDecode(d[8..12]);
    EncodeDecode(d[12..16]);
    EncodeDecode(d[16..20]);
    EncodeDecode(d[20 + k..24 + k]);
    var e := Serialize(r);
    assert e == d[0..4] + d[4..8] + d[8..12] + d[12..16] + d[16..20] + d[20..20 + k] + d[20 + k..24 + k] + d[24 + k..];
    assert d == d[0..4] + d[4..8] + d[8..12] + d[12..16] + d[16..20] + d[20..20 + k] + d[20 + k..24 + k] + d[24 + k..];
  }

  /**
   * clk_to_zero fails exactly on entries too short to hold the header, the key
   * and the vlen word; otherwise its output is 24 + klen + vlen bytes long and
   * is itself a whole record whose clock is 0.
   */
  lemma ClkToZeroShape(d: seq<byte>)
    ensures ClkToZero(d).Some? <==> Readable(d)
    ensures ClkToZero(d).Some? ==>
      var o := ClkToZero(d).value;
      && |o| == 24 + KeyLength(d) + ValueLength(d)
      && Parse(o).Some? && Parse(o).value.clk == 0
  {
    if Readable(d) {
      var r := Zeroed(d);
      assert |r.key| == KeyLength(d) && |r.value| == ValueLength(d);
      ParseSerialize(r);
    }
  }

  /**
   * On a whole record, clk_to_zero keeps vn, last, expt, the key and the value
   * and sets the clock to 0.
   */
  lemma ClkToZeroRecord(d: seq<byte>)
    requires Parse(d).Some?
    ensures ClkToZero(d) == Some(Serialize(Parse(d).value.(clk := 0)))
  {
    var r := Parse(d).value;
    var klen: int := KeyLength(d);
    var vlen: int := ValueLength(d);
    assert |d| == 24 + klen + vlen;
    if vlen != 0 {
      assert d[24 + klen..24 + klen + vlen] == r.value;
      assert PadTo(r.value, vlen) == r.value;
    }
    assert Zeroed(d) == r.(clk := 0);
  }

  /** The same, byte by byte: only bytes 8..12 change, and they become 0. */
  lemma ClkToZeroBytes(d: seq<byte>)
    requires Parse(d).Some?
    ensures ClkToZero(d).Some?
    ensures var o := ClkToZero(d).value;
      |o| == |d| && o[..8] == d[..8] && o[8..12] == [0, 0, 0, 0] && o[12..] == d[12..]
  {
    var r := Parse(d).value;
    SerializeParse(d);
    ClkToZeroRecord(d);
    var o := ClkToZero(d).value;
    var h := Be32Encode(r.vn) + Be32Encode(r.last);
    var t := Be32Encode(r.expt) + Be32Encode(|r.key|) + r.key + Be32Encode(|r.value|) + r.value;
    AroundClock(r);
    AroundClock(r.(clk := 0));
    SpliceWord(h, Be32Encode(r.clk), t, d);
    SpliceWord(h, Be32Encode(0), t, o);
  }

  /** A serialized record split around its clock word. */
  lemma AroundClock(r: Record)
    requires Encodable(r)
    ensures Serialize(r) == (Be32Encode(r.vn) + Be32Encode(r.last)) + Be32Encode(r.clk)
      + (Be32Encode(r.expt) + Be32Encode(|r.key|) + r.key + Be32Encode(|r.value|) + r.value)
  {
  }

  /** Where a serialized record has the form h + w + t around its clock word w. */
  lemma SpliceWord(h: seq<byte>, w: seq<byte>, t: seq<byte>, d: seq<byte>)
    requires |h| == 8 && |w| == 4
    requires d == h + w + t
    ensures d[..8] == h && d[8..12] == w && d[12..] == t
  {
  }

  /** Re-applying clk_to_zero changes nothing more. */
  lemma ClkToZeroIdempotent(d: seq<byte>)
    requires ClkToZero(d).Some?
    ensures ClkToZero(ClkToZero(d).value) == ClkToZero(d)
  {
    var o := ClkToZero(d).value;
    ClkToZeroShape(d);
    ClkToZeroRecord(o);
    SerializeParse(o);
    assert Parse(o).value.(clk := 0) == Parse(o).value;
  }
}
