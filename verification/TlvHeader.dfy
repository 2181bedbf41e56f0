/** The OMA TLV header: `TypeIdLength` of the deserializer and `serialize_TILV` of the serializer. */
module TlvHeader {
  import opened Bytes
  import opened M2MString

  const TYPE_OBJECT_INSTANCE: nat := 0x00
  const TYPE_RESOURCE_INSTANCE: nat := 0x40
  const TYPE_MULTIPLE_RESOURCE: nat := 0x80
  const TYPE_RESOURCE: nat := 0xC0
  const ID16: nat := 0x20
  const LENGTH8: nat := 0x08
  const LENGTH16: nat := 0x10
  const LENGTH24: nat := 0x18
  const LENGTH_LIMIT: nat := 0x100_0000

  /**
   * What a `const uint8_t *` payload pointer reads at each offset. The deserializer never compares a
   * read with the payload size, so bytes after the payload are part of what it can see. All of them are
   * taken to be readable here; `TlvReads` says when only the payload is read.
   */
  type Memory = nat -> byte

  function Slice(m: Memory, at: nat, n: nat): (s: seq<byte>)
    ensures |s| == n
  {
    seq(n, i requires 0 <= i < n => m(at + i))
  }

  /** `s` is found in memory at offset `at`. */
  ghost predicate Holds(m: Memory, at: nat, s: seq<byte>) {
    forall i :: 0 <= i < |s| ==> m(at + i) == s[i]
  }

  lemma HoldsConcat(m: Memory, at: nat, s: seq<byte>, t: seq<byte>)
    requires Holds(m, at, s + t)
    ensures Holds(m, at, s)
    ensures Holds(m, at + |s|, t)
  {
    forall i | 0 <= i < |s|
      ensures m(at + i) == s[i]
    {
      assert (s + t)[i] == s[i];
    }
    forall i | 0 <= i < |t|
      ensures m(at + |s| + i) == t[i]
    {
      assert m(at + (|s| + i)) == (s + t)[|s| + i];
    }
  }

  lemma SliceOfHeld(m: Memory, at: nat, s: seq<byte>)
    requires Holds(m, at, s)
    ensures Slice(m, at, |s|) == s
  {
  }

  predicate IsType(kind: nat) {
    kind == TYPE_OBJECT_INSTANCE || kind == TYPE_RESOURCE_INSTANCE ||
    kind == TYPE_MULTIPLE_RESOURCE || kind == TYPE_RESOURCE
  }

  /** A decoded header and the offset of the value that follows it. */
  datatype Header = Header(kind: nat, id: nat, length: nat, next: nat) {
    /** Offset of the entry after this one. */
    function End(): (n: nat) {
      next + length
    }
  }

  /**
   * Section 6.4.3 of OMA-TS-LightweightM2M-V1_0: bits 7-6 give the type, bit 5 the width of the
   * identifier, bits 4-3 the width of the length field and bits 2-0 the length when there is none.
   */
  function DecodeHeader(m: Memory, offset: nat): (h: Header)
    ensures IsType(h.kind)
    ensures h.id < 0x1_0000 && h.length < LENGTH_LIMIT
    ensures offset + 2 <= h.next <= offset + 6
  {
    var b := m(offset);
    var idBytes := 1 + b / 32 % 2;
    var lengthBytes := b / 8 % 4;
    BigEndianBound(Slice(m, offset + 1, idBytes));
    BigEndianBound(Slice(m, offset + 1 + idBytes, lengthBytes));
    Pow256Values();
    Header(b / 64 * 64,
           BigEndian(Slice(m, offset + 1, idBytes)),
           if lengthBytes == 0 then b % 8 else BigEndian(Slice(m, offset + 1 + idBytes, lengthBytes)),
           offset + 1 + idBytes + lengthBytes)
  }

  lemma {:induction false} BigEndianBound(s: seq<byte>)
    ensures BigEndian(s) < Pow256(|s|)
  {
    if s != [] {
      BigEndianBound(s[1..]);
      MulMonotone(s[0], 255, Pow256(|s| - 1));
    }
  }

  lemma BigEndianSmall(m: Memory, at: nat)
    ensures BigEndian(Slice(m, at, 1)) == m(at)
    ensures BigEndian(Slice(m, at, 2)) == m(at) * 256 + m(at + 1)
    ensures BigEndian(Slice(m, at, 3)) == (m(at) * 256 + m(at + 1)) * 256 + m(at + 2)
  {
    Pow256Values();
    BigEndianOne(m, at);
    BigEndianOne(m, at + 1);
    BigEndianOne(m, at + 2);
    assert Slice(m, at, 2)[1..] == Slice(m, at + 1, 1);
    assert Slice(m, at + 1, 2)[1..] == Slice(m, at + 2, 1);
    assert Slice(m, at, 3)[1..] == Slice(m, at + 1, 2);
  }

  lemma BigEndianOne(m: Memory, at: nat)
    ensures BigEndian(Slice(m, at, 1)) == m(at)
  {
    assert Slice(m, at, 1)[1..] == [];
    assert BigEndian(Slice(m, at, 1)) == m(at) * Pow256(0) + BigEndian([]);
  }

  /** The header fields in terms of the masks and shifts of the source. */
  lemma HeaderByMasks(m: Memory, o: nat)
    ensures var h, b := DecodeHeader(m, o), m(o);
      var at := if BitAnd(b, 0x20) == ID16 then o + 3 else o + 2;
      && h.kind == BitAnd(b, 0xC0)
      && h.id == (if BitAnd(b, 0x20) == ID16 then m(o + 1) * 256 + m(o + 2) else m(o + 1))
      && BitAnd(b, 0x18) in {0, LENGTH8, LENGTH16, LENGTH24}
      && (BitAnd(b, 0x18) == 0 ==> h.length == BitAnd(b, 0x07) && h.next == at)
      && (BitAnd(b, 0x18) == LENGTH8 ==> h.length == m(at) && h.next == at + 1)
      && (BitAnd(b, 0x18) == LENGTH16 ==> h.length == m(at) * 256 + m(at + 1) && h.next == at + 2)
      && (BitAnd(b, 0x18) == LENGTH24 ==>
            h.length == (m(at) * 256 + m(at + 1)) * 256 + m(at + 2) && h.next == at + 3)
  {
    hide BitAnd, BigEndian;
    HeaderMasks(m(o));
    BigEndianSmall(m, o + 1);
    BigEndianSmall(m, o + 1 + (1 + m(o) / 32 % 2));
  }

  /** The reader of the source: a cursor that advances over the header bytes. */
  class TypeIdLength {
    const tlv: Memory
    const kind: nat
    var offset: nat
    var id: nat
    var length: nat

    constructor (tlv: Memory, offset: nat)
      ensures this.tlv == tlv && this.offset == offset
      ensures kind == BitAnd(tlv(offset), 0xC0)
      ensures id == 0 && length == 0
    {
      this.tlv := tlv;
      this.offset := offset;
      this.kind := BitAnd(tlv(offset), 0xC0);
      this.id := 0;
      this.length := 0;
    }

    method Deserialize()
      requires kind == BitAnd(tlv(offset), 0xC0) && length == 0
      modifies this
      ensures Header(kind, id, length, offset) == DecodeHeader(tlv, old(offset))
    {
      hide BitAnd, DecodeHeader;
      HeaderByMasks(tlv, offset);
      var idLength := BitAnd(tlv(offset), 0x20);
      var lengthType := BitAnd(tlv(offset), 0x18);
      if lengthType == 0 {
        length := BitAnd(tlv(offset), 0x07);
      }
      offset := offset + 1;
      DeserialiseId(idLength);
      DeserialiseLength(lengthType);
    }

    method DeserialiseId(idLength: nat)
      modifies this`offset, this`id
      ensures idLength == ID16 ==> id == tlv(old(offset)) * 256 + tlv(old(offset) + 1) && offset == old(offset) + 2
      ensures idLength != ID16 ==> id == tlv(old(offset)) && offset == old(offset) + 1
    {
      id := tlv(offset);
      offset := offset + 1;
      if idLength == ID16 {
        id := id * 256 + tlv(offset);
        offset := offset + 1;
      }
    }

    method DeserialiseLength(lengthType: nat)
      modifies this`offset, this`length
      ensures lengthType == 0 ==> length == old(length) && offset == old(offset)
      ensures 0 < lengthType <= LENGTH8 ==> length == tlv(old(offset)) && offset == old(offset) + 1
      ensures LENGTH8 < lengthType <= LENGTH16 ==>
                length == tlv(old(offset)) * 256 + tlv(old(offset) + 1) && offset == old(offset) + 2
      ensures LENGTH16 < lengthType ==>
                length == (tlv(old(offset)) * 256 + tlv(old(offset) + 1)) * 256 + tlv(old(offset) + 2) &&
                offset == old(offset) + 3
    {
      if lengthType > 0 {
        length := tlv(offset);
        offset := offset + 1;
      }
      if lengthType > LENGTH8 {
        length := length * 256 + tlv(offset);
        offset := offset + 1;
      }
      if lengthType > LENGTH16 {
        length := length * 256 + tlv(offset);
        offset := offset + 1;
      }
    }
  }

  // ----- encoding

  /** Width of the identifier field that the serializer chooses. */
  function IdSize(id: nat): (n: nat) {
    if id > 255 then 2 else 1
  }

  /** Width of the length field that the serializer chooses. */
  function LengthSize(length: nat): (n: nat) {
    if length > 65535 then 3 else if length > 255 then 2 else if length > 7 then 1 else 0
  }

  function TypeByte(kind: nat, id: nat, length: nat): (b: byte)
    requires IsType(kind)
  {
    kind + (IdSize(id) - 1) * ID16 + (if length < 8 then length else LengthSize(length) * LENGTH8)
  }

  function EncodeHeader(kind: nat, id: nat, length: nat): (s: seq<byte>)
    requires IsType(kind)
    ensures |s| == 1 + IdSize(id) + LengthSize(length)
  {
    [TypeByte(kind, id, length)] + LowBytes(id, IdSize(id)) + LowBytes(length, LengthSize(length))
  }

  /**
   * Decoding inverts encoding for every type and 16-bit identifier and consumes exactly the header;
   * the length comes back modulo 2^24, so exactly when it is below 2^24.
   */
  lemma HeaderRoundTrip(m: Memory, at: nat, kind: nat, id: nat, length: nat)
    requires IsType(kind) && id < 0x1_0000
    requires Holds(m, at, EncodeHeader(kind, id, length))
    ensures var h := DecodeHeader(m, at);
      && h.kind == kind && h.id == id && h.length == length % LENGTH_LIMIT
      && h.next == at + |EncodeHeader(kind, id, length)|
      && (h == Header(kind, id, length, h.next) <==> length < LENGTH_LIMIT)
  {
    EncodedFields(m, at, kind, id, length);
    LowBytesFit(id, length);
  }

  lemma EncodedFields(m: Memory, at: nat, kind: nat, id: nat, length: nat)
    requires IsType(kind)
    requires Holds(m, at, EncodeHeader(kind, id, length))
    ensures DecodeHeader(m, at) ==
            Header(kind, id % Pow256(IdSize(id)),
                   if length < 8 then length else length % Pow256(LengthSize(length)),
                   at + 1 + IdSize(id) + LengthSize(length))
  {
    var b := TypeByte(kind, id, length);
    var idBytes, lengthBytes := LowBytes(id, IdSize(id)), LowBytes(length, LengthSize(length));
    HoldsConcat(m, at, [b] + idBytes, lengthBytes);
    HoldsConcat(m, at, [b], idBytes);
    assert m(at + 0) == [b][0];
    TypeByteFields(kind, id, length);
    SliceOfHeld(m, at + 1, idBytes);
    SliceOfHeld(m, at + 1 + IdSize(id), lengthBytes);
    BigEndianOfLowBytes(id, IdSize(id));
    BigEndianOfLowBytes(length, LengthSize(length));
  }

  lemma LowBytesFit(id: nat, length: nat)
    requires id < 0x1_0000
    ensures id % Pow256(IdSize(id)) == id
    ensures (if length < 8 then length else length % Pow256(LengthSize(length))) == length % LENGTH_LIMIT
  {
    Pow256Values();
  }

  lemma TypeByteFields(kind: nat, id: nat, length: nat)
    requires IsType(kind)
    ensures var b := TypeByte(kind, id, length);
      && b / 64 * 64 == kind && 1 + b / 32 % 2 == IdSize(id) && b / 8 % 4 == LengthSize(length)
      && (length < 8 ==> b % 8 == length)
  {
    FieldsOf(kind / 64, IdSize(id) - 1, LengthSize(length), if length < 8 then length else 0);
  }

  lemma FieldsOf(t: nat, i: nat, l: nat, v: nat)
    requires t < 4 && i < 2 && l < 4 && v < 8
    ensures var b := 64 * t + 32 * i + 8 * l + v;
      b / 64 == t && b / 32 % 2 == i && b / 8 % 4 == l && b % 8 == v
  {
    var b := 64 * t + 32 * i + 8 * l + v;
    assert b / 8 == 8 * t + 4 * i + l;
    assert b / 32 == 2 * t + i;
  }

  /** `serialize_TILV`: appends one entry to the data serialized so far. */
  method SerializeTilv(kind: nat, id: nat, value: seq<byte>, data: seq<byte>) returns (tlv: seq<byte>)
    requires IsType(kind) && id < 0x1_0000
    ensures tlv == data + EncodeHeader(kind, id, |value|) + value
  {
    var typeByte := kind + (if id < 256 then 0 else ID16);
    typeByte := typeByte + (if |value| < 8 then |value| else
                            if |value| < 256 then LENGTH8 else
                            if |value| < 65536 then LENGTH16 else LENGTH24);
    var idBytes := SerializeId(id);
    var lengthBytes := SerializeLength(|value|);
    tlv := data + [typeByte] + idBytes + lengthBytes + value;
    assert tlv == data + ([typeByte] + idBytes + lengthBytes) + value;
  }

  method SerializeId(id: nat) returns (s: seq<byte>)
    requires id < 0x1_0000
    ensures s == LowBytes(id, IdSize(id))
  {
    Pow256Values();
    if id > 255 {
      s := [id / 256, id % 256];
    } else {
      s := [id];
    }
  }

  method SerializeLength(length: nat) returns (s: seq<byte>)
    ensures s == LowBytes(length, LengthSize(length))
  {
    Pow256Values();
    if length > 65535 {
      s := [length / 0x1_0000 % 256, length / 256 % 256, length % 256];
    } else if length > 255 {
      s := [length / 256 % 256, length % 256];
    } else if length > 7 {
      s := [length % 256];
    } else {
      s := [];
    }
  }
}
