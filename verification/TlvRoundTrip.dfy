/** The TLV serializer of `m2mtlvserializer.cpp`, and what a PUT of its output restores. */
module TlvRoundTrip {
  import opened Bytes
  import opened M2MString
  import opened TlvHeader
  import opened ObjectModel
  import opened TlvWalk
  import opened TlvFlat
  import opened TlvNested

  /** The bytes a value is sent as: integers in eight bytes, booleans in one, other types as stored. */
  function WireValue(rtype: ResourceType, value: Text): (bytes: seq<byte>) {
    match rtype
    case INTEGER | TIME => LowBytes(Atoll(value), 8)
    case BOOLEAN => [Atoll(value) % 256]
    case STRING | FLOAT | OPAQUE | OBJLINK => value
  }

  predicate Readable(access: nat) {
    BitAnd(access, 0x01) != 0
  }

  function EntryBytes(kind: nat, id: nat, value: seq<byte>): (bytes: seq<byte>)
    requires IsType(kind)
  {
    EncodeHeader(kind, id, |value|) + value
  }

  function InstanceBytes(ris: seq<ResourceInstance>): (bytes: seq<byte>) {
    if ris == [] then []
    else
      var ri := ris[|ris| - 1];
      InstanceBytes(ris[..|ris| - 1]) +
      (if Readable(ri.access) then EntryBytes(TYPE_RESOURCE_INSTANCE, ri.id, WireValue(ri.rtype, ri.value)) else [])
  }

  /** The bytes of one resource; its identifier is sent in 16 bits. */
  function ResourceBytes(r: Resource): (bytes: seq<byte>) {
    if r.multiple then EntryBytes(TYPE_MULTIPLE_RESOURCE, r.nameId % ID_LIMIT, InstanceBytes(r.instances))
    else EntryBytes(TYPE_RESOURCE, r.nameId % ID_LIMIT, WireValue(r.rtype, r.value))
  }

  /** The readable resources, one entry each. */
  function ResourcesBytes(rs: seq<Resource>): (bytes: seq<byte>) {
    if rs == [] then []
    else
      var r := rs[|rs| - 1];
      ResourcesBytes(rs[..|rs| - 1]) + (if Readable(r.access) then ResourceBytes(r) else [])
  }

  /** `common_write_64_bit` of an integer converted to 64 unsigned bits: eight shifts. */
  method CommonWrite64Bit(value: int) returns (bytes: seq<byte>)
    ensures bytes == LowBytes(value, 8)
    ensures Int64(value) ==> AsInt64(BigEndian(bytes)) == value
  {
    var u := value % TWO_TO_64;
    Pow256Values();
    bytes := [u / 0x100_0000_0000_0000 % 256, u / 0x1_0000_0000_0000 % 256, u / 0x100_0000_0000 % 256,
              u / 0x1_0000_0000 % 256, u / 0x100_0000 % 256, u / 0x1_0000 % 256, u / 0x100 % 256, u % 256];
    forall i | 0 <= i < 8
      ensures bytes[i] == LowBytes(value, 8)[i]
    {
      UnsignedByte(value, i);
    }
    if Int64(value) {
      EightByteRoundTrip(value);
    }
  }

  /** The bytes of an integer are those of its 64-bit representation. */
  lemma UnsignedByte(value: int, i: nat)
    requires i < 8
    ensures value % TWO_TO_64 / Pow256(7 - i) % 256 == value / Pow256(7 - i) % 256
  {
    var k := 7 - i;
    Pow256Values();
    var q, u := value / TWO_TO_64, value % TWO_TO_64;
    var p, r := Pow256(k), Pow256(8 - k);
    assert p * r == TWO_TO_64 && r % 256 == 0;
    WholeMultiple(u, q, p, r);
  }

  lemma WholeMultiple(u: nat, q: int, p: nat, r: nat)
    requires p > 0 && r % 256 == 0
    ensures (q * (p * r) + u) / p % 256 == u / p % 256
  {
    var a, b := u / p, u % p;
    var c := r / 256;
    assert q * (p * r) + u == (q * r + a) * p + b by {
      assert q * (p * r) == (q * r) * p;
      assert (q * r + a) * p == (q * r) * p + a * p;
    }
    DivModUnique(q * (p * r) + u, p, q * r + a, b);
    assert q * r == 256 * (q * c) by { assert r == 256 * c; }
    DivModUnique(q * r + a, 256, q * c + a / 256, a % 256);
  }

  /**
   * `serialize_TLV_binary_int` and the plain values beside it. Storing the bytes again gives every
   * value back that the client itself could have stored.
   */
  method SerializeValue(rtype: ResourceType, value: Text) returns (bytes: seq<byte>)
    ensures bytes == WireValue(rtype, value)
    ensures Canonical(rtype, value) ==> StoredValue(rtype, bytes) == value
  {
    hide StoredValue, Canonical;
    match rtype {
      case BOOLEAN =>
        bytes := [Atoll(value) % 256];
      case INTEGER | TIME =>
        bytes := CommonWrite64Bit(Atoll(value));
      case STRING | FLOAT | OPAQUE | OBJLINK =>
        bytes := value;
    }
    if Canonical(rtype, value) {
      ValueRoundTrip(rtype, value);
    }
  }

  method SerializeInstances(ris: seq<ResourceInstance>) returns (data: seq<byte>)
    requires forall k :: 0 <= k < |ris| ==> ris[k].id < ID_LIMIT
    ensures data == InstanceBytes(ris)
  {
    hide EncodeHeader, WireValue, Readable;
    data := [];
    for it := 0 to |ris|
      invariant data == InstanceBytes(ris[..it])
    {
      assert ris[..it + 1][..it] == ris[..it];
      if Readable(ris[it].access) {
        var value := SerializeValue(ris[it].rtype, ris[it].value);
        data := SerializeTilv(TYPE_RESOURCE_INSTANCE, ris[it].id, value, data);
      }
    }
    assert ris[..|ris|] == ris;
  }

  /** `serialize_resources`: nothing is serialized when some name is not a number. */
  method SerializeResources(rs: seq<Resource>) returns (data: Option<seq<byte>>)
    requires forall k, j :: 0 <= k < |rs| && 0 <= j < |rs[k].instances| ==> rs[k].instances[j].id < ID_LIMIT
    ensures data.None? <==> exists k :: 0 <= k < |rs| && rs[k].nameId == -1
    ensures data.Some? ==> data.value == ResourcesBytes(rs)
  {
    hide EncodeHeader, WireValue, Readable, InstanceBytes;
    for it := 0 to |rs|
      invariant forall k :: 0 <= k < it ==> rs[k].nameId != -1
    {
      if rs[it].nameId == -1 {
        return None;
      }
    }
    var out := [];
    for it := 0 to |rs|
      invariant out == ResourcesBytes(rs[..it])
    {
      assert rs[..it + 1][..it] == rs[..it];
      if Readable(rs[it].access) {
        if rs[it].multiple {
          var nested := SerializeInstances(rs[it].instances);
          out := SerializeTilv(TYPE_MULTIPLE_RESOURCE, rs[it].nameId % ID_LIMIT, nested, out);
        } else {
          var value := SerializeValue(rs[it].rtype, rs[it].value);
          out := SerializeTilv(TYPE_RESOURCE, rs[it].nameId % ID_LIMIT, value, out);
        }
      }
    }
    assert rs[..|rs|] == rs;
    data := Some(out);
  }

  // ----- values

  /** Values in the form the client itself stores them. */
  ghost predicate Canonical(rtype: ResourceType, value: Text) {
    match rtype
    case INTEGER | TIME => exists n :: Int64(n) && n != -TWO_TO_63 && value == Decimal(n)
    case BOOLEAN => exists n :: 0 <= n < 256 && value == Decimal(n)
    case STRING | FLOAT | OPAQUE | OBJLINK => |value| < LENGTH_LIMIT
  }

  /** The decimal of a 64-bit integer survives exactly unless it is the smallest one. */
  lemma IntegerSurvivesExactly(n: int)
    requires Int64(n)
    ensures StoredValue(INTEGER, WireValue(INTEGER, Decimal(n))) == Decimal(n) <==> n != -TWO_TO_63
  {
    hide Atoll, Decimal, Printed, BigEndian, LowBytes, AsInt64;
    AtollInvertsDecimal(n);
    EightByteRoundTrip(n);
    PrintedExactly(n);
  }

  /** A canonical value survives being sent and stored. */
  lemma ValueRoundTrip(rtype: ResourceType, value: Text)
    requires Canonical(rtype, value)
    ensures StoredValue(rtype, WireValue(rtype, value)) == value
    ensures |WireValue(rtype, value)| < LENGTH_LIMIT
  {
    match rtype {
      case INTEGER | TIME =>
        var n :| Int64(n) && n != -TWO_TO_63 && value == Decimal(n);
        AtollInvertsDecimal(n);
        EightByteRoundTrip(n);
      case BOOLEAN =>
        var n :| 0 <= n < 256 && value == Decimal(n);
        AtollInvertsDecimal(n);
        assert BigEndian([n]) == n * Pow256(0) + BigEndian([]);
      case STRING | FLOAT | OPAQUE | OBJLINK =>
    }
  }

  /**
   * `convert_integer_to_array`, storing into an INTEGER resource and `get_value_int` give the number
   * back exactly when it is not negative.
   */
  lemma IntegerThroughTlv(v: int)
    requires Int64(v)
    ensures var stored := StoredValue(INTEGER, LowBytes(v, ArraySize(v)));
      Atoll(stored) == (if v < 0 then v % 256 else v) && (Atoll(stored) == v <==> v >= 0)
  {
    ArrayRoundTrip(v);
    AtollInvertsDecimal(AsInt64(BigEndian(LowBytes(v, ArraySize(v)))));
  }

  // ----- a whole object instance

  ghost predicate ExchangeableInstance(ri: ResourceInstance) {
    Readable(ri.access) && !Forbids(ri.access) && ri.id < ID_LIMIT && Canonical(ri.rtype, ri.value)
  }

  /** A resource that is sent whole and may be written again. */
  ghost predicate Exchangeable(r: Resource) {
    && Readable(r.access) && 0 <= r.nameId < ID_LIMIT
    && if r.multiple then
         && (forall k :: 0 <= k < |r.instances| ==> ExchangeableInstance(r.instances[k]))
         && (forall j, k :: 0 <= j < k < |r.instances| ==> r.instances[j].id != r.instances[k].id)
         && |InstanceBytes(r.instances)| < LENGTH_LIMIT
       else !Forbids(r.access) && Canonical(r.rtype, r.value)
  }

  predicate DistinctIds(rs: seq<Resource>) {
    forall j, k :: 0 <= j < k < |rs| ==> rs[j].nameId != rs[k].nameId
  }

  ghost predicate AllExchangeable(rs: seq<Resource>) {
    forall k :: 0 <= k < |rs| ==> Exchangeable(rs[k])
  }

  function WireInstances(ris: seq<ResourceInstance>): (bs: seq<Entry>)
    ensures |bs| == |ris|
  {
    seq(|ris|, k requires 0 <= k < |ris| =>
        Entry(TYPE_RESOURCE_INSTANCE, ris[k].id, WireValue(ris[k].rtype, ris[k].value)))
  }

  function WireItem(r: Resource): (i: Item)
    requires r.nameId >= 0
  {
    if r.multiple then Multiple(r.nameId, WireInstances(r.instances)) else Single(r.nameId, WireValue(r.rtype, r.value))
  }

  function WireItems(rs: seq<Resource>): (items: seq<Item>)
    requires forall k :: 0 <= k < |rs| ==> rs[k].nameId >= 0
    ensures |items| == |rs|
    ensures forall k :: 0 <= k < |rs| ==> items[k] == WireItem(rs[k])
  {
    seq(|rs|, k requires 0 <= k < |rs| => WireItem(rs[k]))
  }

  lemma {:induction false} EncodeAllSnoc(es: seq<Entry>, e: Entry)
    requires AllEncodable(es) && Encodable(e)
    ensures EncodeAll(es + [e]) == EncodeAll(es) + Encode(e)
  {
    hide Encode;
    if es == [] {
      assert (es + [e])[1..] == [];
    } else {
      EncodeAllSnoc(es[1..], e);
      assert (es + [e])[1..] == es[1..] + [e];
    }
  }

  lemma {:induction false} InstancesAsEntries(ris: seq<ResourceInstance>)
    requires forall k :: 0 <= k < |ris| ==> ExchangeableInstance(ris[k])
    ensures Instances(WireInstances(ris)) && AllEncodable(WireInstances(ris))
    ensures InstanceBytes(ris) == EncodeAll(WireInstances(ris))
  {
    hide EncodeHeader, WireValue, Readable, Forbids, Canonical, EncodeAll;
    var bs := WireInstances(ris);
    forall k | 0 <= k < |ris| ensures Encodable(bs[k]) {
      assert ExchangeableInstance(ris[k]);
      ValueRoundTrip(ris[k].rtype, ris[k].value);
    }
    if ris == [] {
      NothingEncoded();
    } else {
      var init, ri := ris[..|ris| - 1], ris[|ris| - 1];
      InstancesAsEntries(init);
      assert bs == WireInstances(init) + [bs[|ris| - 1]];
      EncodeAllSnoc(WireInstances(init), bs[|ris| - 1]);
      assert ExchangeableInstance(ri);
    }
  }

  lemma OneItem(r: Resource)
    requires Exchangeable(r)
    ensures r.nameId >= 0 && Sendable(WireItem(r)) && Readable(r.access)
    ensures ResourceBytes(r) == Encode(EntryOf(WireItem(r)))
  {
    hide EncodeHeader, WireValue, Forbids, Canonical, EncodeAll, InstanceBytes;
    if r.multiple {
      InstancesAsEntries(r.instances);
    } else {
      ValueRoundTrip(r.rtype, r.value);
    }
  }

  lemma {:induction false} BytesOfItems(rs: seq<Resource>)
    requires AllExchangeable(rs)
    ensures forall k :: 0 <= k < |rs| ==> rs[k].nameId >= 0
    ensures AllSendable(WireItems(rs)) && ResourcesBytes(rs) == ItemBytes(WireItems(rs))
  {
    hide ResourceBytes, Encode, Readable, Exchangeable, EncodeAll, WireItem, EntryOf, Sendable;
    forall k | 0 <= k < |rs| ensures rs[k].nameId >= 0 && Sendable(WireItem(rs[k])) {
      assert Exchangeable(rs[k]);
      OneItem(rs[k]);
    }
    var items := WireItems(rs);
    if rs == [] {
      NothingEncoded();
      assert EntriesOf(items) == [];
    } else {
      var init, r := rs[..|rs| - 1], rs[|rs| - 1];
      BytesOfItems(init);
      assert Exchangeable(r);
      OneItem(r);
      assert EntriesOf(items) == EntriesOf(WireItems(init)) + [EntryOf(WireItem(r))];
      EncodeAllSnoc(EntriesOf(WireItems(init)), EntryOf(WireItem(r)));
    }
  }

  predicate SameButInstances(a: seq<ResourceInstance>, b: seq<ResourceInstance>) {
    |a| == |b| && forall k :: 0 <= k < |a| ==> a[k].(value := b[k].value) == b[k]
  }

  /** The same resources and instances, possibly with other values. */
  predicate SameButValues(a: seq<Resource>, b: seq<Resource>) {
    && |a| == |b|
    && forall k :: 0 <= k < |a| ==>
         if b[k].multiple then a[k].(instances := b[k].instances) == b[k] && SameButInstances(a[k].instances, b[k].instances)
         else a[k].(value := b[k].value) == b[k]
  }

  lemma {:induction false} KeepAll(rs: seq<Resource>, ids: set<int>)
    requires forall k :: 0 <= k < |rs| ==> rs[k].nameId in ids
    ensures Keep(rs, ids) == rs
  {
    if rs != [] {
      KeepAll(rs[..|rs| - 1], ids);
      assert rs == rs[..|rs| - 1] + [rs[|rs| - 1]];
    }
  }

  lemma {:induction false} LastValueUnique(es: seq<Entry>, k: nat)
    requires k < |es|
    requires forall i, j :: 0 <= i < j < |es| ==> es[i].id != es[j].id
    ensures es[k].id in Ids(es)
    ensures LastValue(es, es[k].id) == es[k].value
  {
    if k < |es| - 1 {
      var init := es[..|es| - 1];
      assert init[k] == es[k];
      LastValueUnique(init, k);
    }
  }

  lemma DistinctTargets(rs: seq<Resource>, k: nat)
    requires DistinctIds(rs) && k < |rs|
    ensures IsTarget(rs, k)
  {
  }

  predicate DistinctItems(items: seq<Item>) {
    forall j, k :: 0 <= j < k < |items| ==> items[j].id != items[k].id
  }

  /** With distinct identifiers every item stands alone. */
  lemma {:induction false} ItemsAlone(items: seq<Item>, k: nat)
    requires DistinctItems(items) && k < |items|
    ensures items[k].Single? ==>
              items[k].id in Ids(Singles(items)) && LastValue(Singles(items), items[k].id) == items[k].value
    ensures items[k].Multiple? ==> items[k].id !in Ids(Singles(items)) && BelowOf(items, items[k].id) == items[k].below
  {
    hide Ids, LastValue;
    var init, i := items[..|items| - 1], items[|items| - 1];
    var id := items[k].id;
    LastOfSnoc(Singles(init), Entry(TYPE_RESOURCE, i.id, if i.Single? then i.value else []), id);
    if k < |items| - 1 {
      assert init[k] == items[k];
      ItemsAlone(init, k);
      assert Singles(init) + [] == Singles(init) && BelowOf(init, id) + [] == BelowOf(init, id);
    } else {
      NotBefore(init, id);
      assert i.Multiple? ==> [] + i.below == i.below;
      assert Singles(init) + [] == Singles(init);
    }
  }

  lemma {:induction false} NotBefore(items: seq<Item>, id: int)
    requires forall k :: 0 <= k < |items| ==> items[k].id != id
    ensures id !in Ids(Singles(items)) && BelowOf(items, id) == []
  {
    if items != [] {
      var init, i := items[..|items| - 1], items[|items| - 1];
      NotBefore(init, id);
      LastOfSnoc(Singles(init), Entry(TYPE_RESOURCE, i.id, if i.Single? then i.value else []), id);
      assert Singles(init) + [] == Singles(init);
    }
  }

  /** The value that the wire bytes spell is the one that was sent. */
  lemma SpellsBack(rtype: ResourceType, value: Text, text: Text)
    requires Canonical(rtype, value) && Spells(rtype, WireValue(rtype, value), text)
    ensures text == value
  {
    hide Canonical, WireValue, Printed;
    ValueRoundTrip(rtype, value);
  }

  lemma InstancesRestored(target: seq<ResourceInstance>, source: seq<ResourceInstance>, after: seq<ResourceInstance>)
    requires forall k :: 0 <= k < |source| ==> ExchangeableInstance(source[k])
    requires forall j, k :: 0 <= j < k < |source| ==> source[j].id != source[k].id
    requires SameButInstances(target, source) && Wrote(target, after, WireInstances(source))
    ensures after == source
  {
    hide Spells, LastValue, WireValue, Canonical, Ids;
    var bs := WireInstances(source);
    forall k | 0 <= k < |source| ensures after[k] == source[k] {
      LastValueUnique(bs, k);
      assert target[k].(value := source[k].value) == source[k];
      assert IsFirst(target, k) by {
        assert forall j :: 0 <= j < |target| ==> target[j].id == source[j].id;
      }
      assert ExchangeableInstance(source[k]);
      SpellsBack(source[k].rtype, source[k].value, after[k].value);
    }
  }

  lemma Restored(target: seq<Resource>, source: seq<Resource>, after: seq<Resource>, items: seq<Item>)
    requires AllExchangeable(source) && DistinctIds(source) && SameButValues(target, source)
    requires forall k :: 0 <= k < |source| ==> source[k].nameId >= 0
    requires items == WireItems(source) && AllPut(target, after, items)
    ensures after == source
  {
    hide Spells, LastValue, WireValue, Canonical, Ids, Wrote, ExchangeableInstance, Singles, BelowOf, SameButInstances, WireInstances;
    assert DistinctItems(items);
    assert forall k :: 0 <= k < |source| ==> target[k].nameId == source[k].nameId;
    forall k | 0 <= k < |source| ensures after[k] == source[k] {
      ItemsAlone(items, k);
      DistinctTargets(target, k);
      assert PutInto(target[k], after[k], IsTarget(target, k), items);
      assert Exchangeable(source[k]);
      if source[k].multiple {
        InstancesRestored(target[k].instances, source[k].instances, after[k].instances);
      } else {
        SpellsBack(source[k].rtype, source[k].value, after[k].value);
      }
    }
  }

  /** The resource at `n` is the only one with its identifier. */
  lemma OnlyOne(rs: seq<Resource>, n: nat)
    requires DistinctIds(rs) && n < |rs|
    ensures FindNameId(rs, rs[n].nameId) == n
    ensures rs[n].multiple ==> LastMultiple(rs, rs[n].nameId) == n
    ensures ResourceForbids(rs, rs[n].nameId) <==> Forbids(rs[n].access)
  {
    hide Forbids;
    if rs[n].multiple {
      assert IsMultiple(rs[n], rs[n].nameId);
    }
  }

  lemma LastInstanceAccepted(target: seq<ResourceInstance>, source: seq<ResourceInstance>)
    requires source != [] && SameButInstances(target, source)
    requires forall k :: 0 <= k < |source| ==> ExchangeableInstance(source[k])
    ensures var b := WireInstances(source)[|source| - 1].id;
            FindInstanceId(target, b) >= 0 && !InstanceForbids(target, b)
  {
    hide Forbids, Readable, Canonical, WireValue;
    var n := |source| - 1;
    assert target[n].id == source[n].id == WireInstances(source)[n].id;
    forall k | 0 <= k < |target| ensures !Forbids(target[k].access) {
      assert ExchangeableInstance(source[k]);
      assert target[k].access == source[k].access;
    }
  }

  lemma LastAccepted(target: seq<Resource>, source: seq<Resource>)
    requires AllExchangeable(source) && DistinctIds(source) && SameButValues(target, source) && source != []
    requires forall k :: 0 <= k < |source| ==> source[k].nameId >= 0
    requires var r := source[|source| - 1]; r.multiple ==> r.instances != []
    ensures PutVerdict(target, WireItem(source[|source| - 1])) == NoError
  {
    hide Forbids, Readable, Canonical, WireValue, FindNameId, FindInstanceId, LastMultiple, InstanceForbids, ResourceForbids,
         ExchangeableInstance, SameButInstances, WireInstances, InstanceBytes;
    var n := |source| - 1;
    assert Exchangeable(source[n]);
    assert forall k :: 0 <= k < |target| ==> target[k].nameId == source[k].nameId;
    OnlyOne(target, n);
    if source[n].multiple {
      LastInstanceAccepted(target[n].instances, source[n].instances);
    }
  }

  /**
   * Serializing an object instance and putting the payload into an instance with the same resources
   * restores every value, also those of the instances of multiple resources, whatever values were there
   * before. A multiple resource at the end must not be empty, since the walk below it would leave the payload.
   */
  lemma SerializeThenPut(m: Memory, owner: Text, source: seq<Resource>, target: seq<Resource>)
    requires source != [] && AllExchangeable(source) && DistinctIds(source)
    requires var r := source[|source| - 1]; r.multiple ==> r.instances != []
    requires SameButValues(target, source)
    requires Holds(m, 0, ResourcesBytes(source))
    ensures Deserialize(m, |ResourcesBytes(source)|, owner, target, Put) == Outcome(NoError, source)
  {
    hide Exchangeable, Deserialize, AllPut, PutVerdict, Keep, ItemBytes, Holds;
    BytesOfItems(source);
    var items := WireItems(source);
    PutItems(m, owner, target, items);
    LastAccepted(target, source);
    AllNamed(target, source, items);
    KeepAll(target, ItemIds(items));
    Restored(target, source, Deserialize(m, |ResourcesBytes(source)|, owner, target, Put).resources, items);
  }

  lemma AllNamed(target: seq<Resource>, source: seq<Resource>, items: seq<Item>)
    requires SameButValues(target, source) && |items| == |source|
    requires forall k :: 0 <= k < |source| ==> items[k].id == source[k].nameId
    ensures forall k :: 0 <= k < |target| ==> target[k].nameId in ItemIds(items)
  {
    forall k | 0 <= k < |target| ensures target[k].nameId in ItemIds(items) {
      assert items[k].id == target[k].nameId;
    }
  }
}
