/** The meaning of PUT and POST for payloads with multiple resources. */
module TlvNested {
  import opened Bytes
  import opened M2MString
  import opened TlvHeader
  import opened ObjectModel
  import opened StringBuffers
  import opened TlvWalk
  import opened TlvFlat
  import TlvReads

  /** The text that a value of these bytes is: nothing, a decimal, or the bytes themselves. */
  predicate Spells(rtype: ResourceType, bytes: seq<byte>, text: Text) {
    if bytes == [] then text == []
    else match rtype
      case INTEGER | BOOLEAN | TIME => text == Printed(AsInt64(BigEndian(bytes)))
      case STRING | FLOAT | OPAQUE | OBJLINK => text == bytes
  }

  lemma StoredSpells(rtype: ResourceType, bytes: seq<byte>)
    ensures Spells(rtype, bytes, StoredValue(rtype, bytes))
  {
  }

  // ----- the entries below a multiple resource

  /** Encodable entries of type resource instance. */
  predicate Instances(bs: seq<Entry>) {
    forall i :: 0 <= i < |bs| ==> Encodable(bs[i]) && bs[i].kind == TYPE_RESOURCE_INSTANCE
  }

  lemma InstancesEncodable(bs: seq<Entry>)
    requires Instances(bs)
    ensures AllEncodable(bs)
  {
  }

  /** One entry after the other, applied to a resource. */
  function Applied(r: Resource, bs: seq<Entry>, op: Operation, update: bool): (after: Resource)
    decreases |bs|
  {
    if bs == [] then r
    else
      var b := bs[|bs| - 1];
      InstanceStep(Applied(r, bs[..|bs| - 1], op, update), Header(b.kind, b.id, 0, 0), b.value, op, update).resource
  }

  function LastError(r: Resource, bs: seq<Entry>, op: Operation, update: bool): (e: Error)
    requires bs != []
  {
    var b := bs[|bs| - 1];
    InstanceStep(Applied(r, bs[..|bs| - 1], op, update), Header(b.kind, b.id, 0, 0), b.value, op, update).error
  }

  lemma {:induction false} AppliedCons(r: Resource, bs: seq<Entry>, op: Operation, update: bool)
    requires bs != []
    ensures var r1 := InstanceStep(r, Header(bs[0].kind, bs[0].id, 0, 0), bs[0].value, op, update).resource;
            && Applied(r, bs, op, update) == Applied(r1, bs[1..], op, update)
            && (|bs| > 1 ==> LastError(r, bs, op, update) == LastError(r1, bs[1..], op, update))
    decreases |bs|
  {
    hide InstanceStep;
    if |bs| > 1 {
      var init := bs[..|bs| - 1];
      AppliedCons(r, init, op, update);
      assert init[1..] == bs[1..][..|bs| - 2];
    }
  }

  lemma SameStep(r: Resource, h: Header, bytes: seq<byte>, op: Operation, update: bool)
    ensures InstanceStep(r, h, bytes, op, update) == InstanceStep(r, Header(h.kind, h.id, 0, 0), bytes, op, update)
  {
    hide WithInstance, AssignedInstance;
  }

  /** The walk below a multiple resource applies the entries it finds there, and goes on behind them. */
  lemma {:induction false} WalkApplies(m: Memory, size: nat, at: nat, r: Resource, bs: seq<Entry>, op: Operation, update: bool)
    requires Instances(bs) && bs != [] && AllEncodable(bs) && Holds(m, at, EncodeAll(bs))
    requires at + |EncodeAll(bs)| <= size
    ensures var end, r' := at + |EncodeAll(bs)|, Applied(r, bs, op, update);
            WalkInstances(m, size, at, r, op, update) ==
            if end < size then WalkInstances(m, size, end, r', op, update)
            else InstanceOutcome(LastError(r, bs, op, update), r')
    decreases |bs|
  {
    hide InstanceStep, DecodeHeader, Encode, EncodeAll;
    FirstEntry(m, at, bs);
    var h := DecodeHeader(m, at);
    var r1 := InstanceStep(r, h, bs[0].value, op, update).resource;
    SameStep(r, h, bs[0].value, op, update);
    AppliedCons(r, bs, op, update);
    if |bs| > 1 {
      NotNothing(bs[1..]);
      WalkApplies(m, size, at + |Encode(bs[0])|, r1, bs[1..], op, update);
    } else {
      assert bs[..0] == [] && bs[1..] == [];
      NothingEncoded();
    }
  }

  lemma NotNothing(bs: seq<Entry>)
    requires AllEncodable(bs) && bs != []
    ensures |EncodeAll(bs)| > 0
  {
  }

  lemma NothingEncoded()
    ensures EncodeAll([]) == []
  {
  }

  // ----- what they write

  predicate IsFirst(ris: seq<ResourceInstance>, k: nat) {
    k < |ris| && FindInstanceId(ris, ris[k].id) == k
  }

  /** The instance differs in its value only, which is what the bytes spell. */
  predicate Written(ri: ResourceInstance, after: ResourceInstance, bytes: seq<byte>) {
    after == ri.(value := after.value) && Spells(ri.rtype, bytes, after.value)
  }

  /** Each instance that is named has the value of its last entry, and the others are as they were. */
  predicate Wrote(ris: seq<ResourceInstance>, after: seq<ResourceInstance>, bs: seq<Entry>) {
    && |after| == |ris|
    && forall k :: 0 <= k < |ris| ==>
         if IsFirst(ris, k) && ris[k].id in Ids(bs) then Written(ris[k], after[k], LastValue(bs, ris[k].id))
         else after[k] == ris[k]
  }

  lemma SameFirst(a: seq<ResourceInstance>, b: seq<ResourceInstance>, id: nat)
    requires |a| == |b| && forall k :: 0 <= k < |a| ==> a[k].id == b[k].id
    ensures FindInstanceId(a, id) == FindInstanceId(b, id)
  {
    var i, j := FindInstanceId(a, id), FindInstanceId(b, id);
    assert i >= 0 ==> b[i].id == id;
    assert j >= 0 ==> a[j].id == id;
  }

  lemma WroteSnoc(ris: seq<ResourceInstance>, mid: seq<ResourceInstance>, bs: seq<Entry>, b: Entry)
    requires Wrote(ris, mid, bs)
    ensures var i := FindInstanceId(ris, b.id);
            && FindInstanceId(mid, b.id) == i
            && Wrote(ris, if i >= 0 then mid[i := AssignedInstance(mid[i], b.value)] else mid, bs + [b])
  {
    hide Spells, StoredValue;
    SameFirst(ris, mid, b.id);
    IdsSnoc(bs, b);
    var i := FindInstanceId(ris, b.id);
    var after := if i >= 0 then mid[i := AssignedInstance(mid[i], b.value)] else mid;
    assert (bs + [b])[..|bs|] == bs;
    forall k | 0 <= k < |ris|
      ensures if IsFirst(ris, k) && ris[k].id in Ids(bs + [b])
              then Written(ris[k], after[k], LastValue(bs + [b], ris[k].id)) else after[k] == ris[k]
    {
      StoredSpells(ris[k].rtype, b.value);
    }
  }

  lemma NothingWrote(ris: seq<ResourceInstance>)
    ensures Wrote(ris, ris, [])
  {
  }

  /** The update pass writes the last value of each entry, after other entries or from the beginning. */
  lemma {:induction false} AppliedWrites(ris: seq<ResourceInstance>, r: Resource, done: seq<Entry>, bs: seq<Entry>, op: Operation)
    requires Instances(bs) && Wrote(ris, r.instances, done)
    requires op.Post? ==> forall i :: 0 <= i < |bs| ==> FindInstanceId(ris, bs[i].id) >= 0
    ensures var r' := Applied(r, bs, op, true);
            r' == r.(instances := r'.instances) && Wrote(ris, r'.instances, done + bs)
    decreases |bs|
  {
    hide Wrote, AssignedInstance, FindInstanceId;
    if bs == [] {
      assert done + bs == done;
    } else {
      var init, b := bs[..|bs| - 1], bs[|bs| - 1];
      AppliedWrites(ris, r, done, init, op);
      WroteSnoc(ris, Applied(r, init, op, true).instances, done + init, b);
      assert done + bs == done + init + [b];
    }
  }

  /** The check pass of a PUT changes nothing, and its verdict is that of the last entry. */
  lemma {:induction false} AppliedChecks(r: Resource, bs: seq<Entry>)
    requires Instances(bs)
    ensures Applied(r, bs, Put, false) == r
    ensures bs != [] ==>
              var id := bs[|bs| - 1].id;
              LastError(r, bs, Put, false) ==
              if FindInstanceId(r.instances, id) < 0 then NotFound
              else if InstanceForbids(r.instances, id) then NotAllowed else NoError
    decreases |bs|
  {
    hide InstanceForbids, FindInstanceId;
    if bs != [] {
      AppliedChecks(r, bs[..|bs| - 1]);
    }
  }

  /** A new instance as a POST makes it. */
  predicate Made(r: Resource, ri: ResourceInstance) {
    ri == ResourceInstance(ri.id, BoundedPath(r.path, Decimal(ri.id)), r.rtype, GET_PUT_POST_DELETE_ALLOWED, [])
  }

  /** The instances that a POST makes: one for each identifier that is missing. */
  predicate Makes(r: Resource, after: seq<ResourceInstance>, ids: set<int>) {
    var n := |r.instances|;
    && r.instances <= after
    && (forall k :: n <= k < |after| ==>
          Made(r, after[k]) && after[k].id in ids && FindInstanceId(after, after[k].id) == k)
    && forall i: nat :: i in ids ==> FindInstanceId(after, i) >= 0
  }

  lemma MakesNothing(r: Resource)
    ensures Makes(r, r.instances, {})
  {
  }

  lemma MakesOne(r: Resource, mid: Resource, ids: set<int>, id: nat)
    requires r.multiple && mid == r.(instances := mid.instances) && Makes(r, mid.instances, ids)
    ensures var after := WithInstance(mid, mid.rtype, GET_PUT_POST_DELETE_ALLOWED, id);
            after == r.(instances := after.instances) && Makes(r, after.instances, ids + {id})
  {
    hide Decimal, BoundedPath;
    var after := WithInstance(mid, mid.rtype, GET_PUT_POST_DELETE_ALLOWED, id).instances;
    forall k | 0 <= k < |mid.instances| ensures after[k] == mid.instances[k] {
    }
    forall i: nat | FindInstanceId(mid.instances, i) >= 0
      ensures FindInstanceId(after, i) == FindInstanceId(mid.instances, i)
    {
      var k := FindInstanceId(mid.instances, i);
      assert after[k].id == i;
    }
    if FindInstanceId(mid.instances, id) < 0 {
      assert after[|mid.instances|].id == id;
    }
  }

  /** The check pass of a POST makes what is missing, and its verdict is that of the last entry. */
  lemma {:induction false} AppliedMakes(r: Resource, bs: seq<Entry>)
    requires r.multiple && forall i :: 0 <= i < |bs| ==> IsBelow(bs[i].kind)
    ensures var r' := Applied(r, bs, Post, false);
            r' == r.(instances := r'.instances) && Makes(r, r'.instances, Ids(bs))
    ensures bs != [] && bs[|bs| - 1].kind == TYPE_RESOURCE_INSTANCE ==>
              LastError(r, bs, Post, false) == if InstanceForbids(r.instances, bs[|bs| - 1].id) then NotAllowed else NoError
    decreases |bs|
  {
    hide Makes, FindInstanceId, WithInstance, InstanceForbids, Ids;
    if bs == [] {
      MakesNothing(r);
      NoIds();
    } else {
      var init, b := bs[..|bs| - 1], bs[|bs| - 1];
      AppliedMakes(r, init);
      var mid := Applied(r, init, Post, false);
      MakesOne(r, mid, Ids(init), b.id);
      MakesNamed(r, mid.instances, Ids(init), b.id);
      IdsSnoc(init, b);
      assert bs == init + [b];
    }
  }

  lemma NoIds()
    ensures Ids([]) == {}
  {
  }

  /** Naming an instance that is there makes nothing, and what is made may be written. */
  lemma MakesNamed(r: Resource, after: seq<ResourceInstance>, ids: set<int>, id: nat)
    requires Makes(r, after, ids)
    ensures FindInstanceId(after, id) >= 0 ==> Makes(r, after, ids + {id})
    ensures InstanceForbids(after, id) <==> InstanceForbids(r.instances, id)
    ensures InstanceForbids(after, id) ==> FindInstanceId(after, id) >= 0
  {
    hide Decimal, BoundedPath;
    assert !Forbids(GET_PUT_POST_DELETE_ALLOWED);
    if InstanceForbids(r.instances, id) {
      var k :| 0 <= k < |r.instances| && r.instances[k].id == id && Forbids(r.instances[k].access);
      assert after[k].id == id && Forbids(after[k].access);
    }
  }

  // ----- payloads of single and multiple resources

  /** An entry at the resource level before encoding. */
  datatype Item = Single(id: nat, value: seq<byte>) | Multiple(id: nat, below: seq<Entry>)

  predicate Sendable(i: Item) {
    && i.id < ID_LIMIT
    && match i
       case Single(_, value) => |value| < LENGTH_LIMIT
       case Multiple(_, below) =>
         Instances(below) && (InstancesEncodable(below); |EncodeAll(below)| < LENGTH_LIMIT)
  }

  function EntryOf(i: Item): (e: Entry)
    requires Sendable(i)
    ensures Encodable(e) && e.id == i.id
  {
    match i
    case Single(id, value) => Entry(TYPE_RESOURCE, id, value)
    case Multiple(id, below) => InstancesEncodable(below); Entry(TYPE_MULTIPLE_RESOURCE, id, EncodeAll(below))
  }

  predicate AllSendable(items: seq<Item>) {
    forall k :: 0 <= k < |items| ==> Sendable(items[k])
  }

  function EntriesOf(items: seq<Item>): (es: seq<Entry>)
    requires AllSendable(items)
    ensures |es| == |items| && AllEncodable(es)
    ensures forall k :: 0 <= k < |items| ==> es[k] == EntryOf(items[k])
  {
    seq(|items|, k requires 0 <= k < |items| => EntryOf(items[k]))
  }

  function ItemBytes(items: seq<Item>): (bytes: seq<byte>)
    requires AllSendable(items)
  {
    EncodeAll(EntriesOf(items))
  }

  /** The memory holds these items from `at` on. A multiple resource at the end is not empty. */
  ghost predicate HoldsItems(m: Memory, at: nat, items: seq<Item>) {
    && AllSendable(items) && Holds(m, at, ItemBytes(items))
    && (items != [] && items[|items| - 1].Multiple? ==> items[|items| - 1].below != [])
  }

  lemma FirstItem(m: Memory, at: nat, items: seq<Item>)
    requires HoldsItems(m, at, items) && items != []
    ensures var h, e := DecodeHeader(m, at), EntryOf(items[0]);
            && h.kind == e.kind && h.id == items[0].id && Slice(m, h.next, h.length) == e.value
            && h.End() == at + |Encode(e)| && |ItemBytes(items)| == |Encode(e)| + |ItemBytes(items[1..])| && |Encode(e)| > 0
            && HoldsItems(m, h.End(), items[1..])
            && (|items| > 1 <==> |ItemBytes(items[1..])| > 0)
  {
    hide DecodeHeader, Encode, EncodeAll, EntryOf;
    var es := EntriesOf(items);
    FirstEntry(m, at, es);
    assert es[1..] == EntriesOf(items[1..]);
    if |items| > 1 {
      NotNothing(es[1..]);
    } else {
      NothingEncoded();
    }
  }

  /** The entries of a multiple resource stand behind its header. */
  lemma BelowHeld(m: Memory, at: nat, items: seq<Item>)
    requires HoldsItems(m, at, items) && items != [] && items[0].Multiple?
    ensures var h := DecodeHeader(m, at);
            && Instances(items[0].below) && AllEncodable(items[0].below)
            && Holds(m, h.next, EncodeAll(items[0].below)) && h.next + |EncodeAll(items[0].below)| == h.End()
  {
    hide DecodeHeader, Encode, EncodeAll;
    FirstItem(m, at, items);
    var h := DecodeHeader(m, at);
    var value := EncodeAll(items[0].below);
    assert Slice(m, h.next, h.length) == value;
    forall i | 0 <= i < |value| ensures m(h.next + i) == value[i] {
      assert value[i] == Slice(m, h.next, h.length)[i];
    }
  }

  // ----- PUT

  /** What follows the instances of a multiple resource does them no harm in a PUT. */
  lemma {:induction false} TrailingHarmless(m: Memory, at: nat, items: seq<Item>, r: Resource, update: bool)
    requires HoldsItems(m, at, items) && items != []
    ensures WalkInstances(m, at + |ItemBytes(items)|, at, r, Put, update).resource == r
    decreases |items|
  {
    hide DecodeHeader, Encode, ItemBytes;
    FirstItem(m, at, items);
    if items[0].Multiple? && |items| > 1 {
      TrailingHarmless(m, DecodeHeader(m, at).End(), items[1..], r, update);
    }
  }

  lemma PutBelow(m: Memory, at: nat, items: seq<Item>, r: Resource, update: bool)
    requires HoldsItems(m, at, items) && items != [] && items[0].Multiple?
    ensures var bs, size := items[0].below, at + |ItemBytes(items)|;
            var out := WalkInstances(m, size, DecodeHeader(m, at).next, r, Put, update);
            && out.resource == Applied(r, bs, Put, update)
            && (|items| == 1 ==> out.error == LastError(r, bs, Put, update))
  {
    hide DecodeHeader, Encode, ItemBytes, WalkInstances, EncodeAll, Applied;
    var h, bs, size := DecodeHeader(m, at), items[0].below, at + |ItemBytes(items)|;
    FirstItem(m, at, items);
    BelowHeld(m, at, items);
    if bs != [] {
      WalkApplies(m, size, h.next, r, bs, Put, update);
    } else {
      NothingEncoded();
    }
    AppliedNothing(r, update);
    if |items| > 1 {
      TrailingHarmless(m, h.End(), items[1..], Applied(r, bs, Put, update), update);
    }
  }

  lemma AppliedNothing(r: Resource, update: bool)
    ensures Applied(r, [], Put, update) == r
  {
  }

  function Singles(items: seq<Item>): (es: seq<Entry>) {
    if items == [] then []
    else
      var i := items[|items| - 1];
      Singles(items[..|items| - 1]) + if i.Single? then [Entry(TYPE_RESOURCE, i.id, i.value)] else []
  }

  /** All entries below the items for one identifier. */
  function BelowOf(items: seq<Item>, id: int): (bs: seq<Entry>) {
    if items == [] then []
    else
      var i := items[|items| - 1];
      BelowOf(items[..|items| - 1], id) + if i.Multiple? && i.id == id then i.below else []
  }

  function ItemIds(items: seq<Item>): (ids: set<int>) {
    set k | 0 <= k < |items| :: items[k].id
  }

  /** A resource after a PUT: only its value and the values of its instances may change, to those of the last entries. */
  predicate PutInto(a: Resource, b: Resource, target: bool, items: seq<Item>) {
    && b == a.(value := b.value, instances := b.instances)
    && (if target && a.nameId in Ids(Singles(items)) then Spells(a.rtype, LastValue(Singles(items), a.nameId), b.value)
        else b.value == a.value)
    && (if a.multiple then Wrote(a.instances, b.instances, BelowOf(items, a.nameId)) else b.instances == a.instances)
  }

  predicate AllPut(before: seq<Resource>, after: seq<Resource>, items: seq<Item>) {
    |after| == |before| &&
    forall k :: 0 <= k < |before| ==> PutInto(before[k], after[k], IsTarget(before, k), items)
  }

  lemma OneItemMore(done: seq<Item>, i: Item, id: int)
    ensures Singles(done + [i]) == Singles(done) + if i.Single? then [Entry(TYPE_RESOURCE, i.id, i.value)] else []
    ensures BelowOf(done + [i], id) == BelowOf(done, id) + if i.Multiple? && i.id == id then i.below else []
  {
    assert (done + [i])[..|done|] == done;
  }

  lemma LastOfSnoc(es: seq<Entry>, e: Entry, id: int)
    ensures id in Ids(es + [e]) <==> id == e.id || id in Ids(es)
    ensures id == e.id ==> id in Ids(es + [e]) && LastValue(es + [e], id) == e.value
    ensures id != e.id && id in Ids(es) ==> id in Ids(es + [e]) && LastValue(es + [e], id) == LastValue(es, id)
  {
    IdsSnoc(es, e);
    assert (es + [e])[..|es|] == es;
  }

  lemma PutSingle(owner: Text, kept: seq<Resource>, rs: seq<Resource>, done: seq<Item>, i: Item)
    requires i.Single? && AllPut(kept, rs, done)
    ensures AllPut(kept, ResourceStep(owner, rs, i.id, i.value, Put, true).resources, done + [i])
  {
    hide Spells, Wrote, LastValue, Ids, StoredValue, Singles, BelowOf;
    assert forall k :: 0 <= k < |kept| ==> PutInto(kept[k], rs[k], IsTarget(kept, k), done);
    SameTargets(kept, rs);
    var rs' := ResourceStep(owner, rs, i.id, i.value, Put, true).resources;
    forall k | 0 <= k < |kept| ensures PutInto(kept[k], rs'[k], IsTarget(kept, k), done + [i]) {
      OneItemMore(done, i, kept[k].nameId);
      LastOfSnoc(Singles(done), Entry(TYPE_RESOURCE, i.id, i.value), kept[k].nameId);
      StoredSpells(kept[k].rtype, i.value);
      assert BelowOf(done, kept[k].nameId) + [] == BelowOf(done, kept[k].nameId);
    }
  }

  lemma PutMultiple(kept: seq<Resource>, rs: seq<Resource>, done: seq<Item>, i: Item, rs': seq<Resource>)
    requires i.Multiple? && Instances(i.below) && AllPut(kept, rs, done) && |rs'| == |rs|
    requires forall k :: 0 <= k < |rs| ==>
               rs'[k] == if IsMultiple(rs[k], i.id) then Applied(rs[k], i.below, Put, true) else rs[k]
    ensures AllPut(kept, rs', done + [i])
  {
    hide Spells, Wrote, LastValue, Ids, Applied, Singles, BelowOf;
    forall k | 0 <= k < |kept| ensures PutInto(kept[k], rs'[k], IsTarget(kept, k), done + [i]) {
      assert PutInto(kept[k], rs[k], IsTarget(kept, k), done);
      var id := kept[k].nameId;
      OneItemMore(done, i, id);
      assert Singles(done) + [] == Singles(done) && BelowOf(done, id) + [] == BelowOf(done, id);
      if IsMultiple(rs[k], i.id) {
        AppliedWrites(kept[k].instances, rs[k], BelowOf(done, id), i.below, Put);
      }
    }
  }

  /** One item of a PUT at the resource level, in terms of its entries. */
  lemma PutStep(m: Memory, at: nat, items: seq<Item>, owner: Text, rs: seq<Resource>, update: bool, rs': seq<Resource>)
    requires HoldsItems(m, at, items) && items != [] && items[0].Multiple?
    requires rs' == MultipleStep(m, at + |ItemBytes(items)|, owner, rs, DecodeHeader(m, at), Put, update).resources
    ensures |rs'| == |rs|
    ensures forall k :: 0 <= k < |rs| ==>
              rs'[k] == if IsMultiple(rs[k], items[0].id) then Applied(rs[k], items[0].below, Put, update) else rs[k]
  {
    hide DecodeHeader, WalkInstances, Applied, ItemBytes;
    FirstItem(m, at, items);
    forall k | 0 <= k < |rs|
      ensures rs'[k] == if IsMultiple(rs[k], items[0].id) then Applied(rs[k], items[0].below, Put, update) else rs[k]
    {
      PutBelow(m, at, items, rs[k], update);
    }
  }

  /** The update pass of a PUT over the rest of the items. */
  lemma {:induction false} PutWalk(m: Memory, at: nat, items: seq<Item>, owner: Text, kept: seq<Resource>, rs: seq<Resource>,
                                   done: seq<Item>)
    requires HoldsItems(m, at, items) && items != [] && AllPut(kept, rs, done)
    ensures AllPut(kept, WalkResources(m, at + |ItemBytes(items)|, at, owner, rs, Put, true).resources, done + items)
    decreases |items|
  {
    hide DecodeHeader, Encode, ItemBytes, MultipleStep, ResourceStep, AllPut;
    FirstItem(m, at, items);
    var size, h := at + |ItemBytes(items)|, DecodeHeader(m, at);
    var rs' := if items[0].Multiple? then MultipleStep(m, size, owner, rs, h, Put, true).resources
               else ResourceStep(owner, rs, items[0].id, items[0].value, Put, true).resources;
    if items[0].Multiple? {
      PutStep(m, at, items, owner, rs, true, rs');
      BelowHeld(m, at, items);
      PutSame(kept, rs, done);
      PutMultiple(kept, rs, done, items[0], rs');
      PutStepReturns(m, size, owner, rs, h, true);
    } else {
      PutSingle(owner, kept, rs, done, items[0]);
      ResourceStepReturns(owner, rs, items[0].id, items[0].value, Put, true);
    }
    if |items| > 1 {
      PutWalk(m, h.End(), items[1..], owner, kept, rs', done + [items[0]]);
      assert done + [items[0]] + items[1..] == done + items;
    } else {
      assert items == [items[0]];
    }
  }

  lemma PutSame(before: seq<Resource>, after: seq<Resource>, items: seq<Item>)
    requires AllPut(before, after, items)
    ensures |after| == |before|
  {
  }

  /** The verdict on a PUT is that on its last item. */
  function PutVerdict(rs: seq<Resource>, i: Item): (e: Error)
    requires i.Multiple? ==> i.below != []
  {
    match i
    case Single(id, _) => LastVerdict(rs, id)
    case Multiple(id, below) =>
      var last, b := LastMultiple(rs, id), below[|below| - 1].id;
      if last < 0 || FindInstanceId(rs[last].instances, b) < 0 then NotFound
      else if InstanceForbids(rs[last].instances, b) then NotAllowed
      else NoError
  }

  lemma {:induction false} PutCheck(m: Memory, at: nat, items: seq<Item>, owner: Text, rs: seq<Resource>)
    requires HoldsItems(m, at, items) && items != []
    ensures WalkResources(m, at + |ItemBytes(items)|, at, owner, rs, Put, false) ==
            Outcome(PutVerdict(rs, items[|items| - 1]), rs)
    decreases |items|
  {
    hide DecodeHeader, Encode, ItemBytes, MultipleStep;
    FirstItem(m, at, items);
    var size, h := at + |ItemBytes(items)|, DecodeHeader(m, at);
    CheckStepChangesNothing(m, size, owner, rs, h, Slice(m, h.next, h.length));
    PutStepReturns(m, size, owner, rs, h, false);
    if |items| > 1 {
      PutCheck(m, h.End(), items[1..], owner, rs);
    } else if items[0].Multiple? {
      PutCheckBelow(m, at, items, owner, rs);
    }
  }

  lemma PutCheckBelow(m: Memory, at: nat, items: seq<Item>, owner: Text, rs: seq<Resource>)
    requires HoldsItems(m, at, items) && |items| == 1 && items[0].Multiple?
    ensures MultipleStep(m, at + |ItemBytes(items)|, owner, rs, DecodeHeader(m, at), Put, false).error ==
            PutVerdict(rs, items[0])
  {
    hide DecodeHeader, Encode, ItemBytes, WalkInstances, Applied, LastError, InstanceForbids, FindInstanceId;
    FirstItem(m, at, items);
    BelowHeld(m, at, items);
    var last := LastMultiple(rs, items[0].id);
    if last >= 0 {
      PutBelow(m, at, items, rs[last], false);
      AppliedChecks(rs[last], items[0].below);
    }
  }

  lemma NothingPut(rs: seq<Resource>)
    ensures AllPut(rs, rs, [])
  {
    hide Wrote;
    forall k | 0 <= k < |rs| ensures PutInto(rs[k], rs[k], IsTarget(rs, k), []) {
      NothingWrote(rs[k].instances);
    }
  }

  lemma ItemIdsAre(items: seq<Item>)
    requires AllSendable(items)
    ensures Ids(EntriesOf(items)) == ItemIds(items)
  {
    hide EntryOf;
    forall x | x in ItemIds(items) ensures x in Ids(EntriesOf(items)) {
      var k :| 0 <= k < |items| && items[k].id == x;
      assert EntriesOf(items)[k].id == x;
    }
  }

  /**
   * PUT of any single and multiple resources. The verdict is that of the last item, and an error changes
   * nothing. Otherwise exactly the resources that are named are left, in their order, and each has the
   * values that the last entries for it and for its instances spell.
   */
  lemma PutItems(m: Memory, owner: Text, rs: seq<Resource>, items: seq<Item>)
    requires HoldsItems(m, 0, items) && items != []
    ensures var out := Deserialize(m, |ItemBytes(items)|, owner, rs, Put);
            && out.error == PutVerdict(rs, items[|items| - 1])
            && (if out.error == NoError then AllPut(Keep(rs, ItemIds(items)), out.resources, items) else out.resources == rs)
  {
    hide DecodeHeader, Encode, ItemBytes, WalkResources, WalkIds, Keep, AllPut, PutVerdict, EncodeAll, Deserialize, EntryOf,
         Holds, Sendable, ItemIds, EntriesOf;
    var size, ids := |ItemBytes(items)|, ItemIds(items);
    var kept := Keep(rs, ids);
    PutCheck(m, 0, items, owner, rs);
    NamedIds(m, items);
    NothingPut(kept);
    PutWalk(m, 0, items, owner, kept, kept, []);
    assert [] + items == items;
    PutPasses(m, size, owner, rs, ids);
    if PutVerdict(rs, items[|items| - 1]) == NoError {
      SameShapesReflexive(kept);
      UpdateFollowsCheck(m, size, 0, owner, rs, ids, kept);
    }
  }

  lemma NamedIds(m: Memory, items: seq<Item>)
    requires HoldsItems(m, 0, items) && items != []
    ensures WalkIds(m, |ItemBytes(items)|, 0) == ItemIds(items) && |ItemBytes(items)| > 0
    ensures var kind := DecodeHeader(m, 0).kind; kind == TYPE_RESOURCE || kind == TYPE_MULTIPLE_RESOURCE
  {
    hide DecodeHeader, WalkIds, Encode;
    FirstItem(m, 0, items);
    WalkIdsAreFlat(m, 0, EntriesOf(items));
    ItemIdsAre(items);
  }

  lemma PutPasses(m: Memory, size: nat, owner: Text, rs: seq<Resource>, ids: set<int>)
    requires DecodeHeader(m, 0).kind == TYPE_RESOURCE || DecodeHeader(m, 0).kind == TYPE_MULTIPLE_RESOURCE
    requires ids == WalkIds(m, size, 0)
    ensures var check := WalkResources(m, size, 0, owner, rs, Put, false);
            Deserialize(m, size, owner, rs, Put) ==
            if check.error != NoError then check
            else WalkResources(m, size, 0, owner, Keep(check.resources, ids), Put, true)
  {
    hide WalkResources, WalkIds, DecodeHeader, Keep;
  }

  // ----- POST

  /** The multiple resources at the front of the items. */
  function Leading(items: seq<Item>): (es: seq<Entry>)
    requires AllSendable(items)
    ensures forall i :: 0 <= i < |es| ==> es[i].kind == TYPE_MULTIPLE_RESOURCE
  {
    if items == [] || items[0].Single? then [] else [EntryOf(items[0])] + Leading(items[1..])
  }

  lemma LeadingOne(items: seq<Item>)
    requires AllSendable(items) && items != [] && items[0].Multiple?
    ensures Leading(items) != [] && Leading(items)[0] == EntryOf(items[0]) && Leading(items)[1..] == Leading(items[1..])
  {
  }

  /** The walk below a multiple resource of a POST takes the multiple resources that follow for instances. */
  lemma {:induction false} TrailingApplies(m: Memory, at: nat, items: seq<Item>, r: Resource, update: bool)
    requires HoldsItems(m, at, items) && items != []
    ensures WalkInstances(m, at + |ItemBytes(items)|, at, r, Post, update).resource ==
            Applied(r, Leading(items), Post, update)
    decreases |items|
  {
    hide DecodeHeader, Encode, ItemBytes, InstanceStep, Leading, Applied, EntryOf;
    FirstItem(m, at, items);
    ItemKind(items[0]);
    NoLeading(r, update);
    if items[0].Multiple? {
      var h := DecodeHeader(m, at);
      var bytes := Slice(m, h.next, h.length);
      LeadingOne(items);
      SameStep(r, h, bytes, Post, update);
      AppliedCons(r, Leading(items), Post, update);
      if |items| > 1 {
        TrailingApplies(m, h.End(), items[1..], InstanceStep(r, h, bytes, Post, update).resource, update);
      } else {
        AppliedNone(InstanceStep(r, h, bytes, Post, update).resource, items[1..], update);
      }
    } else {
      AppliedNone(r, items, update);
    }
  }

  lemma ItemKind(i: Item)
    requires Sendable(i)
    ensures EntryOf(i).kind == if i.Multiple? then TYPE_MULTIPLE_RESOURCE else TYPE_RESOURCE
  {
  }

  lemma NoLeading(r: Resource, update: bool)
    ensures Applied(r, [], Post, update) == r
  {
  }

  lemma AppliedNone(r: Resource, items: seq<Item>, update: bool)
    requires AllSendable(items) && (items == [] || items[0].Single?)
    ensures Applied(r, Leading(items), Post, update) == r
  {
  }

  lemma {:induction false} AppliedBoth(r: Resource, a: seq<Entry>, b: seq<Entry>, op: Operation, update: bool)
    ensures Applied(r, a + b, op, update) == Applied(Applied(r, a, op, update), b, op, update)
    decreases |b|
  {
    hide InstanceStep;
    if b == [] {
      assert a + b == a;
    } else {
      AppliedBoth(r, a, b[..|b| - 1], op, update);
      assert (a + b)[..|a + b| - 1] == a + b[..|b| - 1];
    }
  }

  /** What a POST applies to a multiple resource: its entries, and the multiple resources that directly follow. */
  lemma PostBelow(m: Memory, at: nat, items: seq<Item>, r: Resource, update: bool)
    requires HoldsItems(m, at, items) && items != [] && items[0].Multiple?
    ensures var bs, size := items[0].below, at + |ItemBytes(items)|;
            var out := WalkInstances(m, size, DecodeHeader(m, at).next, r, Post, update);
            && out.resource == Applied(r, bs + Leading(items[1..]), Post, update)
            && (|items| == 1 ==> out.error == LastError(r, bs, Post, update))
  {
    hide DecodeHeader, Encode, ItemBytes, WalkInstances, EncodeAll, Applied, Leading;
    var h, bs, size := DecodeHeader(m, at), items[0].below, at + |ItemBytes(items)|;
    FirstItem(m, at, items);
    BelowHeld(m, at, items);
    if bs != [] {
      WalkApplies(m, size, h.next, r, bs, Post, update);
    } else {
      NothingEncoded();
      NoLeading(r, update);
    }
    AppliedBoth(r, bs, Leading(items[1..]), Post, update);
    if |items| > 1 {
      TrailingApplies(m, h.End(), items[1..], Applied(r, bs, Post, update), update);
    } else {
      AppliedNone(Applied(r, bs, Post, update), items[1..], update);
    }
  }

  lemma MadeExactly(r: Resource, after: seq<ResourceInstance>, ids: set<int>, i: nat)
    requires Makes(r, after, ids)
    ensures FindInstanceId(after, i) >= 0 <==> FindInstanceId(r.instances, i) >= 0 || i in ids
  {
    hide Made;
    var k := FindInstanceId(after, i);
    var j := FindInstanceId(r.instances, i);
    assert j >= 0 ==> after[j].id == i;
    assert 0 <= k < |r.instances| ==> r.instances[k].id == i;
  }

  /**
   * The instances that a multiple resource has after the check pass of a POST: the old ones, the ones named
   * below it, and one for each multiple resource that directly follows it in the payload.
   */
  lemma PostMakesExactly(m: Memory, at: nat, items: seq<Item>, r: Resource, i: nat)
    requires HoldsItems(m, at, items) && items != [] && items[0].Multiple? && r.multiple
    ensures var r' := WalkInstances(m, at + |ItemBytes(items)|, DecodeHeader(m, at).next, r, Post, false).resource;
            FindInstanceId(r'.instances, i) >= 0 <==>
            || FindInstanceId(r.instances, i) >= 0
            || i in Ids(items[0].below)
            || exists k :: 0 < k < |items| && items[k].id == i && forall j :: 0 < j <= k ==> items[j].Multiple?
  {
    hide DecodeHeader, ItemBytes, WalkInstances, Applied, FindInstanceId, Makes, Ids;
    var bs, rest := items[0].below, items[1..];
    PostBelow(m, at, items, r, false);
    BelowHeld(m, at, items);
    AppliedMakes(r, bs + Leading(rest));
    MadeExactly(r, Applied(r, bs + Leading(rest), Post, false).instances, Ids(bs + Leading(rest)), i);
    IdsConcat(bs, Leading(rest), i);
    LeadingIds(rest, i);
    assert (exists k :: 0 <= k < |rest| && rest[k].id == i && forall j :: 0 <= j <= k ==> rest[j].Multiple?) <==>
           (exists k :: 0 < k < |items| && items[k].id == i && forall j :: 0 < j <= k ==> items[j].Multiple?) by {
      Shifted(items, i);
    }
  }

  lemma Shifted(items: seq<Item>, i: nat)
    requires items != []
    ensures var rest := items[1..];
            (exists k :: 0 <= k < |rest| && rest[k].id == i && forall j :: 0 <= j <= k ==> rest[j].Multiple?) <==>
            (exists k :: 0 < k < |items| && items[k].id == i && forall j :: 0 < j <= k ==> items[j].Multiple?)
  {
    var rest := items[1..];
    if k :| 0 <= k < |rest| && rest[k].id == i && forall j :: 0 <= j <= k ==> rest[j].Multiple? {
      assert items[k + 1].id == i;
      assert forall j :: 0 < j <= k + 1 ==> items[j] == rest[j - 1];
    }
    if k :| 0 < k < |items| && items[k].id == i && forall j :: 0 < j <= k ==> items[j].Multiple? {
      assert rest[k - 1].id == i;
      assert forall j :: 0 <= j <= k - 1 ==> rest[j] == items[j + 1];
    }
  }

  lemma IdsConcat(a: seq<Entry>, b: seq<Entry>, i: int)
    ensures i in Ids(a + b) <==> i in Ids(a) || i in Ids(b)
  {
    if i in Ids(a) {
      var k :| 0 <= k < |a| && a[k].id == i;
      assert (a + b)[k].id == i;
    }
    if i in Ids(b) {
      var k :| 0 <= k < |b| && b[k].id == i;
      assert (a + b)[|a| + k].id == i;
    }
  }

  lemma {:induction false} LeadingIds(items: seq<Item>, i: nat)
    requires AllSendable(items)
    ensures i in Ids(Leading(items)) <==>
            exists k :: 0 <= k < |items| && items[k].id == i && forall j :: 0 <= j <= k ==> items[j].Multiple?
    decreases |items|
  {
    if items != [] && items[0].Multiple? {
      LeadingIds(items[1..], i);
      LeadingOne(items);
      IdsCons(Leading(items));
      Shifted(items, i);
      if i != items[0].id {
        if k :| 0 <= k < |items| && items[k].id == i && forall j :: 0 <= j <= k ==> items[j].Multiple? {
          assert 0 < k;
        }
      }
    }
  }

  /** The resource gets the missing instances and, if the POST is accepted, the values of the last entries. */
  ghost predicate PostInto(a: Resource, b: Resource, bs: seq<Entry>, accepted: bool) {
    && b == a.(instances := b.instances)
    && if accepted then exists made :: Makes(a, made, Ids(bs)) && Wrote(made, b.instances, bs)
       else Makes(a, b.instances, Ids(bs))
  }

  ghost predicate AllPosted(before: seq<Resource>, after: seq<Resource>, id: int, bs: seq<Entry>, accepted: bool) {
    && |after| == |before|
    && forall k :: 0 <= k < |before| ==>
         if IsMultiple(before[k], id) then PostInto(before[k], after[k], bs, accepted) else after[k] == before[k]
  }

  lemma AppliedPosts(r: Resource, bs: seq<Entry>)
    requires r.multiple && Instances(bs)
    ensures var r1 := Applied(r, bs, Post, false);
            PostInto(r, r1, bs, false) && PostInto(r, Applied(r1, bs, Post, true), bs, true)
  {
    hide Applied, Makes, Wrote, FindInstanceId;
    AppliedMakes(r, bs);
    var r1 := Applied(r, bs, Post, false);
    MadeAll(r, r1.instances, bs);
    NothingWrote(r1.instances);
    AppliedWrites(r1.instances, r1, [], bs, Post);
    assert [] + bs == bs;
  }

  lemma MadeAll(r: Resource, after: seq<ResourceInstance>, bs: seq<Entry>)
    requires Makes(r, after, Ids(bs))
    ensures forall i :: 0 <= i < |bs| ==> FindInstanceId(after, bs[i].id) >= 0
  {
  }

  /** What is there for the entries of one item: the old resources, or a new one with them. */
  function Places(owner: Text, rs: seq<Resource>, id: nat): (all: seq<Resource>) {
    if LastMultiple(rs, id) >= 0 then rs else rs + [Created(owner, id, true)]
  }

  lemma PlacesAre(owner: Text, rs: seq<Resource>, id: nat)
    requires id < ID_LIMIT
    ensures var all := Places(owner, rs, id);
            && LastMultiple(all, id) >= 0
            && (LastMultiple(rs, id) < 0 ==>
                  forall k :: 0 <= k < |all| ==> (IsMultiple(all[k], id) <==> k == |rs|))
  {
    NameIdOfDecimal(id);
    var all := Places(owner, rs, id);
    if LastMultiple(rs, id) < 0 {
      assert all[|rs|] == Created(owner, id, true);
      assert IsMultiple(all[|all| - 1], id);
    }
  }

  lemma PlaceIsBlank(owner: Text, rs: seq<Resource>, id: nat)
    requires id < ID_LIMIT
    ensures LastMultiple(rs, id) < 0 ==> exists r :: Places(owner, rs, id) == rs + [r] && Blank(owner, r, id, true)
  {
    hide Blank, Created;
    CreatedIsBlank(owner, id, true);
  }

  /** One pass over a single multiple resource, in terms of its entries. */
  lemma PostPass(m: Memory, owner: Text, rs: seq<Resource>, i: Item, update: bool)
    requires HoldsItems(m, 0, [i]) && i.Multiple?
    requires LastMultiple(rs, i.id) >= 0 || FindName(rs, Decimal(i.id)) < 0
    ensures var all, out := Places(owner, rs, i.id), WalkResources(m, |ItemBytes([i])|, 0, owner, rs, Post, update);
            && |out.resources| == |all| && LastMultiple(all, i.id) >= 0
            && out.error == LastError(all[LastMultiple(all, i.id)], i.below, Post, update)
            && forall k :: 0 <= k < |all| ==>
                 out.resources[k] == if IsMultiple(all[k], i.id) then Applied(all[k], i.below, Post, update) else all[k]
  {
    hide DecodeHeader, Encode, ItemBytes, WalkInstances, Applied, LastError, Created, Decimal, Holds, Sendable;
    ItemHeld(m, i);
    var h, size := DecodeHeader(m, 0), |ItemBytes([i])|;
    var all := Places(owner, rs, i.id);
    PlacesAre(owner, rs, i.id);
    forall r ensures var out := WalkInstances(m, size, h.next, r, Post, update);
                     out.resource == Applied(r, i.below, Post, update) && out.error == LastError(r, i.below, Post, update)
    {
      PostOne(m, i, r, update);
    }
    InstancesReturn(m, size, h.next, all[LastMultiple(all, i.id)], Post, update);
  }

  lemma PostOne(m: Memory, i: Item, r: Resource, update: bool)
    requires HoldsItems(m, 0, [i]) && i.Multiple?
    ensures WalkInstances(m, |ItemBytes([i])|, DecodeHeader(m, 0).next, r, Post, update) ==
            InstanceOutcome(LastError(r, i.below, Post, update), Applied(r, i.below, Post, update))
  {
    hide DecodeHeader, ItemBytes, WalkInstances, Applied, LastError, EncodeAll;
    PostBelow(m, 0, [i], r, update);
    assert [i][1..] == [];
    assert Leading([]) == [];
    assert i.below + [] == i.below;
    ItemHeld(m, i);
  }

  lemma ItemHeld(m: Memory, i: Item)
    requires HoldsItems(m, 0, [i]) && i.Multiple?
    ensures var h := DecodeHeader(m, 0);
            && h.kind == TYPE_MULTIPLE_RESOURCE && h.id == i.id < ID_LIMIT && h.End() == |ItemBytes([i])| > 0
            && Instances(i.below) && i.below != []
  {
    hide DecodeHeader, Encode, EncodeAll;
    FirstItem(m, 0, [i]);
    BelowHeld(m, 0, [i]);
    assert EntriesOf([i][1..]) == [];
    NothingEncoded();
  }

  lemma PostedInto(m: Memory, owner: Text, rs: seq<Resource>, i: Item)
    requires HoldsItems(m, 0, [i]) && i.Multiple?
    requires LastMultiple(rs, i.id) >= 0 || FindName(rs, Decimal(i.id)) < 0
    ensures var out := Deserialize(m, |ItemBytes([i])|, owner, rs, Post);
            var last, b := LastMultiple(rs, i.id), i.below[|i.below| - 1].id;
            && out.error == (if last >= 0 && InstanceForbids(rs[last].instances, b) then NotAllowed else NoError)
            && AllPosted(Places(owner, rs, i.id), out.resources, i.id, i.below, out.error == NoError)
  {
    hide DecodeHeader, WalkResources, ItemBytes, Applied, Created, Decimal, InstanceForbids, AllPosted, LastError, FindInstanceId,
         Holds, Sendable, Places;
    ItemHeld(m, i);
    PostPass(m, owner, rs, i, false);
    var all := Places(owner, rs, i.id);
    var checked := WalkResources(m, |ItemBytes([i])|, 0, owner, rs, Post, false);
    PostVerdict(owner, rs, i);
    BothPosted(all, checked.resources, i);
    SamePlaces(owner, all, checked.resources, i.id);
    if checked.error == NoError {
      PostPass(m, owner, checked.resources, i, true);
      AppliedAccepts(checked.resources[LastMultiple(checked.resources, i.id)], i.below);
      var after := WalkResources(m, |ItemBytes([i])|, 0, owner, checked.resources, Post, true).resources;
      WrittenAfter(all, checked.resources, after, i);
    }
  }

  /**
   * POST of one multiple resource. It is refused exactly when its last instance may not be written. What is
   * missing is made even then; otherwise each instance that is named has the value of its last entry.
   */
  lemma PostMultiple(m: Memory, owner: Text, rs: seq<Resource>, i: Item)
    requires HoldsItems(m, 0, [i]) && i.Multiple?
    requires LastMultiple(rs, i.id) >= 0 || FindName(rs, Decimal(i.id)) < 0
    ensures var out := Deserialize(m, |ItemBytes([i])|, owner, rs, Post);
            var last, b := LastMultiple(rs, i.id), i.below[|i.below| - 1].id;
            && out.error == (if last >= 0 && InstanceForbids(rs[last].instances, b) then NotAllowed else NoError)
            && AllPosted(Places(owner, rs, i.id), out.resources, i.id, i.below, out.error == NoError)
            && (last < 0 ==> exists r :: Places(owner, rs, i.id) == rs + [r] && Blank(owner, r, i.id, true))
  {
    hide Deserialize, DecodeHeader, ItemBytes, Places, Blank, AllPosted, InstanceForbids, Sendable;
    PostedInto(m, owner, rs, i);
    PlaceIsBlank(owner, rs, i.id) by { ItemHeld(m, i); }
  }

  lemma PostVerdict(owner: Text, rs: seq<Resource>, i: Item)
    requires i.Multiple? && i.id < ID_LIMIT && Instances(i.below) && i.below != []
    ensures var all, last := Places(owner, rs, i.id), LastMultiple(rs, i.id);
            && LastMultiple(all, i.id) >= 0
            && LastError(all[LastMultiple(all, i.id)], i.below, Post, false) ==
               if last >= 0 && InstanceForbids(rs[last].instances, i.below[|i.below| - 1].id) then NotAllowed else NoError
  {
    hide Applied, InstanceForbids, LastError, FindInstanceId, Makes;
    PlacesAre(owner, rs, i.id);
    var all := Places(owner, rs, i.id);
    AppliedMakes(all[LastMultiple(all, i.id)], i.below);
    NewHasNone(owner, i.id);
  }

  /** The check pass has posted everything but the values. */
  lemma BothPosted(all: seq<Resource>, checked: seq<Resource>, i: Item)
    requires i.Multiple? && Instances(i.below) && |checked| == |all|
    requires forall k :: 0 <= k < |all| ==>
               checked[k] == if IsMultiple(all[k], i.id) then Applied(all[k], i.below, Post, false) else all[k]
    ensures AllPosted(all, checked, i.id, i.below, false)
    ensures forall k :: 0 <= k < |all| && IsMultiple(all[k], i.id) ==> IsMultiple(checked[k], i.id)
  {
    hide Applied, Makes, Wrote;
    forall k | 0 <= k < |all| && IsMultiple(all[k], i.id)
      ensures IsMultiple(checked[k], i.id) && PostInto(all[k], checked[k], i.below, false)
    {
      AppliedPosts(all[k], i.below);
    }
  }

  lemma WrittenAfter(all: seq<Resource>, checked: seq<Resource>, after: seq<Resource>, i: Item)
    requires i.Multiple? && Instances(i.below) && |after| == |checked| == |all|
    requires forall k :: 0 <= k < |all| ==>
               checked[k] == if IsMultiple(all[k], i.id) then Applied(all[k], i.below, Post, false) else all[k]
    requires forall k :: 0 <= k < |all| && IsMultiple(all[k], i.id) ==> IsMultiple(checked[k], i.id)
    requires forall k :: 0 <= k < |all| ==>
               after[k] == if IsMultiple(checked[k], i.id) then Applied(checked[k], i.below, Post, true) else checked[k]
    ensures AllPosted(all, after, i.id, i.below, true)
  {
    hide Applied, PostInto;
    forall k | 0 <= k < |all| && IsMultiple(all[k], i.id) ensures PostInto(all[k], after[k], i.below, true) {
      AppliedPosts(all[k], i.below);
    }
  }

  lemma NewHasNone(owner: Text, id: nat)
    ensures forall i: nat :: !InstanceForbids(Created(owner, id, true).instances, i)
  {
  }

  lemma SamePlaces(owner: Text, a: seq<Resource>, b: seq<Resource>, id: nat)
    requires |a| == |b| && LastMultiple(a, id) >= 0
    requires forall k :: 0 <= k < |a| ==> (IsMultiple(a[k], id) ==> IsMultiple(b[k], id)) && (!IsMultiple(a[k], id) ==> b[k] == a[k])
    ensures LastMultiple(b, id) == LastMultiple(a, id) && Places(owner, b, id) == b
  {
    var x, y := LastMultiple(a, id), LastMultiple(b, id);
    assert IsMultiple(b[x], id);
    assert y >= 0 ==> IsMultiple(a[y], id);
  }

  /** The update pass refuses nothing. */
  lemma AppliedAccepts(r: Resource, bs: seq<Entry>)
    requires bs != [] && Instances(bs)
    ensures LastError(r, bs, Post, true) == NoError
  {
    hide Applied, FindInstanceId, WithInstance;
  }

  // ----- a stray instance

  /** The instance 0 without a value. */
  const ZEROTH: Entry := Entry(TYPE_RESOURCE_INSTANCE, 0, [])

  /** Two multiple resources of one instance each, in eight bytes. */
  const TWO: seq<Item> := [Multiple(5, [ZEROTH]), Multiple(6, [ZEROTH])]

  function TwoBytes(): (m: Memory) {
    i => if i == 0 || i == 4 then 0x82 else if i == 1 then 5 else if i == 5 then 6 else if i == 2 || i == 6 then 0x40 else 0
  }

  lemma ZerothBytes()
    ensures Instances([ZEROTH]) && AllEncodable([ZEROTH]) && EncodeAll([ZEROTH]) == [0x40, 0]
  {
    hide EncodeAll;
    assert EncodeHeader(TYPE_RESOURCE_INSTANCE, 0, 0) == [0x40, 0] by { SmallHeader(TYPE_RESOURCE_INSTANCE, 0, 0); }
    assert Encode(ZEROTH) == [0x40, 0];
    OneEncoded(ZEROTH);
  }

  lemma OneEncoded(e: Entry)
    requires Encodable(e)
    ensures AllEncodable([e]) && EncodeAll([e]) == Encode(e)
  {
    hide Encode;
    assert [e][1..] == [];
    assert EncodeAll([e]) == Encode(e) + [];
  }

  lemma SmallHeader(kind: nat, id: nat, length: nat)
    requires IsType(kind) && id < 256 && length < 8
    ensures EncodeHeader(kind, id, length) == [kind + length, id]
  {
    assert Pow256(0) == 1;
    assert LowBytes(id, 1) == [id] && LowBytes(length, 0) == [];
  }

  lemma TwoHeld()
    ensures HoldsItems(TwoBytes(), 0, TWO) && |ItemBytes(TWO)| == 8
  {
    hide EncodeAll, EncodeHeader, Holds;
    ZerothBytes();
    var es := EntriesOf(TWO);
    SmallHeader(TYPE_MULTIPLE_RESOURCE, 5, 2);
    SmallHeader(TYPE_MULTIPLE_RESOURCE, 6, 2);
    TwoEncoded(es);
    assert ItemBytes(TWO) == [0x82, 5, 0x40, 0, 0x82, 6, 0x40, 0];
    TwoRead();
  }

  lemma TwoEncoded(es: seq<Entry>)
    requires AllEncodable(es) && |es| == 2
    ensures EncodeAll(es) == Encode(es[0]) + Encode(es[1])
  {
    hide Encode;
    assert es[1..] == [es[1]];
    OneEncoded(es[1]);
  }

  lemma TwoRead()
    ensures Holds(TwoBytes(), 0, [0x82, 5, 0x40, 0, 0x82, 6, 0x40, 0])
  {
  }

  lemma {:induction false} WalkGrows(m: Memory, size: nat, offset: nat, owner: Text, rs: seq<Resource>, op: Operation, update: bool)
    ensures TlvReads.AllGrown(rs, WalkResources(m, size, offset, owner, rs, op, update).resources)
    decreases Remaining(size, offset)
  {
    hide DecodeHeader, WalkResources, TlvReads.Entry, TlvReads.AllGrown;
    var h := DecodeHeader(m, offset);
    TlvReads.WalkOne(m, size, offset, owner, rs, op, update);
    SameGrown(rs);
    if h.kind != TYPE_OBJECT_INSTANCE {
      var o := TlvReads.Entry(m, size, owner, rs, h, op, update);
      TlvReads.EntryGrows(m, size, owner, rs, h, op, update);
      if o.error != NullRead && h.End() < size {
        WalkGrows(m, size, h.End(), owner, o.resources, op, update);
        TlvReads.GrownAll(rs, o.resources, WalkResources(m, size, h.End(), owner, o.resources, op, update).resources);
      }
    }
  }

  lemma SameGrown(rs: seq<Resource>)
    ensures TlvReads.AllGrown(rs, rs)
  {
    forall k | 0 <= k < |rs| ensures TlvReads.Grown(rs[k], rs[k]) {
      TlvReads.GrownSame(rs[k]);
    }
  }

  /** Posted to an empty object instance, they give the resource 5 an instance 6 that the payload does not name. */
  lemma PostAddsStray(owner: Text)
    ensures TlvReads.HasInstance(Deserialize(TwoBytes(), 8, owner, [], Post).resources, 5, 6)
  {
    hide DecodeHeader, ItemBytes, WalkInstances, FindInstanceId, HoldsItems, WalkResources, TlvReads.AllGrown,
         TlvReads.HasInstance, Created, TlvReads.Entry, Decimal;
    var m := TwoBytes();
    TwoHeld();
    var h := DecodeHeader(m, 0);
    StrayMade(owner);
    var rs := TlvReads.Entry(m, 8, owner, [], h, Post, false).resources;
    TlvReads.WalkOne(m, 8, 0, owner, [], Post, false);
    WalkGrows(m, 8, h.End(), owner, rs, Post, false);
    var checked := WalkResources(m, 8, 0, owner, [], Post, false).resources;
    SameGrown(rs);
    TlvReads.GrownHas(rs, checked, 5, 6);
    WalkGrows(m, 8, 0, owner, checked, Post, true);
    TlvReads.GrownHas(checked, WalkResources(m, 8, 0, owner, checked, Post, true).resources, 5, 6);
  }

  lemma StrayMade(owner: Text)
    ensures var h := DecodeHeader(TwoBytes(), 0);
            && h.kind == TYPE_MULTIPLE_RESOURCE
            && TlvReads.HasInstance(TlvReads.Entry(TwoBytes(), 8, owner, [], h, Post, false).resources, 5, 6)
  {
    hide DecodeHeader, ItemBytes, WalkInstances, FindInstanceId, NameIdOf, Decimal;
    var m, made := TwoBytes(), Created(owner, 5, true);
    TwoHeld();
    FirstItem(m, 0, TWO);
    var h := DecodeHeader(m, 0);
    PostMakesExactly(m, 0, TWO, made, 6);
    assert TWO[1].id == 6;
    var r := WalkInstances(m, 8, h.next, made, Post, false).resource;
    TlvReads.InstancesGrow(m, 8, h.next, made, Post, false);
    NameIdOfDecimal(5);
    assert TlvReads.Entry(m, 8, owner, [], h, Post, false).resources == [r];
    assert r in [r] && IsMultiple(r, 5);
  }
}
