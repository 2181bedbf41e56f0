/** `m2mtlvdeserializer.cpp`: the passes over a payload, changing an object instance in place. */
module TlvDeserializer {
  import opened Bytes
  import opened M2MString
  import opened TlvHeader
  import opened ObjectModel
  import opened TlvWalk

  /** `set_resource_instance_value` and the `set_value` it calls. */
  method StoreValue(rtype: ResourceType, bytes: seq<byte>) returns (value: Text)
    ensures value == StoredValue(rtype, bytes)
  {
    if bytes == [] {
      return [];
    }
    match rtype {
      case INTEGER | BOOLEAN | TIME =>
        var v := ConvertArrayToInteger(bytes);
        var buffer := new byte[21];
        var size := ItoaC(v, buffer);
        value := buffer[..size];
      case STRING | FLOAT | OPAQUE | OBJLINK =>
        value := bytes;
    }
  }

  lemma UnknownIdUnusedName(rs: seq<Resource>, id: nat)
    requires ListInvariant(rs) && id < ID_LIMIT && FindNameId(rs, id) < 0
    ensures FindName(rs, Decimal(id)) < 0
  {
    NameIdOfDecimal(id);
    forall k | 0 <= k < |rs|
      ensures rs[k].name != Decimal(id)
    {
      assert ProperlyNamed(rs[k]);
    }
  }

  lemma InvariantAfterUpdate(rs: seq<Resource>, i: nat, r: Resource)
    requires ListInvariant(rs) && i < |rs| && r.name == rs[i].name && r.nameId == rs[i].nameId
    ensures ListInvariant(rs[i := r])
  {
    assert ProperlyNamed(rs[i]);
  }

  lemma InvariantAfterAppend(rs: seq<Resource>, r: Resource)
    requires ListInvariant(rs) && ProperlyNamed(r) && FindName(rs, r.name) < 0
    ensures ListInvariant(rs + [r])
  {
  }

  /** The loop over the resources for an entry of type resource. */
  method ApplyToResources(instance: ObjectInstance, id: nat, bytes: seq<byte>, update: bool)
    returns (found: bool, error: Error)
    requires ListInvariant(instance.resourceList)
    modifies instance`resourceList
    ensures found <==> FindNameId(old(instance.resourceList), id) >= 0
    ensures error == if found && !update && ResourceForbids(old(instance.resourceList), id) then NotAllowed else NoError
    ensures instance.resourceList ==
            if found && update then
              var i := FindNameId(old(instance.resourceList), id);
              old(instance.resourceList)[i := Assigned(old(instance.resourceList)[i], bytes)]
            else old(instance.resourceList)
    ensures ListInvariant(instance.resourceList)
  {
    hide ListInvariant, Forbids;
    found, error := false, NoError;
    var list := instance.resourceList;
    var it := 0;
    while it < |list|
      invariant 0 <= it <= |list|
      invariant instance.resourceList == list
      invariant found <==> exists k :: 0 <= k < it && list[k].nameId == id
      invariant found ==> !update
      invariant error == NoError
      invariant forall k :: 0 <= k < it && list[k].nameId == id ==> !Forbids(list[k].access)
    {
      if list[it].nameId == id {
        found := true;
        if update {
          var value := StoreValue(list[it].rtype, bytes);
          InvariantAfterUpdate(list, it, list[it].(value := value));
          instance.resourceList := list[it := list[it].(value := value)];
          assert FindNameId(list, id) == it;
          break;
        } else if Forbids(list[it].access) {
          error := NotAllowed;
          assert ResourceForbids(list, id);
          break;
        }
      }
      it := it + 1;
    }
    assert found ==> FindNameId(list, id) >= 0;
  }

  /** The loop over the instances of resource `i` for an entry below it. */
  method ApplyToInstances(instance: ObjectInstance, i: nat, h: Header, bytes: seq<byte>, update: bool)
    returns (found: bool, error: Error)
    requires i < |instance.resourceList| && ListInvariant(instance.resourceList)
    modifies instance`resourceList
    ensures var r, k := old(instance.resourceList)[i], InstancePosition(old(instance.resourceList)[i], h);
      && (found <==> k >= 0)
      && error == (if found && !update && InstanceForbids(r.instances, h.id) then NotAllowed else NoError)
      && instance.resourceList == old(instance.resourceList)[i :=
           if found && update
           then r.(instances := r.instances[k := AssignedInstance(r.instances[k], bytes)]) else r]
    ensures ListInvariant(instance.resourceList)
  {
    hide ListInvariant, Forbids;
    found, error := false, NoError;
    var list := instance.resourceList;
    var r := list[i];
    var it := 0;
    while it < |r.instances|
      invariant 0 <= it <= |r.instances|
      invariant instance.resourceList == list
      invariant found <==> h.kind == TYPE_RESOURCE_INSTANCE && exists k :: 0 <= k < it && r.instances[k].id == h.id
      invariant found ==> !update
      invariant error == NoError
      invariant h.kind == TYPE_RESOURCE_INSTANCE ==>
                  forall k :: 0 <= k < it && r.instances[k].id == h.id ==> !Forbids(r.instances[k].access)
    {
      if r.instances[it].id == h.id && h.kind == TYPE_RESOURCE_INSTANCE {
        found := true;
        if update {
          var value := StoreValue(r.instances[it].rtype, bytes);
          var r' := r.(instances := r.instances[it := r.instances[it].(value := value)]);
          InvariantAfterUpdate(list, i, r');
          instance.resourceList := list[i := r'];
          assert FindInstanceId(r.instances, h.id) == it;
          break;
        } else if Forbids(r.instances[it].access) {
          error := NotAllowed;
          assert InstanceForbids(r.instances, h.id);
          break;
        }
      }
      it := it + 1;
    }
    assert list[i := r] == list;
  }

  function InstancePosition(r: Resource, h: Header): (k: int)
    ensures -1 <= k < |r.instances|
  {
    if h.kind == TYPE_RESOURCE_INSTANCE then FindInstanceId(r.instances, h.id) else -1
  }

  /** Creating an instance below resource `i` with every operation allowed. */
  method CreateInstance(instance: ObjectInstance, i: nat, id: nat)
    requires i < |instance.resourceList| && ListInvariant(instance.resourceList) && id < ID_LIMIT
    modifies instance`resourceList
    ensures var r := old(instance.resourceList)[i];
      instance.resourceList == old(instance.resourceList)[i := WithInstance(r, r.rtype, GET_PUT_POST_DELETE_ALLOWED, id)]
    ensures ListInvariant(instance.resourceList)
  {
    ghost var list := instance.resourceList;
    var r := instance.resourceList[i];
    assert ProperlyNamed(r);
    assert FindName(list, r.name) == i;
    var created := r.multiple && FindInstanceId(r.instances, id) < 0;
    var _ := instance.CreateDynamicResourceInstance(r.name, r.rtype, id);
    InvariantAfterUpdate(list, i, WithInstance(r, r.rtype, GET_ALLOWED, id));
    if created {
      var r' := instance.resourceList[i];
      var last := |r'.instances| - 1;
      var r'' := r'.(instances := r'.instances[last := r'.instances[last].(access := GET_PUT_POST_DELETE_ALLOWED)]);
      assert r''.instances == WithInstance(r, r.rtype, GET_PUT_POST_DELETE_ALLOWED, id).instances;
      InvariantAfterUpdate(instance.resourceList, i, r'');
      instance.resourceList := instance.resourceList[i := r''];
    }
  }

  /** The recursive `deserialize_resource_instances` on resource `i`. */
  method DeserializeResourceInstances(tlv: Memory, size: nat, start: nat, instance: ObjectInstance, i: nat,
                                      op: Operation, update: bool) returns (error: Error)
    requires i < |instance.resourceList| && ListInvariant(instance.resourceList)
    modifies instance`resourceList
    ensures ListInvariant(instance.resourceList)
    ensures var after := WalkInstances(tlv, size, start, old(instance.resourceList)[i], op, update);
      && error == after.error
      && instance.resourceList == old(instance.resourceList)[i := after.resource]
    decreases Remaining(size, start)
  {
    hide DecodeHeader, WithInstance, InstanceForbids, ListInvariant, Forbids;
    error := NoError;
    var til := new TypeIdLength(tlv, start);
    til.Deserialize();
    var offset := til.offset;
    ghost var h := DecodeHeader(tlv, start);
    if til.kind == TYPE_MULTIPLE_RESOURCE || til.kind == TYPE_RESOURCE_INSTANCE {
      var found;
      found, error := ApplyToInstances(instance, i, Header(til.kind, til.id, til.length, offset),
                                       Slice(tlv, offset, til.length), update);
      if !found {
        if op == Post {
          CreateInstance(instance, i, til.id);
        } else if op == Put {
          error := NotFound;
        }
      }
    } else {
      return NotValid;
    }
    offset := offset + til.length;
    if offset < size {
      error := DeserializeResourceInstances(tlv, size, offset, instance, i, op, update);
    }
  }

  /** The loop over the multiple resources for an entry of type multiple resource. */
  method WalkMultiples(tlv: Memory, size: nat, offset: nat, instance: ObjectInstance, id: nat,
                       op: Operation, update: bool) returns (found: bool, error: Error)
    requires ListInvariant(instance.resourceList)
    modifies instance`resourceList
    ensures ListInvariant(instance.resourceList)
    ensures var rs := old(instance.resourceList);
      && (found <==> LastMultiple(rs, id) >= 0)
      && error == (if found then WalkInstances(tlv, size, offset, rs[LastMultiple(rs, id)], op, update).error else NoError)
      && instance.resourceList == WalkMatching(tlv, size, offset, rs, id, op, update)
  {
    hide WalkInstances, ListInvariant, WalkMatching;
    found, error := false, NoError;
    ghost var rs := instance.resourceList;
    ghost var walked := WalkMatching(tlv, size, offset, rs, id, op, update);
    ghost var last := -1;
    var it := 0;
    while it < |instance.resourceList|
      invariant 0 <= it <= |instance.resourceList| == |rs|
      invariant ListInvariant(instance.resourceList)
      invariant instance.resourceList[it..] == rs[it..]
      invariant instance.resourceList[..it] == walked[..it]
      invariant -1 <= last < it && (found <==> last >= 0)
      invariant found ==> IsMultiple(rs[last], id)
      invariant forall k :: last < k < it ==> !IsMultiple(rs[k], id)
      invariant error == if found then WalkInstances(tlv, size, offset, rs[last], op, update).error else NoError
    {
      ghost var before := instance.resourceList;
      var res := instance.resourceList[it];
      assert res == before[it..][0] == rs[it];
      if res.multiple && res.nameId == id {
        found := true;
        error := DeserializeResourceInstances(tlv, size, offset, instance, it, op, update);
        last := it;
      }
      WalkedAt(tlv, size, offset, rs, id, op, update, it);
      OneFurther(before, instance.resourceList, rs, walked, it);
      it := it + 1;
    }
    assert last == LastMultiple(rs, id);
    assert instance.resourceList == instance.resourceList[..it];
  }

  lemma WalkedAt(tlv: Memory, size: nat, offset: nat, rs: seq<Resource>, id: nat, op: Operation, update: bool, k: nat)
    requires k < |rs|
    ensures WalkMatching(tlv, size, offset, rs, id, op, update)[k] ==
            if IsMultiple(rs[k], id) then WalkInstances(tlv, size, offset, rs[k], op, update).resource else rs[k]
  {
    hide WalkInstances;
  }

  /** A list that turns from `rs` into `walked` from the front, one place further. */
  lemma OneFurther(before: seq<Resource>, after: seq<Resource>, rs: seq<Resource>, walked: seq<Resource>, it: nat)
    requires it < |before| == |after| == |rs| == |walked|
    requires before[..it] == walked[..it] && before[it..] == rs[it..]
    requires after == before[it := walked[it]]
    ensures after[..it + 1] == walked[..it + 1] && after[it + 1..] == rs[it + 1..]
  {
    assert after[..it] == before[..it] && after[it + 1..] == before[it..][1..] && rs[it + 1..] == rs[it..][1..];
    assert after[..it + 1] == after[..it] + [walked[it]] && walked[..it + 1] == walked[..it] + [walked[it]];
  }

  /** The recursive `deserialize_resources`. */
  method DeserializeResourcesFrom(tlv: Memory, size: nat, start: nat, instance: ObjectInstance,
                                  op: Operation, update: bool) returns (error: Error)
    requires ListInvariant(instance.resourceList)
    modifies instance`resourceList
    ensures ListInvariant(instance.resourceList)
    ensures Outcome(error, instance.resourceList) ==
            WalkResources(tlv, size, start, instance.path, old(instance.resourceList), op, update)
    decreases Remaining(size, start)
  {
    hide DecodeHeader, ResourceStep, MultipleStep;
    var til := new TypeIdLength(tlv, start);
    til.Deserialize();
    var offset := til.offset;
    if til.kind == TYPE_RESOURCE || til.kind == TYPE_RESOURCE_INSTANCE {
      error := ResourceEntry(instance, til.id, Slice(tlv, offset, til.length), op, update);
    } else if til.kind == TYPE_MULTIPLE_RESOURCE {
      error := MultipleEntry(tlv, size, instance, Header(til.kind, til.id, til.length, offset), op, update);
    } else {
      return NotValid;
    }
    if error == NullRead {
      return;
    }
    offset := offset + til.length;
    if offset < size {
      error := DeserializeResourcesFrom(tlv, size, offset, instance, op, update);
    }
  }

  method ResourceEntry(instance: ObjectInstance, id: nat, bytes: seq<byte>, op: Operation, update: bool)
    returns (error: Error)
    requires ListInvariant(instance.resourceList) && id < ID_LIMIT
    modifies instance`resourceList
    ensures ListInvariant(instance.resourceList)
    ensures Outcome(error, instance.resourceList) ==
            ResourceStep(instance.path, old(instance.resourceList), id, bytes, op, update)
  {
    var found;
    found, error := ApplyToResources(instance, id, bytes, update);
    if !found {
      if op == Post {
        UnknownIdUnusedName(instance.resourceList, id);
        var _ := CreateResource(instance, id, false);
      } else if op == Put {
        error := NotFound;
      }
    }
  }

  /** Creating a resource for an identifier of the payload, with every operation allowed. */
  method CreateResource(instance: ObjectInstance, id: nat, multiple: bool) returns (i: int)
    requires ListInvariant(instance.resourceList) && id < ID_LIMIT
    modifies instance`resourceList
    ensures ListInvariant(instance.resourceList)
    ensures FindName(old(instance.resourceList), Decimal(id)) >= 0 ==>
              i == -1 && instance.resourceList == old(instance.resourceList)
    ensures FindName(old(instance.resourceList), Decimal(id)) < 0 ==>
              && i == |old(instance.resourceList)|
              && instance.resourceList == old(instance.resourceList) + [Created(instance.path, id, multiple)]
  {
    NameIdOfDecimal(id);
    ghost var list := instance.resourceList;
    i := instance.CreateDynamicResource(Decimal(id), OPAQUE, multiple);
    if i >= 0 {
      var r := instance.resourceList[i].(access := GET_PUT_POST_DELETE_ALLOWED);
      InvariantAfterAppend(list, Created(instance.path, id, multiple));
      instance.resourceList := instance.resourceList[i := r];
      assert instance.resourceList == list + [Created(instance.path, id, multiple)];
    }
  }

  /** `deserialize_resource_instances` with a null reference: it is read for the kinds that are accepted. */
  method WalkBelowNull(tlv: Memory, start: nat) returns (error: Error)
    ensures error == if IsBelow(DecodeHeader(tlv, start).kind) then NullRead else NotValid
  {
    hide DecodeHeader;
    var til := new TypeIdLength(tlv, start);
    til.Deserialize();
    if til.kind == TYPE_MULTIPLE_RESOURCE || til.kind == TYPE_RESOURCE_INSTANCE {
      return NullRead;
    }
    return NotValid;
  }

  method MultipleEntry(tlv: Memory, size: nat, instance: ObjectInstance, h: Header, op: Operation, update: bool)
    returns (error: Error)
    requires ListInvariant(instance.resourceList) && h.id < ID_LIMIT
    modifies instance`resourceList
    ensures ListInvariant(instance.resourceList)
    ensures Outcome(error, instance.resourceList) ==
            MultipleStep(tlv, size, instance.path, old(instance.resourceList), h, op, update)
  {
    hide WalkInstances;
    var found;
    ghost var rs := instance.resourceList;
    found, error := WalkMultiples(tlv, size, h.next, instance, h.id, op, update);
    if !found {
      assert instance.resourceList == rs;
      if op == Post {
        var i := CreateResource(instance, h.id, true);
        if i < 0 {
          error := WalkBelowNull(tlv, h.next);
          return;
        }
        error := DeserializeResourceInstances(tlv, size, h.next, instance, i, op, update);
      } else if op == Put {
        error := NotFound;
      }
    }
  }

  /** The inner loop of `remove_resources`: does some entry carry this identifier? */
  method Occurs(tlv: Memory, size: nat, id: int) returns (found: bool)
    ensures found <==> id in WalkIds(tlv, size, 0)
  {
    hide DecodeHeader;
    found := false;
    var offset: nat := 0;
    while offset < size
      invariant !found
      invariant id in WalkIds(tlv, size, 0) <==> id in WalkIds(tlv, size, offset)
      decreases Remaining(size, offset)
    {
      var til := new TypeIdLength(tlv, offset);
      til.Deserialize();
      if id == til.id {
        return true;
      }
      offset := til.offset + til.length;
    }
  }

  /** `remove_resources`: erases, in place, the resources that the payload does not mention. */
  method RemoveResources(tlv: Memory, size: nat, instance: ObjectInstance)
    requires ListInvariant(instance.resourceList)
    modifies instance`resourceList
    ensures instance.resourceList == Keep(old(instance.resourceList), WalkIds(tlv, size, 0))
    ensures ListInvariant(instance.resourceList)
  {
    hide WalkIds, Keep, ListInvariant, WithoutResource;
    ghost var rs, ids := instance.resourceList, WalkIds(tlv, size, 0);
    ghost var done, kept, rest := [], [], rs;
    var it := 0;
    KeepNothingYet(ids);
    while it < |instance.resourceList|
      invariant it == |kept|
      invariant instance.resourceList == kept + rest
      invariant rs == done + rest && kept == Keep(done, ids)
      invariant ListInvariant(instance.resourceList)
      decreases |rest|
    {
      var r := instance.resourceList[it];
      ghost var tail := rest[1..];
      SplitFirst(done, kept, rest);
      KeepNext(done, r, ids);
      var found := Occurs(tlv, size, r.nameId);
      if !found {
        EraseAt(kept, r, tail);
        var _ := instance.RemoveResource(r.name);
      } else {
        it := it + 1;
        kept := kept + [r];
      }
      done, rest := done + [r], tail;
    }
    assert rs == done;
  }

  lemma KeepNothingYet(ids: set<int>)
    ensures Keep([], ids) == []
  {
  }

  lemma SplitFirst(done: seq<Resource>, kept: seq<Resource>, rest: seq<Resource>)
    requires rest != []
    ensures (kept + rest)[|kept|] == rest[0]
    ensures kept + rest == kept + [rest[0]] + rest[1..]
    ensures done + rest == done + [rest[0]] + rest[1..]
  {
  }

  lemma KeepNext(done: seq<Resource>, r: Resource, ids: set<int>)
    ensures Keep(done + [r], ids) == if r.nameId in ids then Keep(done, ids) + [r] else Keep(done, ids)
  {
    assert (done + [r])[..|done|] == done;
  }

  lemma EraseAt(kept: seq<Resource>, r: Resource, rest: seq<Resource>)
    requires ListInvariant(kept + [r] + rest)
    ensures WithoutResource(kept + [r] + rest, r.name) == kept + rest
    ensures ListInvariant(kept + rest)
  {
    hide ProperlyNamed;
    var rs := kept + [r] + rest;
    var i := |kept|;
    assert rs[i] == r;
    assert FindName(rs, r.name) == i;
    assert RemoveAt(rs, i) == kept + rest;
    KeptOfBoth(rs, i, kept + rest);
  }

  /** Each resource of the shorter list stands in the longer one, in the same order. */
  lemma KeptOfBoth(rs: seq<Resource>, i: nat, short: seq<Resource>)
    requires i < |rs| && short == rs[..i] + rs[i + 1..] && ListInvariant(rs)
    ensures ListInvariant(short)
  {
    hide ProperlyNamed;
    assert forall k :: 0 <= k < |short| ==> short[k] == rs[if k < i then k else k + 1];
  }

  /** The public `deserialize_resources`. */
  method DeserializeResources(tlv: Memory, size: nat, instance: ObjectInstance, op: Operation) returns (error: Error)
    requires ListInvariant(instance.resourceList)
    modifies instance`resourceList
    ensures ListInvariant(instance.resourceList)
    ensures Outcome(error, instance.resourceList) ==
            Deserialize(tlv, size, instance.path, old(instance.resourceList), op)
  {
    hide WalkResources, WalkIds, BitAnd;
    HeaderByMasks(tlv, 0);
    var kind := BitAnd(tlv(0), 0xC0);
    if kind != TYPE_RESOURCE && kind != TYPE_MULTIPLE_RESOURCE {
      error := NotValid;
    } else {
      error := DeserializeResourcesFrom(tlv, size, 0, instance, op, false);
      if error == NoError {
        if op == Put {
          RemoveResources(tlv, size, instance);
        }
        error := DeserializeResourcesFrom(tlv, size, 0, instance, op, true);
      }
    }
  }
}
