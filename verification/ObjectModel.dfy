/** Objects, object instances and resources: `m2mobject.cpp`, `m2mobjectinstance.cpp`, `m2mresource.cpp`. */
module ObjectModel {
  import opened Bytes
  import opened M2MString
  import opened StringBuffers

  const GET_ALLOWED: nat := 0x01
  const PUT_ALLOWED: byte := 0x02
  const GET_PUT_ALLOWED: nat := 0x03
  const GET_PUT_POST_DELETE_ALLOWED: nat := 0x0F
  const MAX_NAME: nat := 64
  const ID_LIMIT: nat := 0x1_0000

  datatype ResourceType = STRING | INTEGER | FLOAT | BOOLEAN | OPAQUE | TIME | OBJLINK

  /** A node's value is empty when the source holds no buffer for it. */
  datatype ResourceInstance =
    ResourceInstance(id: nat, path: Text, rtype: ResourceType, access: nat, value: Text)

  /** `nameId` is what `name_id` computes from the name, which never changes after creation. */
  datatype Resource =
    Resource(name: Text, nameId: int, path: Text, rtype: ResourceType, access: nat, value: Text,
             multiple: bool, instances: seq<ResourceInstance>)

  // ----- names as identifiers

  /** `is_integer`: an optional sign followed by digits only. */
  predicate IsInteger(name: Text) {
    && name != []
    && (IsDigit(name[0]) || name[0] == MINUS || name[0] == PLUS)
    && var digits := if IsDigit(name[0]) then name else name[1..];
    && digits != [] && AllDigits(digits)
  }

  /** `strtoul` with a 32-bit `unsigned long`: saturates on overflow, negates modulo 2^32 on a minus. */
  function Strtoul(name: Text): (n: nat)
    requires IsInteger(name)
  {
    var v := DigitsValue(if IsDigit(name[0]) then name else name[1..]);
    if v > 0xFFFF_FFFF then 0xFFFF_FFFF
    else if name[0] == MINUS then (0x1_0000_0000 - v) % 0x1_0000_0000
    else v
  }

  /** `name_id`: the numeric identifier a name denotes, or -1. */
  function NameIdOf(name: Text): (n: int) {
    if IsInteger(name) && |name| <= MAX_NAME then
      var u := Strtoul(name);
      var v := if u >= 0x8000_0000 then u - 0x1_0000_0000 else u;
      if v > 65535 then -1 else v
    else -1
  }

  /** The name the deserializer gives to a resource it creates denotes the identifier it was created for. */
  lemma NameIdOfDecimal(id: nat)
    requires id < ID_LIMIT
    ensures NameIdOf(Decimal(id)) == id
    ensures 1 <= |Decimal(id)| <= 5 && SLASH !in Decimal(id)
  {
    DigitsDenote(id);
    IdLength(id);
    assert IsDigit(Decimal(id)[0]);
  }

  /**
   * The names that denote an identifier: its digits, with leading zeros or a plus sign, and with a minus sign
   * those of its complement to 2^32. So different names can denote the same one.
   */
  lemma NameDenotesExactly(name: Text, id: nat)
    requires id < ID_LIMIT
    ensures NameIdOf(name) == id <==>
            && 1 <= |name| <= MAX_NAME
            && if AllDigits(name) then DigitsValue(name) == id
               else
                 && |name| > 1 && AllDigits(name[1..])
                 && var v := DigitsValue(name[1..]);
                 || (name[0] == PLUS && v == id)
                 || (name[0] == MINUS && v == if id == 0 then 0 else 0x1_0000_0000 - id)
  {
    hide DigitsValue;
    if name != [] {
      assert AllDigits(name) <==> IsDigit(name[0]) && AllDigits(name[1..]);
    }
  }

  // ----- sequences

  function RemoveAt<T>(s: seq<T>, i: nat): (r: seq<T>)
    requires i < |s|
    ensures |r| == |s| - 1
    ensures forall k :: 0 <= k < i ==> r[k] == s[k]
    ensures forall k :: i <= k < |r| ==> r[k] == s[k + 1]
  {
    s[..i] + s[i + 1..]
  }

  /** Position of the first resource with this name, or -1. */
  function FindName(rs: seq<Resource>, name: Text): (i: int)
    ensures -1 <= i < |rs|
    ensures i >= 0 ==> rs[i].name == name
    ensures forall k :: 0 <= k < (if i < 0 then |rs| else i) ==> rs[k].name != name
  {
    if rs == [] then -1
    else if rs[0].name == name then 0
    else var r := FindName(rs[1..], name); if r < 0 then -1 else r + 1
  }

  /** Position of the first resource instance with this identifier, or -1. */
  function FindInstanceId(ris: seq<ResourceInstance>, id: nat): (i: int)
    ensures -1 <= i < |ris|
    ensures i >= 0 ==> ris[i].id == id
    ensures forall k :: 0 <= k < (if i < 0 then |ris| else i) ==> ris[k].id != id
  {
    if ris == [] then -1
    else if ris[0].id == id then 0
    else var r := FindInstanceId(ris[1..], id); if r < 0 then -1 else r + 1
  }

  predicate DistinctNames(rs: seq<Resource>) {
    forall j, k :: 0 <= j < k < |rs| ==> rs[j].name != rs[k].name
  }

  /** What every call on an object instance keeps: names are valid, distinct and fix the numeric id. */
  predicate ListInvariant(rs: seq<Resource>) {
    DistinctNames(rs) && forall k :: 0 <= k < |rs| ==> ProperlyNamed(rs[k])
  }

  predicate ProperlyNamed(r: Resource) {
    NameLengthValid(r.name) && r.nameId == NameIdOf(r.name)
  }

  // ----- what the calls on an object instance do to its resource list

  predicate NameLengthValid(name: Text) {
    1 <= |name| <= MAX_NAME
  }

  function NewResource(owner: Text, name: Text, rtype: ResourceType, access: nat, multiple: bool): (r: Resource) {
    Resource(name, NameIdOf(name), BoundedPath(owner, name), rtype, access, [], multiple, [])
  }

  /** `create_dynamic_resource`: refused for a bad length or a name already present. */
  function WithResource(owner: Text, rs: seq<Resource>, name: Text, rtype: ResourceType, multiple: bool):
    (after: seq<Resource>)
  {
    if NameLengthValid(name) && FindName(rs, name) < 0
    then rs + [NewResource(owner, name, rtype, GET_PUT_ALLOWED, multiple)]
    else rs
  }

  function NewInstance(r: Resource, rtype: ResourceType, access: nat, id: nat): (ri: ResourceInstance) {
    ResourceInstance(id, BoundedPath(r.path, Decimal(id)), rtype, access, [])
  }

  /** Adding an instance to a resource that supports several and does not have this one. */
  function WithInstance(r: Resource, rtype: ResourceType, access: nat, id: nat): (resource: Resource) {
    if r.multiple && FindInstanceId(r.instances, id) < 0
    then r.(instances := r.instances + [NewInstance(r, rtype, access, id)])
    else r
  }

  /** `create_dynamic_resource_instance`: creates the resource first when there is none. */
  function WithResourceInstance(owner: Text, rs: seq<Resource>, name: Text, rtype: ResourceType, id: nat):
    (after: seq<Resource>)
  {
    if !NameLengthValid(name) then rs
    else
      var i := FindName(rs, name);
      if i < 0 then
        rs + [WithInstance(NewResource(owner, name, rtype, GET_ALLOWED, true), rtype, GET_ALLOWED, id)]
      else
        rs[i := WithInstance(rs[i], rtype, GET_ALLOWED, id)]
  }

  /** `remove_resource`. */
  function WithoutResource(rs: seq<Resource>, name: Text): (kept: seq<Resource>) {
    var i := FindName(rs, name);
    if i < 0 then rs else RemoveAt(rs, i)
  }

  /** `remove_resource_instance`: the last instance takes the resource with it. */
  function WithoutResourceInstance(rs: seq<Resource>, name: Text, id: nat): (kept: seq<Resource>) {
    var i := FindName(rs, name);
    if i < 0 then rs
    else
      var k := FindInstanceId(rs[i].instances, id);
      if k < 0 then rs
      else
        var left := RemoveAt(rs[i].instances, k);
        if left == [] then RemoveAt(rs, i) else rs[i := rs[i].(instances := left)]
  }

  // ----- values of the tree

  datatype InstanceNode = InstanceNode(id: nat, path: Text, resources: seq<Resource>)

  datatype ObjectNode = ObjectNode(name: Text, path: Text, instances: seq<InstanceNode>)

  class ObjectInstance {
    const instanceId: nat
    const path: Text
    var resourceList: seq<Resource>

    constructor (instanceId: nat, path: Text)
      ensures this.instanceId == instanceId && this.path == path && resourceList == []
    {
      this.instanceId := instanceId;
      this.path := path;
      resourceList := [];
    }

    function View(): (n: InstanceNode)
      reads this
    {
      InstanceNode(instanceId, path, resourceList)
    }

    /** `resource`: the position of the named resource, -1 for NULL. */
    method FindResource(name: Text) returns (i: int)
      ensures i == FindName(resourceList, name)
    {
      i := 0;
      while i < |resourceList| && resourceList[i].name != name
        invariant 0 <= i <= |resourceList|
        invariant forall k :: 0 <= k < i ==> resourceList[k].name != name
      {
        i := i + 1;
      }
      if i == |resourceList| {
        i := -1;
      }
    }

    /** The position of the created resource, -1 for NULL. */
    method CreateDynamicResource(name: Text, rtype: ResourceType, multiple: bool) returns (i: int)
      modifies this`resourceList
      ensures resourceList == WithResource(path, old(resourceList), name, rtype, multiple)
      ensures i == if NameLengthValid(name) && FindName(old(resourceList), name) < 0 then |old(resourceList)| else -1
    {
      i := -1;
      if !(1 <= |name| <= MAX_NAME) {
        return;
      }
      var at := FindResource(name);
      if at < 0 {
        var resourcePath := CreatePathBase(path, name);
        i := |resourceList|;
        resourceList := resourceList + [Resource(name, NameIdOf(name), resourcePath, rtype, GET_PUT_ALLOWED, [], multiple, [])];
      }
    }

    /** The created instance, if one was created. */
    method CreateDynamicResourceInstance(name: Text, rtype: ResourceType, id: nat) returns (created: bool)
      requires id < ID_LIMIT
      modifies this`resourceList
      ensures resourceList == WithResourceInstance(path, old(resourceList), name, rtype, id)
      ensures created ==> resourceList != old(resourceList)
    {
      created := false;
      if !(1 <= |name| <= MAX_NAME) {
        return;
      }
      var at := FindResource(name);
      if at < 0 {
        var resourcePath := CreatePathBase(path, name);
        at := |resourceList|;
        resourceList := resourceList + [Resource(name, NameIdOf(name), resourcePath, rtype, GET_ALLOWED, [], true, [])];
      }
      var res := resourceList[at];
      if res.multiple && FindInstanceId(res.instances, id) < 0 {
        var instancePath := CreatePathWithId(res.path, id);
        var instance := ResourceInstance(id, instancePath, rtype, GET_ALLOWED, []);
        resourceList := resourceList[at := res.(instances := res.instances + [instance])];
        created := true;
        assert |resourceList[at].instances| == |res.instances| + 1;
      }
    }

    method RemoveResource(name: Text) returns (success: bool)
      modifies this`resourceList
      ensures resourceList == WithoutResource(old(resourceList), name)
      ensures success <==> FindName(old(resourceList), name) >= 0
    {
      success := false;
      var pos := 0;
      while pos < |resourceList|
        invariant 0 <= pos <= |resourceList|
        invariant resourceList == old(resourceList)
        invariant forall k :: 0 <= k < pos ==> resourceList[k].name != name
      {
        if resourceList[pos].name == name {
          resourceList := RemoveAt(resourceList, pos);
          success := true;
          break;
        }
        pos := pos + 1;
      }
    }

    method RemoveResourceInstance(name: Text, id: nat) returns (success: bool)
      modifies this`resourceList
      ensures resourceList == WithoutResourceInstance(old(resourceList), name, id)
      ensures success <==> resourceList != old(resourceList)
    {
      success := false;
      var at := FindResource(name);
      if at >= 0 {
        var k := FindInstanceId(resourceList[at].instances, id);
        if k >= 0 {
          var left := RemoveAt(resourceList[at].instances, k);
          success := true;
          if left == [] {
            resourceList := RemoveAt(resourceList, at);
          } else {
            ghost var was := resourceList[at];
            resourceList := resourceList[at := resourceList[at].(instances := left)];
            assert |resourceList[at].instances| != |was.instances|;
          }
        }
      }
    }
  }

  /** Position of the first object instance with this identifier, or -1. */
  function FindId(ns: seq<InstanceNode>, id: nat): (i: int)
    ensures -1 <= i < |ns|
    ensures i >= 0 ==> ns[i].id == id
    ensures forall k :: 0 <= k < (if i < 0 then |ns| else i) ==> ns[k].id != id
  {
    if ns == [] then -1
    else if ns[0].id == id then 0
    else var r := FindId(ns[1..], id); if r < 0 then -1 else r + 1
  }

  /** `create_object_instance`. */
  function WithObjectInstance(o: ObjectNode, id: nat): (node: ObjectNode) {
    if FindId(o.instances, id) < 0
    then o.(instances := o.instances + [InstanceNode(id, BoundedPath(o.path, Decimal(id)), [])])
    else o
  }

  /** `remove_object_instance`. */
  function WithoutObjectInstance(o: ObjectNode, id: nat): (node: ObjectNode) {
    var i := FindId(o.instances, id);
    if i < 0 then o else o.(instances := RemoveAt(o.instances, i))
  }

  class Object {
    const name: Text
    const path: Text
    var instanceList: seq<ObjectInstance>

    constructor (name: Text)
      ensures this.name == name && path == name && instanceList == []
    {
      this.name := name;
      this.path := name;
      instanceList := [];
    }

    function View(): (o: ObjectNode)
      reads this, instanceList
    {
      ObjectNode(name, path, InstanceViews(instanceList))
    }

    /** `object_instance`: the position of the instance, -1 for NULL. */
    method FindObjectInstance(id: nat) returns (i: int)
      ensures i == FindId(View().instances, id)
    {
      i := 0;
      while i < |instanceList| && instanceList[i].instanceId != id
        invariant 0 <= i <= |instanceList|
        invariant forall k :: 0 <= k < i ==> View().instances[k].id != id
      {
        i := i + 1;
      }
      if i == |instanceList| {
        i := -1;
      }
    }

    method CreateObjectInstance(id: nat) returns (instance: ObjectInstance?)
      requires id < ID_LIMIT
      modifies this`instanceList
      ensures View() == WithObjectInstance(old(View()), id)
      ensures instance == null <==> FindId(old(View()).instances, id) >= 0
      ensures instance != null ==> fresh(instance) && instanceList == old(instanceList) + [instance]
    {
      instance := null;
      var at := FindObjectInstance(id);
      if at < 0 {
        var instancePath := CreatePathWithId(path, id);
        instance := new ObjectInstance(id, instancePath);
        ghost var before := InstanceViews(instanceList);
        instanceList := instanceList + [instance];
        assert InstanceViews(instanceList) == before + [instance.View()];
      }
    }

    method RemoveObjectInstance(id: nat) returns (success: bool)
      modifies this`instanceList
      ensures View() == WithoutObjectInstance(old(View()), id)
      ensures success <==> FindId(old(View()).instances, id) >= 0
      ensures var k := FindId(old(View()).instances, id);
              instanceList == if success then old(instanceList)[..k] + old(instanceList)[k + 1..] else old(instanceList)
    {
      var at := FindObjectInstance(id);
      success := at >= 0;
      if success {
        ghost var before := InstanceViews(instanceList);
        instanceList := RemoveAt(instanceList, at);
        assert InstanceViews(instanceList) == RemoveAt(before, at);
      }
    }

    /**
     * The search in `handle_post_request`: the least identifier without an instance, or none when all
     * 65536 are taken.
     */
    method NextFreeInstanceId() returns (id: Option<nat>)
      ensures id.None? <==> forall k :: 0 <= k < ID_LIMIT ==> FindId(View().instances, k) >= 0
      ensures id.Some? ==> id.value < ID_LIMIT && FindId(View().instances, id.value) < 0
      ensures id.Some? ==> forall k :: 0 <= k < id.value ==> FindId(View().instances, k) >= 0
    {
      var instanceId := 0;
      while instanceId <= 65535
        invariant 0 <= instanceId <= 65535
        invariant forall k :: 0 <= k < instanceId ==> FindId(View().instances, k) >= 0
        decreases 65536 - instanceId
      {
        var at := FindObjectInstance(instanceId);
        if at < 0 {
          return Some(instanceId);
        }
        if instanceId == 65535 {
          return None;
        }
        instanceId := instanceId + 1;
      }
    }
  }

  function InstanceViews(s: seq<ObjectInstance>): (r: seq<InstanceNode>)
    reads s
    ensures |r| == |s|
    ensures forall i :: 0 <= i < |s| ==> r[i] == s[i].View()
  {
    seq(|s|, i requires 0 <= i < |s| reads s => s[i].View())
  }
}
