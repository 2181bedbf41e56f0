/**
 * What `M2MTLVDeserializer` does to a resource list, as functions of the payload memory, the payload
 * size and the list. The methods of `TlvDeserializer` are proved against these.
 */
module TlvWalk {
  import opened Bytes
  import opened M2MString
  import opened TlvHeader
  import opened ObjectModel
  import opened StringBuffers

  /** The verdicts of the source, and `NullRead`: it read through a null reference and does not return. */
  datatype Error = NoError | NotFound | NotAllowed | NotValid | NullRead

  datatype Operation = Put | Post

  /** A verdict and the resources as they are afterwards. */
  datatype Outcome = Outcome(error: Error, resources: seq<Resource>)

  datatype InstanceOutcome = InstanceOutcome(error: Error, resource: Resource)

  /** What a value becomes when it is stored: integers are kept as printed text. */
  function StoredValue(rtype: ResourceType, bytes: seq<byte>): (t: Text) {
    if bytes == [] then []
    else match rtype
      case INTEGER | BOOLEAN | TIME => Printed(AsInt64(BigEndian(bytes)))
      case STRING | FLOAT | OPAQUE | OBJLINK => bytes
  }

  predicate Forbids(access: nat) {
    BitAnd(access, PUT_ALLOWED) == 0
  }

  /** Position of the first resource whose name denotes `id`, or -1. */
  function FindNameId(rs: seq<Resource>, id: int): (i: int)
    ensures -1 <= i < |rs|
    ensures i >= 0 ==> rs[i].nameId == id
    ensures forall k :: 0 <= k < (if i < 0 then |rs| else i) ==> rs[k].nameId != id
  {
    if rs == [] then -1
    else if rs[0].nameId == id then 0
    else var r := FindNameId(rs[1..], id); if r < 0 then -1 else r + 1
  }

  predicate ResourceForbids(rs: seq<Resource>, id: int) {
    exists k :: 0 <= k < |rs| && rs[k].nameId == id && Forbids(rs[k].access)
  }

  predicate InstanceForbids(ris: seq<ResourceInstance>, id: nat) {
    exists k :: 0 <= k < |ris| && ris[k].id == id && Forbids(ris[k].access)
  }

  function Assigned(r: Resource, bytes: seq<byte>): (resource: Resource) {
    r.(value := StoredValue(r.rtype, bytes))
  }

  function AssignedInstance(ri: ResourceInstance, bytes: seq<byte>): (instance: ResourceInstance) {
    ri.(value := StoredValue(ri.rtype, bytes))
  }

  /** A resource created by a POST: opaque, with every operation allowed. */
  function Created(owner: Text, id: nat, multiple: bool): (r: Resource) {
    NewResource(owner, Decimal(id), OPAQUE, GET_PUT_POST_DELETE_ALLOWED, multiple)
  }

  /** One entry of type resource, or of type resource instance met at the resource level. */
  function ResourceStep(owner: Text, rs: seq<Resource>, id: nat, bytes: seq<byte>, op: Operation, update: bool):
    (out: Outcome)
  {
    var i := FindNameId(rs, id);
    if i >= 0 then
      if update then Outcome(NoError, rs[i := Assigned(rs[i], bytes)])
      else Outcome(if ResourceForbids(rs, id) then NotAllowed else NoError, rs)
    else if op.Post? then Outcome(NoError, rs + [Created(owner, id, false)])
    else Outcome(NotFound, rs)
  }

  /** One entry below a multiple resource. */
  function InstanceStep(r: Resource, h: Header, bytes: seq<byte>, op: Operation, update: bool): (out: InstanceOutcome) {
    var k := if h.kind == TYPE_RESOURCE_INSTANCE then FindInstanceId(r.instances, h.id) else -1;
    if k >= 0 then
      if update then InstanceOutcome(NoError, r.(instances := r.instances[k := AssignedInstance(r.instances[k], bytes)]))
      else InstanceOutcome(if InstanceForbids(r.instances, h.id) then NotAllowed else NoError, r)
    else if op.Post? then InstanceOutcome(NoError, WithInstance(r, r.rtype, GET_PUT_POST_DELETE_ALLOWED, h.id))
    else InstanceOutcome(NotFound, r)
  }

  function Remaining(size: nat, offset: nat): (n: nat) {
    if offset < size then size - offset else 0
  }

  /** The entries that the walk below a multiple resource accepts. */
  predicate IsBelow(kind: nat) {
    kind == TYPE_MULTIPLE_RESOURCE || kind == TYPE_RESOURCE_INSTANCE
  }

  /**
   * The walk over a multiple resource's instances. Like the source it runs to the end of the whole
   * payload, and its verdict is that of the last entry it reaches.
   */
  function WalkInstances(m: Memory, size: nat, offset: nat, r: Resource, op: Operation, update: bool):
    (out: InstanceOutcome)
    decreases Remaining(size, offset)
  {
    var h := DecodeHeader(m, offset);
    if !IsBelow(h.kind) then InstanceOutcome(NotValid, r)
    else
      var step := InstanceStep(r, h, Slice(m, h.next, h.length), op, update);
      if h.End() < size then WalkInstances(m, size, h.End(), step.resource, op, update) else step
  }

  predicate IsMultiple(r: Resource, id: int) {
    r.multiple && r.nameId == id
  }

  /** Position of the last multiple resource that `id` denotes, or -1. */
  function LastMultiple(rs: seq<Resource>, id: int): (i: int)
    ensures -1 <= i < |rs|
    ensures i >= 0 ==> IsMultiple(rs[i], id)
    ensures forall k :: i < k < |rs| ==> !IsMultiple(rs[k], id)
  {
    if rs == [] then -1
    else if IsMultiple(rs[|rs| - 1], id) then |rs| - 1
    else LastMultiple(rs[..|rs| - 1], id)
  }

  /** Every multiple resource that `id` denotes is walked; the verdict is that of the last one. */
  function WalkMatching(m: Memory, size: nat, offset: nat, rs: seq<Resource>, id: nat, op: Operation, update: bool):
    (r: seq<Resource>)
    ensures |r| == |rs|
  {
    seq(|rs|, k requires 0 <= k < |rs| =>
        if IsMultiple(rs[k], id) then WalkInstances(m, size, offset, rs[k], op, update).resource else rs[k])
  }

  /** One entry of type multiple resource, whose value is a list of resource instances. */
  function MultipleStep(m: Memory, size: nat, owner: Text, rs: seq<Resource>, h: Header, op: Operation, update: bool):
    (out: Outcome)
  {
    var last := LastMultiple(rs, h.id);
    if last >= 0 then
      Outcome(WalkInstances(m, size, h.next, rs[last], op, update).error,
              WalkMatching(m, size, h.next, rs, h.id, op, update))
    else if op.Post? then
      if FindName(rs, Decimal(h.id)) >= 0 then
        // The resource could not be created, and the walk below it gets a null reference.
        Outcome(if IsBelow(DecodeHeader(m, h.next).kind) then NullRead else NotValid, rs)
      else
        var below := WalkInstances(m, size, h.next, Created(owner, h.id, true), op, update);
        Outcome(below.error, rs + [below.resource])
    else Outcome(NotFound, rs)
  }

  /** The recursive `deserialize_resources`: the verdict is that of the last entry reached. */
  function WalkResources(m: Memory, size: nat, offset: nat, owner: Text, rs: seq<Resource>, op: Operation, update: bool):
    (out: Outcome)
    decreases Remaining(size, offset)
  {
    var h := DecodeHeader(m, offset);
    if h.kind == TYPE_OBJECT_INSTANCE then Outcome(NotValid, rs)
    else
      var step :=
        if h.kind == TYPE_MULTIPLE_RESOURCE then MultipleStep(m, size, owner, rs, h, op, update)
        else ResourceStep(owner, rs, h.id, Slice(m, h.next, h.length), op, update);
      if step.error != NullRead && h.End() < size
      then WalkResources(m, size, h.End(), owner, step.resources, op, update) else step
  }

  /** Identifiers of the entries at and after an offset inside the payload. */
  function WalkIds(m: Memory, size: nat, offset: nat): (ids: set<int>)
    decreases Remaining(size, offset)
  {
    if offset < size then
      var h := DecodeHeader(m, offset);
      {h.id} + WalkIds(m, size, h.End())
    else {}
  }

  /** The resources whose identifier is among `ids`, in their order. */
  function Keep(rs: seq<Resource>, ids: set<int>): (kept: seq<Resource>) {
    if rs == [] then []
    else
      var r := rs[|rs| - 1];
      Keep(rs[..|rs| - 1], ids) + (if r.nameId in ids then [r] else [])
  }

  /** The public `deserialize_resources`: a check pass, for PUT a removal pass, then the update pass. */
  function Deserialize(m: Memory, size: nat, owner: Text, rs: seq<Resource>, op: Operation): (out: Outcome) {
    var kind := DecodeHeader(m, 0).kind;
    if kind != TYPE_RESOURCE && kind != TYPE_MULTIPLE_RESOURCE then Outcome(NotValid, rs)
    else
      var check := WalkResources(m, size, 0, owner, rs, op, false);
      if check.error != NoError then check
      else
        var kept := if op.Put? then Keep(check.resources, WalkIds(m, size, 0)) else check.resources;
        WalkResources(m, size, 0, owner, kept, op, true)
  }

  // ----- PUT leaves the list alone unless it succeeds

  lemma {:induction false} PutCheckKeepsInstances(m: Memory, size: nat, offset: nat, r: Resource)
    ensures WalkInstances(m, size, offset, r, Put, false).resource == r
    decreases Remaining(size, offset)
  {
    var h := DecodeHeader(m, offset);
    if h.End() < size {
      PutCheckKeepsInstances(m, size, h.End(), r);
    }
  }

  lemma CheckStepChangesNothing(m: Memory, size: nat, owner: Text, rs: seq<Resource>, h: Header, bytes: seq<byte>)
    ensures MultipleStep(m, size, owner, rs, h, Put, false).resources == rs
    ensures ResourceStep(owner, rs, h.id, bytes, Put, false).resources == rs
  {
    forall k | 0 <= k < |rs|
      ensures WalkMatching(m, size, h.next, rs, h.id, Put, false)[k] == rs[k]
    {
      PutCheckKeepsInstances(m, size, h.next, rs[k]);
    }
  }

  /** The check pass of a PUT changes nothing, whatever the payload holds. */
  lemma {:induction false} PutCheckChangesNothing(m: Memory, size: nat, offset: nat, owner: Text, rs: seq<Resource>)
    ensures WalkResources(m, size, offset, owner, rs, Put, false).resources == rs
    decreases Remaining(size, offset)
  {
    var h := DecodeHeader(m, offset);
    CheckStepChangesNothing(m, size, owner, rs, h, Slice(m, h.next, h.length));
    if h.kind != TYPE_OBJECT_INSTANCE && h.End() < size {
      PutCheckChangesNothing(m, size, h.End(), owner, rs);
    }
  }

  /** Equal up to stored values, so far as the walk can tell. */
  predicate SameInstances(a: seq<ResourceInstance>, b: seq<ResourceInstance>) {
    |a| == |b| && forall k :: 0 <= k < |a| ==> a[k].id == b[k].id && a[k].access == b[k].access
  }

  predicate SameShape(a: Resource, b: Resource) {
    a.nameId == b.nameId && a.access == b.access && a.multiple == b.multiple && SameInstances(a.instances, b.instances)
  }

  predicate SameShapes(a: seq<Resource>, b: seq<Resource>) {
    |a| == |b| && forall k :: 0 <= k < |a| ==> SameShape(a[k], b[k])
  }

  /** Whatever a PUT check accepts below a multiple resource, the update accepts and keeps in shape. */
  lemma {:induction false} InstanceUpdateFollowsCheck(m: Memory, size: nat, offset: nat, a: Resource, b: Resource)
    requires SameShape(a, b)
    ensures SameShape(a, WalkInstances(m, size, offset, b, Put, true).resource)
    ensures WalkInstances(m, size, offset, a, Put, false).error == NoError ==>
              WalkInstances(m, size, offset, b, Put, true).error == NoError
    decreases Remaining(size, offset)
  {
    var h := DecodeHeader(m, offset);
    if h.kind == TYPE_MULTIPLE_RESOURCE || h.kind == TYPE_RESOURCE_INSTANCE {
      var b' := InstanceStep(b, h, Slice(m, h.next, h.length), Put, true).resource;
      var k := FindInstanceId(a.instances, h.id);
      assert FindInstanceId(b.instances, h.id) == k by {
        var j := FindInstanceId(b.instances, h.id);
        assert j >= 0 ==> a.instances[j].id == h.id;
        assert k >= 0 ==> b.instances[k].id == h.id;
      }
      assert SameShape(a, b');
      PutCheckKeepsInstances(m, size, offset, a);
      if h.End() < size {
        InstanceUpdateFollowsCheck(m, size, h.End(), a, b');
      }
    }
  }

  lemma {:induction false} KeepMember(rs: seq<Resource>, ids: set<int>, id: int)
    requires id in ids
    ensures FindNameId(rs, id) >= 0 ==> FindNameId(Keep(rs, ids), id) >= 0
  {
    if rs != [] {
      var init, last := rs[..|rs| - 1], rs[|rs| - 1];
      KeepMember(init, ids, id);
      var kept := Keep(rs, ids);
      var i := FindNameId(rs, id);
      if i == |rs| - 1 {
        assert kept[|kept| - 1].nameId == id;
      } else if i >= 0 {
        assert init[i].nameId == id;
        var j := FindNameId(Keep(init, ids), id);
        assert kept[j].nameId == id;
      }
    }
  }

  lemma {:induction false} KeepLastMultiple(rs: seq<Resource>, ids: set<int>, id: int)
    requires id in ids
    ensures var i, j := LastMultiple(rs, id), LastMultiple(Keep(rs, ids), id);
      && (i >= 0 <==> j >= 0)
      && (i >= 0 ==> Keep(rs, ids)[j] == rs[i])
  {
    if rs != [] {
      var init, last := rs[..|rs| - 1], rs[|rs| - 1];
      KeepLastMultiple(init, ids, id);
      var kept := Keep(rs, ids);
      if last.nameId in ids {
        assert kept[..|kept| - 1] == Keep(init, ids);
      } else {
        assert kept == Keep(init, ids);
      }
    }
  }

  lemma SameLastMultiple(a: seq<Resource>, b: seq<Resource>, id: int)
    requires SameShapes(a, b)
    ensures LastMultiple(a, id) == LastMultiple(b, id)
    ensures FindNameId(a, id) == FindNameId(b, id)
  {
    var i, j := LastMultiple(a, id), LastMultiple(b, id);
    assert i >= 0 ==> IsMultiple(b[i], id);
    assert j >= 0 ==> IsMultiple(a[j], id);
    var x, y := FindNameId(a, id), FindNameId(b, id);
    assert x >= 0 ==> b[x].nameId == id;
    assert y >= 0 ==> a[y].nameId == id;
  }

  /** One PUT entry: the update keeps shapes, and succeeds on the kept list if the check did on the full one. */
  lemma UpdateStepFollowsCheck(m: Memory, size: nat, owner: Text, h: Header, bytes: seq<byte>,
                               rs: seq<Resource>, ids: set<int>, ks: seq<Resource>)
    requires h.id in ids && SameShapes(Keep(rs, ids), ks)
    ensures h.kind != TYPE_MULTIPLE_RESOURCE ==>
      var step := ResourceStep(owner, ks, h.id, bytes, Put, true);
      SameShapes(Keep(rs, ids), step.resources) &&
      (ResourceStep(owner, rs, h.id, bytes, Put, false).error == NoError ==> step.error == NoError)
    ensures h.kind == TYPE_MULTIPLE_RESOURCE ==>
      var step := MultipleStep(m, size, owner, ks, h, Put, true);
      SameShapes(Keep(rs, ids), step.resources) &&
      (MultipleStep(m, size, owner, rs, h, Put, false).error == NoError ==> step.error == NoError)
  {
    hide WalkInstances, Keep;
    var kept := Keep(rs, ids);
    SameLastMultiple(kept, ks, h.id);
    KeepMember(rs, ids, h.id);
    KeepLastMultiple(rs, ids, h.id);
    if h.kind == TYPE_MULTIPLE_RESOURCE {
      var ks' := WalkMatching(m, size, h.next, ks, h.id, Put, true);
      forall k | 0 <= k < |ks|
        ensures SameShape(kept[k], ks'[k])
      {
        InstanceUpdateFollowsCheck(m, size, h.next, kept[k], ks[k]);
      }
      var last := LastMultiple(ks, h.id);
      if last >= 0 {
        InstanceUpdateFollowsCheck(m, size, h.next, kept[last], ks[last]);
      }
    }
  }

  /** If the check pass of a PUT accepts the payload, so does the update pass on the kept resources. */
  lemma {:induction false} UpdateFollowsCheck(m: Memory, size: nat, offset: nat, owner: Text,
                                              rs: seq<Resource>, ids: set<int>, ks: seq<Resource>)
    requires offset < size && WalkIds(m, size, offset) <= ids
    requires SameShapes(Keep(rs, ids), ks)
    requires WalkResources(m, size, offset, owner, rs, Put, false).error == NoError
    ensures WalkResources(m, size, offset, owner, ks, Put, true).error == NoError
    decreases Remaining(size, offset)
  {
    var h := DecodeHeader(m, offset);
    var bytes := Slice(m, h.next, h.length);
    assert h.id in WalkIds(m, size, offset);
    UpdateStepFollowsCheck(m, size, owner, h, bytes, rs, ids, ks);
    PutStepReturns(m, size, owner, rs, h, false);
    PutStepReturns(m, size, owner, ks, h, true);
    if h.End() < size {
      CheckStepChangesNothing(m, size, owner, rs, h, bytes);
      var ks' := if h.kind == TYPE_MULTIPLE_RESOURCE then MultipleStep(m, size, owner, ks, h, Put, true).resources
        else ResourceStep(owner, ks, h.id, bytes, Put, true).resources;
      UpdateFollowsCheck(m, size, h.End(), owner, rs, ids, ks');
    }
  }

  lemma SameShapesReflexive(rs: seq<Resource>)
    ensures SameShapes(rs, rs)
  {
  }

  lemma ResourceStepReturns(owner: Text, rs: seq<Resource>, id: nat, bytes: seq<byte>, op: Operation, update: bool)
    ensures ResourceStep(owner, rs, id, bytes, op, update).error != NullRead
  {
  }

  /** Only a POST can read through a null reference. */
  lemma PutStepReturns(m: Memory, size: nat, owner: Text, rs: seq<Resource>, h: Header, update: bool)
    ensures MultipleStep(m, size, owner, rs, h, Put, update).error != NullRead
  {
    hide WalkInstances;
    if LastMultiple(rs, h.id) >= 0 {
      InstancesReturn(m, size, h.next, rs[LastMultiple(rs, h.id)], Put, update);
    }
  }

  lemma {:induction false} InstancesReturn(m: Memory, size: nat, offset: nat, r: Resource, op: Operation, update: bool)
    ensures WalkInstances(m, size, offset, r, op, update).error != NullRead
    decreases Remaining(size, offset)
  {
    hide DecodeHeader;
    var h := DecodeHeader(m, offset);
    if IsBelow(h.kind) && h.End() < size {
      InstancesReturn(m, size, h.End(), InstanceStep(r, h, Slice(m, h.next, h.length), op, update).resource, op, update);
    }
  }

  /**
   * A PUT is atomic for every payload, well formed or not: an error leaves the resources exactly as
   * they were. The callers hand over a payload only when there is one, so it is not empty.
   */
  lemma PutIsAtomic(m: Memory, size: nat, owner: Text, rs: seq<Resource>)
    requires size > 0
    ensures var after := Deserialize(m, size, owner, rs, Put);
      after.error != NoError ==> after.resources == rs
  {
    PutCheckChangesNothing(m, size, 0, owner, rs);
    if WalkResources(m, size, 0, owner, rs, Put, false).error == NoError {
      var ids := WalkIds(m, size, 0);
      SameShapesReflexive(Keep(rs, ids));
      UpdateFollowsCheck(m, size, 0, owner, rs, ids, Keep(rs, ids));
    }
  }
}
