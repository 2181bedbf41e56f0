/** Every tree that create, remove, PUT and POST calls can build is well formed. */
module TreeRuns {
  import opened Bytes
  import opened M2MString
  import opened StringBuffers
  import opened ObjectModel
  import opened ObjectTree
  import opened TlvHeader
  import opened TlvWalk
  import opened TlvDeserializer
  import opened TlvPost

  /** Longest path of an object instance: a name, a slash and five digits. */
  const MAX_OWNER: nat := MAX_NAME + 1 + 5

  lemma FitsBuffer(parent: Text, name: Text)
    requires |parent| <= MAX_OWNER + 1 + MAX_NAME && |name| <= MAX_NAME
    ensures BoundedPath(parent, name) == parent + [SLASH] + name
  {
    hide BoundedPath;
    PathUntruncated(parent, name);
  }

  lemma GoodNewResource(owner: Text, name: Text, rtype: ResourceType, access: nat, multiple: bool)
    requires |owner| <= MAX_OWNER && GoodName(name)
    ensures GoodResource(owner, NewResource(owner, name, rtype, access, multiple))
  {
    hide BoundedPath, NameIdOf;
    FitsBuffer(owner, name);
  }

  lemma GoodWithInstance(owner: Text, r: Resource, rtype: ResourceType, access: nat, id: nat)
    requires |owner| <= MAX_OWNER && GoodResource(owner, r) && id < ID_LIMIT
    ensures GoodResource(owner, WithInstance(r, rtype, access, id))
    ensures WithInstance(r, rtype, access, id).name == r.name
  {
    hide BoundedPath, NameIdOf, Decimal;
    IdLength(id);
    FitsBuffer(r.path, Decimal(id));
  }

  lemma GoodAppend(owner: Text, rs: seq<Resource>, r: Resource)
    requires GoodResources(owner, rs) && GoodResource(owner, r) && FindName(rs, r.name) < 0
    ensures GoodResources(owner, rs + [r])
  {
    hide GoodResource;
  }

  lemma GoodUpdate(owner: Text, rs: seq<Resource>, i: nat, r: Resource)
    requires GoodResources(owner, rs) && i < |rs| && GoodResource(owner, r) && r.name == rs[i].name
    ensures GoodResources(owner, rs[i := r])
  {
    hide GoodResource;
  }

  lemma GoodErase(owner: Text, rs: seq<Resource>, i: nat)
    requires GoodResources(owner, rs) && i < |rs|
    ensures GoodResources(owner, RemoveAt(rs, i))
  {
    hide GoodResource;
  }

  lemma GoodImpliesInvariant(owner: Text, rs: seq<Resource>)
    requires GoodResources(owner, rs)
    ensures ListInvariant(rs)
  {
    hide NameIdOf;
    forall k | 0 <= k < |rs|
      ensures ProperlyNamed(rs[k])
    {
      assert GoodResource(owner, rs[k]);
    }
  }

  lemma GoodWithResourceInstance(owner: Text, rs: seq<Resource>, name: Text, rtype: ResourceType, id: nat)
    requires |owner| <= MAX_OWNER && GoodResources(owner, rs) && SlashFree(name) && id < ID_LIMIT
    ensures GoodResources(owner, WithResourceInstance(owner, rs, name, rtype, id))
  {
    hide GoodResource, WithInstance;
    if NameLengthValid(name) {
      var i := FindName(rs, name);
      if i < 0 {
        var r := NewResource(owner, name, rtype, GET_ALLOWED, true);
        GoodNewResource(owner, name, rtype, GET_ALLOWED, true);
        GoodWithInstance(owner, r, rtype, GET_ALLOWED, id);
        GoodAppend(owner, rs, WithInstance(r, rtype, GET_ALLOWED, id));
      } else {
        GoodWithInstance(owner, rs[i], rtype, GET_ALLOWED, id);
        GoodUpdate(owner, rs, i, WithInstance(rs[i], rtype, GET_ALLOWED, id));
      }
    }
  }

  lemma GoodWithoutResourceInstance(owner: Text, rs: seq<Resource>, name: Text, id: nat)
    requires GoodResources(owner, rs)
    ensures GoodResources(owner, WithoutResourceInstance(rs, name, id))
  {
    var i := FindName(rs, name);
    if i >= 0 && FindInstanceId(rs[i].instances, id) >= 0 {
      var k := FindInstanceId(rs[i].instances, id);
      var left := RemoveAt(rs[i].instances, k);
      if left == [] {
        GoodErase(owner, rs, i);
      } else {
        FewerInstances(owner, rs[i], k);
        GoodUpdate(owner, rs, i, rs[i].(instances := left));
      }
    }
  }

  lemma FewerInstances(owner: Text, r: Resource, k: nat)
    requires GoodResource(owner, r) && k < |r.instances|
    ensures GoodResource(owner, r.(instances := RemoveAt(r.instances, k)))
  {
    hide NameIdOf, Decimal;
  }

  // ----- payloads

  lemma GoodInstanceStep(owner: Text, r: Resource, h: Header, bytes: seq<byte>, op: Operation, update: bool)
    requires |owner| <= MAX_OWNER && GoodResource(owner, r) && h.id < ID_LIMIT
    ensures var after := InstanceStep(r, h, bytes, op, update).resource;
      GoodResource(owner, after) && after.name == r.name
  {
    hide NameIdOf, Decimal, WithInstance, StoredValue;
    GoodWithInstance(owner, r, r.rtype, GET_PUT_POST_DELETE_ALLOWED, h.id);
  }

  lemma {:induction false} GoodAfterInstances(m: Memory, size: nat, offset: nat, owner: Text, r: Resource, op: Operation, update: bool)
    requires |owner| <= MAX_OWNER && GoodResource(owner, r)
    ensures var after := WalkInstances(m, size, offset, r, op, update).resource;
      GoodResource(owner, after) && after.name == r.name
    decreases Remaining(size, offset)
  {
    hide GoodResource, DecodeHeader, InstanceStep;
    var h := DecodeHeader(m, offset);
    if h.kind == TYPE_MULTIPLE_RESOURCE || h.kind == TYPE_RESOURCE_INSTANCE {
      var bytes := Slice(m, h.next, h.length);
      GoodInstanceStep(owner, r, h, bytes, op, update);
      if h.End() < size {
        GoodAfterInstances(m, size, h.End(), owner, InstanceStep(r, h, bytes, op, update).resource, op, update);
      }
    }
  }

  lemma GoodCreated(owner: Text, rs: seq<Resource>, id: nat, multiple: bool)
    requires |owner| <= MAX_OWNER && GoodResources(owner, rs) && id < ID_LIMIT
    ensures GoodResource(owner, Created(owner, id, multiple))
    ensures FindNameId(rs, id) < 0 ==> FindName(rs, Decimal(id)) < 0
  {
    NameIdOfDecimal(id);
    GoodNewResource(owner, Decimal(id), OPAQUE, GET_PUT_POST_DELETE_ALLOWED, multiple);
    GoodImpliesInvariant(owner, rs);
    if FindNameId(rs, id) < 0 {
      UnknownIdUnusedName(rs, id);
    }
  }

  lemma GoodAssigned(owner: Text, r: Resource, bytes: seq<byte>)
    requires GoodResource(owner, r)
    ensures GoodResource(owner, Assigned(r, bytes))
  {
    hide NameIdOf, Decimal, StoredValue;
  }

  lemma GoodResourceStep(owner: Text, rs: seq<Resource>, id: nat, bytes: seq<byte>, op: Operation, update: bool)
    requires |owner| <= MAX_OWNER && GoodResources(owner, rs) && id < ID_LIMIT
    ensures GoodResources(owner, ResourceStep(owner, rs, id, bytes, op, update).resources)
  {
    hide GoodResource, Decimal;
    var i := FindNameId(rs, id);
    GoodCreated(owner, rs, id, false);
    if i >= 0 {
      GoodAssigned(owner, rs[i], bytes);
      GoodUpdate(owner, rs, i, Assigned(rs[i], bytes));
    } else {
      GoodAppend(owner, rs, Created(owner, id, false));
    }
  }

  lemma GoodMultipleStep(m: Memory, size: nat, owner: Text, rs: seq<Resource>, h: Header, op: Operation, update: bool)
    requires |owner| <= MAX_OWNER && GoodResources(owner, rs) && h.id < ID_LIMIT
    ensures GoodResources(owner, MultipleStep(m, size, owner, rs, h, op, update).resources)
  {
    hide GoodResource, Decimal, WalkInstances;
    if LastMultiple(rs, h.id) >= 0 {
      var after := WalkMatching(m, size, h.next, rs, h.id, op, update);
      forall k | 0 <= k < |rs|
        ensures GoodResource(owner, after[k]) && after[k].name == rs[k].name
      {
        GoodAfterInstances(m, size, h.next, owner, rs[k], op, update);
      }
    } else if op.Post? && FindName(rs, Decimal(h.id)) < 0 {
      GoodCreated(owner, rs, h.id, true);
      GoodAfterInstances(m, size, h.next, owner, Created(owner, h.id, true), op, update);
      GoodAppend(owner, rs, WalkInstances(m, size, h.next, Created(owner, h.id, true), op, update).resource);
    }
  }

  lemma {:induction false} GoodAfterWalk(m: Memory, size: nat, offset: nat, owner: Text, rs: seq<Resource>, op: Operation, update: bool)
    requires |owner| <= MAX_OWNER && GoodResources(owner, rs)
    ensures GoodResources(owner, WalkResources(m, size, offset, owner, rs, op, update).resources)
    decreases Remaining(size, offset)
  {
    hide GoodResources, DecodeHeader, ResourceStep, MultipleStep;
    var h := DecodeHeader(m, offset);
    if h.kind != TYPE_OBJECT_INSTANCE {
      var bytes := Slice(m, h.next, h.length);
      GoodResourceStep(owner, rs, h.id, bytes, op, update);
      GoodMultipleStep(m, size, owner, rs, h, op, update);
      if h.End() < size {
        var rs' := if h.kind == TYPE_MULTIPLE_RESOURCE then MultipleStep(m, size, owner, rs, h, op, update).resources
          else ResourceStep(owner, rs, h.id, bytes, op, update).resources;
        GoodAfterWalk(m, size, h.End(), owner, rs', op, update);
      }
    }
  }

  lemma {:induction false} KeptIsOld(rs: seq<Resource>, ids: set<int>)
    ensures forall k :: 0 <= k < |Keep(rs, ids)| ==> Keep(rs, ids)[k] in rs
  {
    if rs != [] {
      KeptIsOld(rs[..|rs| - 1], ids);
    }
  }

  lemma {:induction false} GoodKept(owner: Text, rs: seq<Resource>, ids: set<int>)
    requires GoodResources(owner, rs)
    ensures GoodResources(owner, Keep(rs, ids))
  {
    hide GoodResource;
    if rs != [] {
      var init, r := rs[..|rs| - 1], rs[|rs| - 1];
      GoodKept(owner, init, ids);
      KeptIsOld(init, ids);
      if r.nameId in ids {
        assert FindName(Keep(init, ids), r.name) < 0;
        GoodAppend(owner, Keep(init, ids), r);
      }
    }
  }

  /**
   * Any payload from which the deserializer returns, well formed or not, leaves a well-formed resource
   * list. It returns from every PUT; `TlvPost.PostReadsNullExactly` says from which POSTs it does not.
   */
  lemma GoodAfterPayload(m: Memory, size: nat, owner: Text, rs: seq<Resource>, op: Operation)
    requires |owner| <= MAX_OWNER && GoodResources(owner, rs)
    requires Deserialize(m, size, owner, rs, op).error != NullRead
    ensures GoodResources(owner, Deserialize(m, size, owner, rs, op).resources)
  {
    hide GoodResources, WalkResources, WalkIds, DecodeHeader;
    GoodAfterWalk(m, size, 0, owner, rs, op, false);
    var checked := WalkResources(m, size, 0, owner, rs, op, false).resources;
    GoodKept(owner, checked, WalkIds(m, size, 0));
    var kept := if op.Put? then Keep(checked, WalkIds(m, size, 0)) else checked;
    GoodAfterWalk(m, size, 0, owner, kept, op, true);
  }

  // ----- runs

  /** A call on the resources of one object instance. */
  datatype ResourceCall =
    | CreateResource(name: Text, rtype: ResourceType, multiple: bool)
    | CreateResourceInstance(name: Text, rtype: ResourceType, id: nat)
    | RemoveResource(name: Text)
    | RemoveResourceInstance(name: Text, id: nat)
    | ApplyPayload(m: Memory, size: nat, op: Operation)

  datatype TreeCall =
    | AddObject(name: Text)
    | CreateObjectInstance(o: nat, id: nat)
    | RemoveObjectInstance(o: nat, id: nat)
    | OnInstance(o: nat, i: nat, call: ResourceCall)

  function CallResources(owner: Text, rs: seq<Resource>, c: ResourceCall): (kept: seq<Resource>) {
    match c
    case CreateResource(name, rtype, multiple) => WithResource(owner, rs, name, rtype, multiple)
    case CreateResourceInstance(name, rtype, id) => WithResourceInstance(owner, rs, name, rtype, id)
    case RemoveResource(name) => WithoutResource(rs, name)
    case RemoveResourceInstance(name, id) => WithoutResourceInstance(rs, name, id)
    case ApplyPayload(m, size, op) => Deserialize(m, size, owner, rs, op).resources
  }

  /** A call on the resources returns unless it is a payload that reads through a null reference. */
  predicate CallReturns(owner: Text, rs: seq<Resource>, c: ResourceCall) {
    c.ApplyPayload? ==> Deserialize(c.m, c.size, owner, rs, c.op).error != NullRead
  }

  /** The tree after a call, or none when the call does not return. */
  function Call(t: Tree, c: TreeCall): (r: Option<Tree>) {
    match c
    case AddObject(name) => Some(t + [ObjectNode(name, name, [])])
    case CreateObjectInstance(o, id) => Some(if o < |t| then t[o := WithObjectInstance(t[o], id)] else t)
    case RemoveObjectInstance(o, id) => Some(if o < |t| then t[o := WithoutObjectInstance(t[o], id)] else t)
    case OnInstance(o, i, call) =>
      if o < |t| && i < |t[o].instances| then
        var n := t[o].instances[i];
        if CallReturns(n.path, n.resources, call) then
          Some(t[o := t[o].(instances := t[o].instances[i := n.(resources := CallResources(n.path, n.resources, call))])])
        else None
      else Some(t)
  }

  /** What the application has to respect: slash-free names, distinct object names, 16-bit identifiers. */
  predicate Permitted(t: Tree, c: TreeCall) {
    match c
    case AddObject(name) => GoodName(name) && forall k :: 0 <= k < |t| ==> t[k].name != name
    case CreateObjectInstance(_, id) => id < ID_LIMIT
    case RemoveObjectInstance(_, _) => true
    case OnInstance(_, _, CreateResource(name, _, _)) => SlashFree(name)
    case OnInstance(_, _, CreateResourceInstance(name, _, id)) => SlashFree(name) && id < ID_LIMIT
    case OnInstance(_, _, _) => true
  }

  /** The tree after a run of calls, or none when one of them does not return. */
  function Run(t: Tree, calls: seq<TreeCall>): (r: Option<Tree>)
    decreases |calls|
  {
    if calls == [] then Some(t)
    else match Call(t, calls[0])
      case None => None
      case Some(t') => Run(t', calls[1..])
  }

  predicate AllPermitted(t: Tree, calls: seq<TreeCall>)
    decreases |calls|
  {
    calls != [] ==>
      && Permitted(t, calls[0])
      && (Call(t, calls[0]).Some? ==> AllPermitted(Call(t, calls[0]).value, calls[1..]))
  }

  lemma GoodAfterCallOnResources(owner: Text, rs: seq<Resource>, o: nat, i: nat, c: ResourceCall, t: Tree)
    requires |owner| <= MAX_OWNER && GoodResources(owner, rs) && Permitted(t, OnInstance(o, i, c))
    requires CallReturns(owner, rs, c)
    ensures GoodResources(owner, CallResources(owner, rs, c))
  {
    hide GoodResources, Deserialize, WithResourceInstance, WithoutResourceInstance;
    match c {
      case CreateResource(name, rtype, multiple) =>
        if NameLengthValid(name) && FindName(rs, name) < 0 {
          GoodNewResource(owner, name, rtype, GET_PUT_ALLOWED, multiple);
          GoodAppend(owner, rs, NewResource(owner, name, rtype, GET_PUT_ALLOWED, multiple));
        }
      case CreateResourceInstance(name, rtype, id) =>
        GoodWithResourceInstance(owner, rs, name, rtype, id);
      case RemoveResource(name) =>
        if FindName(rs, name) >= 0 {
          GoodErase(owner, rs, FindName(rs, name));
        }
      case RemoveResourceInstance(name, id) =>
        GoodWithoutResourceInstance(owner, rs, name, id);
      case ApplyPayload(m, size, op) =>
        GoodAfterPayload(m, size, owner, rs, op);
    }
  }

  lemma OwnerFits(o: ObjectNode, n: InstanceNode)
    requires GoodName(o.name) && o.path == o.name && GoodInstance(o.path, n)
    ensures |n.path| <= MAX_OWNER
  {
    IdLength(n.id);
  }

  lemma GoodWithObjectInstance(o: ObjectNode, id: nat)
    requires GoodObject(o) && id < ID_LIMIT
    ensures GoodObject(WithObjectInstance(o, id))
  {
    hide BoundedPath, Decimal;
    IdLength(id);
    FitsBuffer(o.path, Decimal(id));
  }

  lemma GoodInstanceChange(o: ObjectNode, i: nat, rs: seq<Resource>)
    requires GoodObject(o) && i < |o.instances| && GoodResources(o.instances[i].path, rs)
    ensures GoodObject(o.(instances := o.instances[i := o.instances[i].(resources := rs)]))
  {
    hide GoodResources, Decimal;
  }

  lemma GoodTreeChange(t: Tree, k: nat, o: ObjectNode)
    requires GoodTree(t) && k < |t| && GoodObject(o) && o.name == t[k].name
    ensures GoodTree(t[k := o])
  {
    hide GoodObject;
  }

  lemma GoodAfterCall(t: Tree, c: TreeCall)
    requires GoodTree(t) && Permitted(t, c) && Call(t, c).Some?
    ensures GoodTree(Call(t, c).value)
  {
    match c {
      case AddObject(name) =>
      case CreateObjectInstance(o, id) =>
        if o < |t| {
          GoodWithObjectInstance(t[o], id);
          GoodTreeChange(t, o, WithObjectInstance(t[o], id));
        }
      case RemoveObjectInstance(o, id) =>
        if o < |t| {
          GoodTreeChange(t, o, WithoutObjectInstance(t[o], id));
        }
      case OnInstance(o, i, call) =>
        if o < |t| && i < |t[o].instances| {
          var n := t[o].instances[i];
          assert GoodObject(t[o]) && GoodInstance(t[o].path, n);
          OwnerFits(t[o], n);
          GoodAfterCallOnResources(n.path, n.resources, o, i, call, t);
          GoodInstanceChange(t[o], i, CallResources(n.path, n.resources, call));
          GoodTreeChange(t, o, t[o].(instances := t[o].instances[i := n.(resources := CallResources(n.path, n.resources, call))]));
        }
    }
  }

  lemma {:induction false} GoodAfterRun(t: Tree, calls: seq<TreeCall>)
    requires GoodTree(t) && AllPermitted(t, calls) && Run(t, calls).Some?
    ensures GoodTree(Run(t, calls).value)
    decreases |calls|
  {
    hide GoodTree, Permitted, Call;
    if calls != [] {
      GoodAfterCall(t, calls[0]);
      GoodAfterRun(Call(t, calls[0]).value, calls[1..]);
    }
  }

  /** Exactly which calls read through a null reference. */
  lemma CallStopsExactly(t: Tree, c: TreeCall)
    requires GoodTree(t) && Permitted(t, c)
    ensures Call(t, c).None? <==>
            && c.OnInstance? && c.call.ApplyPayload? && c.call.op == Post
            && c.o < |t| && c.i < |t[c.o].instances|
            && var m, rs := c.call.m, t[c.o].instances[c.i].resources;
            && (DecodeHeader(m, 0).kind == TYPE_RESOURCE || DecodeHeader(m, 0).kind == TYPE_MULTIPLE_RESOURCE)
            && ReadsNull(m, rs, Headers(m, c.call.size, 0))
  {
    hide Deserialize, ReadsNull, Headers, DecodeHeader, GoodResources, CallResources, WithObjectInstance, WithoutObjectInstance;
    if c.OnInstance? && c.o < |t| && c.i < |t[c.o].instances| && c.call.ApplyPayload? {
      var n := t[c.o].instances[c.i];
      assert GoodObject(t[c.o]) && GoodInstance(t[c.o].path, n);
      GoodImpliesInvariant(n.path, n.resources);
      PostReadsNullExactly(c.call.m, c.call.size, n.path, n.resources);
      PutReturns(c.call.m, c.call.size, n.path, n.resources);
    }
  }

  /**
   * In every tree that a run of calls builds from nothing, each node's path is the untruncated join of
   * its ancestors, no two nodes share a path, and a located node is the only one with its path.
   */
  lemma ReachableTree(calls: seq<TreeCall>, n: Node, path: Text, found: Option<Node>)
    requires AllPermitted([], calls) && Run([], calls).Some?
    requires IsNode(Run([], calls).value, n) && Located(Run([], calls).value, path, found)
    ensures var t := Run([], calls).value;
            && PathOf(t, n) == Joined(Ancestry(t, n), SLASH)
            && (forall m | IsNode(t, m) && PathOf(t, m) == PathOf(t, n) :: m == n)
            && (found == Some(n) <==> PathOf(t, n) == path)
  {
    hide Run, Ancestry, PathOf, GoodTree, Located;
    var t := Run([], calls).value;
    NoObjects();
    GoodAfterRun([], calls);
    PathIsAncestry(t, n);
    forall m | IsNode(t, m) && PathOf(t, m) == PathOf(t, n)
      ensures m == n
    {
      PathsAreUnique(t, m, n);
    }
    ExactOnGoodTrees(t, path, found);
  }

  lemma NoObjects()
    ensures GoodTree([])
  {
  }
}
