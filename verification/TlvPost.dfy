/** Exactly which POST payloads make the deserializer read through a null reference. */
module TlvPost {
  import opened Bytes
  import opened M2MString
  import opened TlvHeader
  import opened ObjectModel
  import opened ObjectTree
  import opened TlvWalk
  import opened TlvFlat

  /** The headers of the entries that the walk at the resource level reaches. */
  function Headers(m: Memory, size: nat, offset: nat): (hs: seq<Header>)
    decreases Remaining(size, offset)
  {
    var h := DecodeHeader(m, offset);
    if h.kind == TYPE_OBJECT_INSTANCE then []
    else [h] + if h.End() < size then Headers(m, size, h.End()) else []
  }

  /** What the creation of resources depends on: is there a multiple one, is the name taken, is the id known? */
  datatype Standing = Standing(multiple: bool, named: bool, known: bool)

  function StandingOf(rs: seq<Resource>, id: nat): (s: Standing) {
    Standing(LastMultiple(rs, id) >= 0, FindName(rs, Decimal(id)) >= 0, FindNameId(rs, id) >= 0)
  }

  /** The standing of an id after a POST entry for it. */
  function AfterEntry(s: Standing, kind: nat): (r: Standing) {
    if kind != TYPE_MULTIPLE_RESOURCE then if s.known then s else Standing(s.multiple, true, true)
    else if s.multiple || s.named then s
    else Standing(true, true, true)
  }

  function AfterEntries(s: Standing, hs: seq<Header>, id: nat): (r: Standing)
    decreases |hs|
  {
    if hs == [] then s
    else AfterEntries(if hs[0].id == id then AfterEntry(s, hs[0].kind) else s, hs[1..], id)
  }

  /** The first entry for an id, if there is one, is not of type multiple resource. */
  predicate FirstIsSingle(hs: seq<Header>, id: nat)
    decreases |hs|
  {
    hs != [] && if hs[0].id == id then hs[0].kind != TYPE_MULTIPLE_RESOURCE else FirstIsSingle(hs[1..], id)
  }

  predicate BelowAccepted(m: Memory, h: Header) {
    IsBelow(DecodeHeader(m, h.next).kind)
  }

  /**
   * An entry of type multiple resource, with an acceptable entry below it, whose id has only a single
   * resource: one that was there, or one that an earlier entry of the same payload made.
   */
  predicate NullEntry(m: Memory, rs: seq<Resource>, hs: seq<Header>, k: nat)
    requires k < |hs|
  {
    var id := hs[k].id;
    && hs[k].kind == TYPE_MULTIPLE_RESOURCE && BelowAccepted(m, hs[k])
    && LastMultiple(rs, id) < 0
    && (FindName(rs, Decimal(id)) >= 0 || (FindNameId(rs, id) < 0 && FirstIsSingle(hs[..k], id)))
  }

  predicate ReadsNull(m: Memory, rs: seq<Resource>, hs: seq<Header>) {
    exists k :: 0 <= k < |hs| && NullEntry(m, rs, hs, k)
  }

  // ----- standings

  predicate Sound(s: Standing) {
    (s.named ==> s.known) && (s.multiple ==> s.known)
  }

  predicate AllProper(rs: seq<Resource>) {
    forall k :: 0 <= k < |rs| ==> rs[k].nameId == NameIdOf(rs[k].name)
  }

  lemma StandingIsSound(rs: seq<Resource>, id: nat)
    requires AllProper(rs) && id < ID_LIMIT
    ensures Sound(StandingOf(rs, id))
  {
    hide NameIdOf, Decimal;
    NameIdOfDecimal(id);
  }

  lemma {:induction false} SettledStays(s: Standing, hs: seq<Header>, id: nat)
    requires s.known && (s.multiple || s.named)
    ensures AfterEntries(s, hs, id) == s
    decreases |hs|
  {
    if hs != [] {
      SettledStays(s, hs[1..], id);
    }
  }

  /** Only a single resource is left for an id exactly when there was only one, or the first entry made it. */
  lemma {:induction false} SingleExactly(s: Standing, hs: seq<Header>, id: nat)
    requires Sound(s)
    ensures var r := AfterEntries(s, hs, id);
            !r.multiple && r.named <==> !s.multiple && (s.named || (!s.known && FirstIsSingle(hs, id)))
    decreases |hs|
  {
    if hs != [] {
      var s1 := if hs[0].id == id then AfterEntry(s, hs[0].kind) else s;
      if s1.known && (s1.multiple || s1.named) {
        SettledStays(s1, hs[1..], id);
      } else {
        SingleExactly(s1, hs[1..], id);
      }
    }
  }

  // ----- one entry

  predicate SameNames(a: seq<Resource>, b: seq<Resource>) {
    && |a| == |b|
    && forall k :: 0 <= k < |a| ==> a[k].name == b[k].name && a[k].nameId == b[k].nameId && a[k].multiple == b[k].multiple
  }

  lemma SameNamesStand(a: seq<Resource>, b: seq<Resource>, id: nat)
    requires SameNames(a, b)
    ensures StandingOf(b, id) == StandingOf(a, id) && (AllProper(a) ==> AllProper(b))
  {
    hide Decimal, NameIdOf;
    var i, j := LastMultiple(a, id), LastMultiple(b, id);
    assert i >= 0 ==> IsMultiple(b[i], id);
    assert j >= 0 ==> IsMultiple(a[j], id);
  }

  lemma AppendStands(rs: seq<Resource>, r: Resource, id: nat)
    ensures var s, t := StandingOf(rs, id), StandingOf(rs + [r], id);
            && (t.multiple <==> s.multiple || IsMultiple(r, id))
            && (t.named <==> s.named || r.name == Decimal(id))
            && (t.known <==> s.known || r.nameId == id)
  {
    hide Decimal;
    var all := rs + [r];
    assert all[|rs|] == r && forall k :: 0 <= k < |rs| ==> all[k] == rs[k];
    var i := LastMultiple(rs, id);
    assert i >= 0 ==> IsMultiple(all[i], id);
    var j := LastMultiple(all, id);
    assert 0 <= j < |rs| ==> IsMultiple(rs[j], id);
    var n, o := FindName(rs, Decimal(id)), FindName(all, Decimal(id));
    assert n >= 0 ==> all[n].name == Decimal(id);
    assert 0 <= o < |rs| ==> rs[o].name == Decimal(id);
    var x, y := FindNameId(rs, id), FindNameId(all, id);
    assert x >= 0 ==> all[x].nameId == id;
    assert 0 <= y < |rs| ==> rs[y].nameId == id;
  }

  lemma {:induction false} InstancesKeepName(m: Memory, size: nat, offset: nat, r: Resource, op: Operation, update: bool)
    ensures var after := WalkInstances(m, size, offset, r, op, update).resource;
            after.name == r.name && after.nameId == r.nameId && after.multiple == r.multiple
    decreases Remaining(size, offset)
  {
    hide DecodeHeader;
    var h := DecodeHeader(m, offset);
    if IsBelow(h.kind) && h.End() < size {
      InstancesKeepName(m, size, h.End(), InstanceStep(r, h, Slice(m, h.next, h.length), op, update).resource, op, update);
    }
  }

  /** The resource that an entry appends. */
  lemma CreatedStands(owner: Text, id: nat, multiple: bool, other: nat)
    requires id < ID_LIMIT && other < ID_LIMIT
    ensures var r := Created(owner, id, multiple);
            && r.nameId == id && r.nameId == NameIdOf(r.name) && r.multiple == multiple
            && (r.name == Decimal(other) <==> id == other)
  {
    NameIdOfDecimal(id);
    NameIdOfDecimal(other);
  }

  function Step(m: Memory, size: nat, owner: Text, rs: seq<Resource>, h: Header, update: bool): (o: Outcome) {
    if h.kind == TYPE_MULTIPLE_RESOURCE then MultipleStep(m, size, owner, rs, h, Post, update)
    else ResourceStep(owner, rs, h.id, Slice(m, h.next, h.length), Post, update)
  }

  /** A POST entry either keeps all names or appends one resource. */
  lemma StepShape(m: Memory, size: nat, owner: Text, rs: seq<Resource>, h: Header, update: bool)
    requires AllProper(rs) && h.id < ID_LIMIT
    ensures var o := Step(m, size, owner, rs, h, update);
            var s := StandingOf(rs, h.id);
            var multiple := h.kind == TYPE_MULTIPLE_RESOURCE;
            && (o.error == NullRead <==> multiple && BelowAccepted(m, h) && !s.multiple && s.named)
            && if (if multiple then s.multiple || s.named else s.known) then SameNames(rs, o.resources)
               else |o.resources| == |rs| + 1 && o.resources[..|rs|] == rs
                    && var r := o.resources[|rs|]; var made := Created(owner, h.id, multiple);
                       r.name == made.name && r.nameId == made.nameId && r.multiple == made.multiple
  {
    hide WalkInstances, DecodeHeader, Created, NameIdOf, Decimal, Assigned, ResourceForbids;
    if h.kind == TYPE_MULTIPLE_RESOURCE {
      MultipleShape(m, size, owner, rs, h, update);
    } else {
      ResourceShape(owner, rs, h.id, Slice(m, h.next, h.length), update);
    }
  }

  lemma ResourceShape(owner: Text, rs: seq<Resource>, id: nat, bytes: seq<byte>, update: bool)
    ensures var o := ResourceStep(owner, rs, id, bytes, Post, update);
            && o.error != NullRead
            && if FindNameId(rs, id) >= 0 then SameNames(rs, o.resources) else o.resources == rs + [Created(owner, id, false)]
  {
    hide Created;
  }

  lemma MultipleShape(m: Memory, size: nat, owner: Text, rs: seq<Resource>, h: Header, update: bool)
    ensures var o := MultipleStep(m, size, owner, rs, h, Post, update);
            var s := StandingOf(rs, h.id);
            && (o.error == NullRead <==> BelowAccepted(m, h) && !s.multiple && s.named)
            && if s.multiple || s.named then SameNames(rs, o.resources)
               else o.resources ==
                    rs + [WalkInstances(m, size, h.next, Created(owner, h.id, true), Post, update).resource]
    ensures var r, made := WalkInstances(m, size, h.next, Created(owner, h.id, true), Post, update).resource,
                           Created(owner, h.id, true);
            r.name == made.name && r.nameId == made.nameId && r.multiple == made.multiple
  {
    hide WalkInstances, DecodeHeader, Created, Decimal;
    forall k | 0 <= k < |rs|
      ensures var after := WalkInstances(m, size, h.next, rs[k], Post, update).resource;
              after.name == rs[k].name && after.nameId == rs[k].nameId && after.multiple == rs[k].multiple
    {
      InstancesKeepName(m, size, h.next, rs[k], Post, update);
    }
    InstancesKeepName(m, size, h.next, Created(owner, h.id, true), Post, update);
    InstancesReturn(m, size, h.next, Created(owner, h.id, true), Post, update);
    if LastMultiple(rs, h.id) >= 0 {
      InstancesReturn(m, size, h.next, rs[LastMultiple(rs, h.id)], Post, update);
    }
  }

  /** How an entry changes the standing of every id. */
  lemma StepStands(m: Memory, size: nat, owner: Text, rs: seq<Resource>, h: Header, update: bool, id: nat)
    requires AllProper(rs) && h.id < ID_LIMIT && id < ID_LIMIT
    ensures var rs' := Step(m, size, owner, rs, h, update).resources;
            && AllProper(rs')
            && StandingOf(rs', id) == if h.id == id then AfterEntry(StandingOf(rs, id), h.kind) else StandingOf(rs, id)
  {
    hide Step, Created, Decimal, NameIdOf, StandingOf, BelowAccepted;
    var rs' := Step(m, size, owner, rs, h, update).resources;
    var multiple := h.kind == TYPE_MULTIPLE_RESOURCE;
    StepShape(m, size, owner, rs, h, update);
    StandingIsSound(rs, h.id);
    StandingIsSound(rs, id);
    if SameNames(rs, rs') {
      SameNamesStand(rs, rs', id);
    } else {
      var r := rs'[|rs|];
      assert rs' == rs + [r];
      CreatedStands(owner, h.id, multiple, id);
      AppendStands(rs, r, id);
    }
  }

  // ----- the check pass

  /** The check pass of a POST reads through a null reference exactly at such an entry. */
  lemma {:induction false} CheckReadsNullExactly(m: Memory, size: nat, offset: nat, owner: Text, rs: seq<Resource>)
    requires AllProper(rs)
    ensures WalkResources(m, size, offset, owner, rs, Post, false).error == NullRead <==>
            ReadsNull(m, rs, Headers(m, size, offset))
    decreases Remaining(size, offset)
  {
    hide Step, DecodeHeader, AllProper, NullEntry, ReadsNull, WalkResources, Headers;
    var h := DecodeHeader(m, offset);
    var hs := Headers(m, size, offset);
    NoEntry(m, rs);
    if h.kind != TYPE_OBJECT_INSTANCE {
      WalkOneEntry(m, size, offset, owner, rs, false);
      HeadersFit(m, size, offset);
      var rs' := Step(m, size, owner, rs, h, false).resources;
      FirstNullEntry(m, size, owner, rs, hs);
      StepStands(m, size, owner, rs, h, false, h.id);
      LaterNullEntries(m, size, owner, rs, hs);
      if h.End() < size {
        assert hs[1..] == Headers(m, size, h.End());
        CheckReadsNullExactly(m, size, h.End(), owner, rs');
      } else {
        assert hs[1..] == [];
        NoEntry(m, rs');
      }
    } else {
      StopsAtObjectInstance(m, size, offset, owner, rs, false);
    }
  }

  lemma NoEntry(m: Memory, rs: seq<Resource>)
    ensures !ReadsNull(m, rs, [])
  {
  }

  lemma WalkOneEntry(m: Memory, size: nat, offset: nat, owner: Text, rs: seq<Resource>, update: bool)
    requires DecodeHeader(m, offset).kind != TYPE_OBJECT_INSTANCE
    ensures var h := DecodeHeader(m, offset);
            var o := Step(m, size, owner, rs, h, update);
            && WalkResources(m, size, offset, owner, rs, Post, update) ==
               (if o.error != NullRead && h.End() < size
                then WalkResources(m, size, h.End(), owner, o.resources, Post, update) else o)
            && Headers(m, size, offset) == [h] + if h.End() < size then Headers(m, size, h.End()) else []
  {
    hide DecodeHeader, MultipleStep, ResourceStep;
  }

  lemma FirstNullEntry(m: Memory, size: nat, owner: Text, rs: seq<Resource>, hs: seq<Header>)
    requires hs != [] && AllProper(rs) && hs[0].id < ID_LIMIT
    ensures NullEntry(m, rs, hs, 0) <==> Step(m, size, owner, rs, hs[0], false).error == NullRead
  {
    hide Step, Decimal;
    StepShape(m, size, owner, rs, hs[0], false);
  }

  predicate AllIdsFit(hs: seq<Header>) {
    forall k :: 0 <= k < |hs| ==> hs[k].id < ID_LIMIT
  }

  lemma {:induction false} HeadersFit(m: Memory, size: nat, offset: nat)
    ensures AllIdsFit(Headers(m, size, offset))
    decreases Remaining(size, offset)
  {
    hide DecodeHeader;
    var h := DecodeHeader(m, offset);
    if h.kind != TYPE_OBJECT_INSTANCE && h.End() < size {
      HeadersFit(m, size, h.End());
    }
  }

  /** After the first entry, the later ones fail on the changed list exactly when they fail on the first one. */
  lemma LaterNullEntries(m: Memory, size: nat, owner: Text, rs: seq<Resource>, hs: seq<Header>)
    requires hs != [] && AllProper(rs) && AllIdsFit(hs)
    ensures var rs' := Step(m, size, owner, rs, hs[0], false).resources;
            ReadsNull(m, rs, hs) <==> NullEntry(m, rs, hs, 0) || ReadsNull(m, rs', hs[1..])
  {
    hide Step, NullEntry, AllProper;
    var rs' := Step(m, size, owner, rs, hs[0], false).resources;
    forall k | 0 <= k < |hs| - 1
      ensures NullEntry(m, rs, hs, k + 1) <==> NullEntry(m, rs', hs[1..], k)
    {
      LaterNullEntry(m, size, owner, rs, hs, k);
    }
    if ReadsNull(m, rs, hs) {
      var k :| 0 <= k < |hs| && NullEntry(m, rs, hs, k);
      assert k > 0 ==> NullEntry(m, rs', hs[1..], k - 1);
    }
    if ReadsNull(m, rs', hs[1..]) {
      var k :| 0 <= k < |hs[1..]| && NullEntry(m, rs', hs[1..], k);
      assert NullEntry(m, rs, hs, k + 1);
    }
  }

  lemma LaterNullEntry(m: Memory, size: nat, owner: Text, rs: seq<Resource>, hs: seq<Header>, k: nat)
    requires k + 1 < |hs| && AllProper(rs) && AllIdsFit(hs)
    ensures NullEntry(m, rs, hs, k + 1) <==> NullEntry(m, Step(m, size, owner, rs, hs[0], false).resources, hs[1..], k)
  {
    hide Step, AllProper, Decimal;
    var rs' := Step(m, size, owner, rs, hs[0], false).resources;
    var id := hs[k + 1].id;
    assert hs[0].id < ID_LIMIT && id < ID_LIMIT;
    StepStands(m, size, owner, rs, hs[0], false, id);
    var s, s' := StandingOf(rs, id), StandingOf(rs', id);
    StandingIsSound(rs, id);
    StandingIsSound(rs', id);
    assert hs[..k + 1][1..] == hs[1..][..k];
    SingleExactly(s, hs[..k + 1], id);
    SingleExactly(s', hs[1..][..k], id);
  }

  // ----- the update pass

  /** Every entry of type multiple resource meets a multiple resource, or nothing acceptable below it. */
  predicate Provided(m: Memory, rs: seq<Resource>, hs: seq<Header>) {
    forall k :: 0 <= k < |hs| && hs[k].kind == TYPE_MULTIPLE_RESOURCE ==>
      LastMultiple(rs, hs[k].id) >= 0 || !BelowAccepted(m, hs[k])
  }

  lemma {:induction false} WalkKeepsMultiple(m: Memory, size: nat, offset: nat, owner: Text, rs: seq<Resource>,
                                             update: bool, id: nat)
    requires AllProper(rs) && id < ID_LIMIT && LastMultiple(rs, id) >= 0
    ensures LastMultiple(WalkResources(m, size, offset, owner, rs, Post, update).resources, id) >= 0
    decreases Remaining(size, offset)
  {
    hide Step, DecodeHeader, AllProper, WalkResources, LastMultiple;
    var h := DecodeHeader(m, offset);
    if h.kind != TYPE_OBJECT_INSTANCE {
      WalkOneEntry(m, size, offset, owner, rs, update);
      StepStands(m, size, owner, rs, h, update, id);
      var o := Step(m, size, owner, rs, h, update);
      if o.error != NullRead && h.End() < size {
        WalkKeepsMultiple(m, size, h.End(), owner, o.resources, update, id);
      }
    } else {
      StopsAtObjectInstance(m, size, offset, owner, rs, update);
    }
  }

  lemma StopsAtObjectInstance(m: Memory, size: nat, offset: nat, owner: Text, rs: seq<Resource>, update: bool)
    requires DecodeHeader(m, offset).kind == TYPE_OBJECT_INSTANCE
    ensures WalkResources(m, size, offset, owner, rs, Post, update) == Outcome(NotValid, rs)
    ensures Headers(m, size, offset) == []
  {
    hide DecodeHeader;
  }

  /** What the check pass of a POST leaves provides for all its entries. */
  lemma {:induction false} CheckProvides(m: Memory, size: nat, offset: nat, owner: Text, rs: seq<Resource>)
    requires AllProper(rs)
    requires WalkResources(m, size, offset, owner, rs, Post, false).error != NullRead
    ensures Provided(m, WalkResources(m, size, offset, owner, rs, Post, false).resources, Headers(m, size, offset))
    ensures AllProper(WalkResources(m, size, offset, owner, rs, Post, false).resources)
    decreases Remaining(size, offset)
  {
    hide Step, DecodeHeader, AllProper, WalkResources, LastMultiple, BelowAccepted, Headers;
    var h := DecodeHeader(m, offset);
    if h.kind != TYPE_OBJECT_INSTANCE {
      WalkOneEntry(m, size, offset, owner, rs, false);
      StepStands(m, size, owner, rs, h, false, h.id);
      StepShape(m, size, owner, rs, h, false);
      var o := Step(m, size, owner, rs, h, false);
      if h.End() < size {
        CheckProvides(m, size, h.End(), owner, o.resources);
        if LastMultiple(o.resources, h.id) >= 0 {
          WalkKeepsMultiple(m, size, h.End(), owner, o.resources, false, h.id);
        }
      }
    } else {
      StopsAtObjectInstance(m, size, offset, owner, rs, false);
    }
  }

  lemma ProvidedStays(m: Memory, size: nat, owner: Text, rs: seq<Resource>, h: Header, hs: seq<Header>)
    requires AllProper(rs) && h.id < ID_LIMIT && AllIdsFit(hs) && Provided(m, rs, hs)
    ensures Provided(m, Step(m, size, owner, rs, h, true).resources, hs)
  {
    hide Step, AllProper, LastMultiple, BelowAccepted, Decimal;
    forall k | 0 <= k < |hs| && hs[k].kind == TYPE_MULTIPLE_RESOURCE && LastMultiple(rs, hs[k].id) >= 0
      ensures LastMultiple(Step(m, size, owner, rs, h, true).resources, hs[k].id) >= 0
    {
      assert hs[k].id < ID_LIMIT;
      StepStands(m, size, owner, rs, h, true, hs[k].id);
    }
  }

  lemma {:induction false} UpdateReturns(m: Memory, size: nat, offset: nat, owner: Text, rs: seq<Resource>)
    requires AllProper(rs) && Provided(m, rs, Headers(m, size, offset))
    ensures WalkResources(m, size, offset, owner, rs, Post, true).error != NullRead
    decreases Remaining(size, offset)
  {
    hide Step, DecodeHeader, AllProper, WalkResources, LastMultiple, BelowAccepted, Headers;
    var h := DecodeHeader(m, offset);
    if h.kind != TYPE_OBJECT_INSTANCE {
      WalkOneEntry(m, size, offset, owner, rs, true);
      var hs := Headers(m, size, offset);
      assert hs[0] == h;
      StepShape(m, size, owner, rs, h, true);
      StepStands(m, size, owner, rs, h, true, h.id);
      if h.End() < size {
        var tail := Headers(m, size, h.End());
        assert hs[1..] == tail;
        assert Provided(m, rs, tail) by {
          assert forall k :: 0 <= k < |tail| ==> tail[k] == hs[k + 1];
        }
        HeadersFit(m, size, h.End());
        ProvidedStays(m, size, owner, rs, h, tail);
        UpdateReturns(m, size, h.End(), owner, Step(m, size, owner, rs, h, true).resources);
      }
    } else {
      StopsAtObjectInstance(m, size, offset, owner, rs, true);
    }
  }

  // ----- the theorems

  /**
   * A POST of any bytes reads through a null reference exactly when one of the entries it reaches is a
   * multiple resource with an acceptable entry below it and only a single resource for its id.
   */
  lemma PostReadsNullExactly(m: Memory, size: nat, owner: Text, rs: seq<Resource>)
    requires ListInvariant(rs)
    ensures Deserialize(m, size, owner, rs, Post).error == NullRead <==>
            var kind := DecodeHeader(m, 0).kind;
            (kind == TYPE_RESOURCE || kind == TYPE_MULTIPLE_RESOURCE) && ReadsNull(m, rs, Headers(m, size, 0))
  {
    hide WalkResources, DecodeHeader, Headers, ReadsNull, Provided, WalkIds;
    assert AllProper(rs) by {
      assert forall k :: 0 <= k < |rs| ==> ProperlyNamed(rs[k]);
    }
    CheckReadsNullExactly(m, size, 0, owner, rs);
    var check := WalkResources(m, size, 0, owner, rs, Post, false);
    if check.error == NoError {
      CheckProvides(m, size, 0, owner, rs);
      UpdateReturns(m, size, 0, owner, check.resources);
    }
  }

  /** A PUT of any bytes reads through no null reference. */
  lemma PutReturns(m: Memory, size: nat, owner: Text, rs: seq<Resource>)
    ensures Deserialize(m, size, owner, rs, Put).error != NullRead
  {
    hide WalkResources, DecodeHeader, WalkIds;
    PutWalkReturns(m, size, 0, owner, rs, false);
    var check := WalkResources(m, size, 0, owner, rs, Put, false);
    PutWalkReturns(m, size, 0, owner, Keep(check.resources, WalkIds(m, size, 0)), true);
  }

  lemma {:induction false} PutWalkReturns(m: Memory, size: nat, offset: nat, owner: Text, rs: seq<Resource>, update: bool)
    ensures WalkResources(m, size, offset, owner, rs, Put, update).error != NullRead
    decreases Remaining(size, offset)
  {
    hide DecodeHeader, MultipleStep, ResourceStep;
    var h := DecodeHeader(m, offset);
    var bytes := Slice(m, h.next, h.length);
    PutStepReturns(m, size, owner, rs, h, update);
    ResourceStepReturns(owner, rs, h.id, bytes, Put, update);
    if h.kind != TYPE_OBJECT_INSTANCE && h.End() < size {
      var step := if h.kind == TYPE_MULTIPLE_RESOURCE then MultipleStep(m, size, owner, rs, h, Put, update)
        else ResourceStep(owner, rs, h.id, bytes, Put, update);
      PutWalkReturns(m, size, h.End(), owner, step.resources, update);
    }
  }

  /** A multiple resource 5 holding instance 0, in four bytes. */
  function MultipleFive(): (m: Memory) {
    i => if i == 0 then 0x82 else if i == 1 then 5 else if i == 2 then 0x40 else 0
  }

  lemma MultipleFiveHeaders()
    ensures DecodeHeader(MultipleFive(), 0) == Header(TYPE_MULTIPLE_RESOURCE, 5, 2, 2)
    ensures DecodeHeader(MultipleFive(), 2).kind == TYPE_RESOURCE_INSTANCE
  {
    BigEndianOne(MultipleFive(), 1);
  }

  /** Posting it to an instance whose resource 5 is a single one reads through a null reference. */
  lemma PostReadsNull(owner: Text, rtype: ResourceType, access: nat)
    ensures var five := NewResource(owner, Decimal(5), rtype, access, false);
            ListInvariant([five]) && Deserialize(MultipleFive(), 4, owner, [five], Post).error == NullRead
  {
    hide WalkResources, DecodeHeader, Decimal, NameIdOf, Deserialize;
    var five := NewResource(owner, Decimal(5), rtype, access, false);
    NameIdOfDecimal(5);
    MultipleFiveHeaders();
    PostReadsNullExactly(MultipleFive(), 4, owner, [five]);
    var hs := Headers(MultipleFive(), 4, 0);
    assert hs == [Header(TYPE_MULTIPLE_RESOURCE, 5, 2, 2)];
    assert LastMultiple([five], 5) < 0 && FindName([five], Decimal(5)) == 0;
    assert NullEntry(MultipleFive(), [five], hs, 0);
  }

  /** A resource 5 without a value and then the multiple resource 5 of before, in six bytes. */
  function FiveTwice(): (m: Memory) {
    i => if i == 0 then 0xC0 else if i == 1 || i == 3 then 5 else if i == 2 then 0x82 else if i == 4 then 0x40 else 0
  }

  lemma FiveTwiceHeaders()
    ensures DecodeHeader(FiveTwice(), 0) == Header(TYPE_RESOURCE, 5, 0, 2)
    ensures DecodeHeader(FiveTwice(), 2) == Header(TYPE_MULTIPLE_RESOURCE, 5, 2, 4)
    ensures DecodeHeader(FiveTwice(), 4).kind == TYPE_RESOURCE_INSTANCE
  {
    BigEndianOne(FiveTwice(), 1);
    BigEndianOne(FiveTwice(), 3);
  }

  /** No resource has to be there: the payload makes its own single resource first. */
  lemma PostReadsNullInNewInstance(owner: Text)
    ensures Deserialize(FiveTwice(), 6, owner, [], Post).error == NullRead
  {
    hide WalkResources, DecodeHeader, Decimal, NameIdOf, Deserialize;
    FiveTwiceHeaders();
    PostReadsNullExactly(FiveTwice(), 6, owner, []);
    var hs := Headers(FiveTwice(), 6, 0);
    assert Headers(FiveTwice(), 6, 2) == [Header(TYPE_MULTIPLE_RESOURCE, 5, 2, 4)];
    assert hs == [Header(TYPE_RESOURCE, 5, 0, 2), Header(TYPE_MULTIPLE_RESOURCE, 5, 2, 4)];
    assert hs[..1] == [hs[0]];
    assert NullEntry(FiveTwice(), [], hs, 1);
  }

  // ----- the empty payload, which the callers do not hand over

  /** The entry that is read although the payload is empty names something that can be written. */
  predicate StaleAccepted(m: Memory, rs: seq<Resource>) {
    var h := DecodeHeader(m, 0);
    if h.kind == TYPE_RESOURCE then LastVerdict(rs, h.id) == NoError
    else
      && h.kind == TYPE_MULTIPLE_RESOURCE && LastMultiple(rs, h.id) >= 0
      && var ris, below := rs[LastMultiple(rs, h.id)].instances, DecodeHeader(m, h.next);
      && below.kind == TYPE_RESOURCE_INSTANCE
      && FindInstanceId(ris, below.id) >= 0 && !InstanceForbids(ris, below.id)
  }

  /** With no payload at all, such an entry makes a PUT remove every resource and still report NotFound. */
  lemma EmptyPutRemovesEverything(m: Memory, owner: Text, rs: seq<Resource>)
    ensures var after := Deserialize(m, 0, owner, rs, Put);
            if StaleAccepted(m, rs) then after == Outcome(NotFound, []) && rs != []
            else after.error != NoError && after.resources == rs
  {
    hide DecodeHeader;
    var h := DecodeHeader(m, 0);
    if h.kind == TYPE_RESOURCE || h.kind == TYPE_MULTIPLE_RESOURCE {
      EmptyCheck(m, owner, rs);
      KeepNothing(rs);
      EmptyCheck(m, owner, []);
    }
  }

  lemma EmptyCheck(m: Memory, owner: Text, rs: seq<Resource>)
    requires DecodeHeader(m, 0).kind == TYPE_RESOURCE || DecodeHeader(m, 0).kind == TYPE_MULTIPLE_RESOURCE
    ensures WalkResources(m, 0, 0, owner, rs, Put, false).error == NoError <==> StaleAccepted(m, rs)
    ensures WalkResources(m, 0, 0, owner, rs, Put, false).resources == rs
    ensures WalkResources(m, 0, 0, owner, [], Put, true) == Outcome(NotFound, [])
  {
    hide DecodeHeader;
    PutCheckChangesNothing(m, 0, 0, owner, rs);
    var h := DecodeHeader(m, 0);
    if h.kind == TYPE_MULTIPLE_RESOURCE && LastMultiple(rs, h.id) >= 0 {
      var below := DecodeHeader(m, h.next);
      assert WalkInstances(m, 0, h.next, rs[LastMultiple(rs, h.id)], Put, false).error ==
             if !IsBelow(below.kind) then NotValid
             else InstanceStep(rs[LastMultiple(rs, h.id)], below, Slice(m, below.next, below.length), Put, false).error;
    }
  }

  lemma {:induction false} KeepNothing(rs: seq<Resource>)
    ensures Keep(rs, {}) == []
  {
    if rs != [] {
      KeepNothing(rs[..|rs| - 1]);
    }
  }

  lemma EmptyPutRemoves(owner: Text, rtype: ResourceType)
    ensures var five := NewResource(owner, Decimal(5), rtype, GET_PUT_ALLOWED, false);
            Deserialize(FiveTwice(), 0, owner, [five], Put) == Outcome(NotFound, [])
  {
    hide WalkResources, DecodeHeader, Decimal, NameIdOf, Deserialize;
    var five := NewResource(owner, Decimal(5), rtype, GET_PUT_ALLOWED, false);
    NameIdOfDecimal(5);
    FiveTwiceHeaders();
    EmptyPutRemovesEverything(FiveTwice(), owner, [five]);
    assert FindNameId([five], 5) == 0;
    assert !Forbids(five.access) by { assert BitAnd(GET_PUT_ALLOWED, PUT_ALLOWED) != 0; }
  }
}
