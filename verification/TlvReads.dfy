/** Which bytes a PUT or POST reads, and exactly when all of them belong to the payload. */
module TlvReads {
  import opened Bytes
  import opened M2MString
  import opened TlvHeader
  import opened ObjectModel
  import opened TlvWalk

  function Max(x: nat, y: nat): (z: nat)
    ensures z >= x && z >= y && (z == x || z == y)
  {
    if x < y then y else x
  }

  // ----- how far the reads go

  /** The update pass copies the value of this entry into an instance of the resource. */
  predicate Stored(r: Resource, h: Header) {
    h.kind == TYPE_RESOURCE_INSTANCE && FindInstanceId(r.instances, h.id) >= 0
  }

  /** The end of what `deserialize_resource_instances` reads: headers, and the values that it stores. */
  function InstanceReach(m: Memory, size: nat, offset: nat, r: Resource, op: Operation, update: bool): (end: nat)
    decreases Remaining(size, offset)
  {
    var h := DecodeHeader(m, offset);
    if !IsBelow(h.kind) then h.next
    else
      var own := if update && Stored(r, h) then h.End() else h.next;
      var after := InstanceStep(r, h, Slice(m, h.next, h.length), op, update).resource;
      if h.End() < size then Max(own, InstanceReach(m, size, h.End(), after, op, update)) else own
  }

  /** The same for all multiple resources that an identifier denotes. */
  function MatchingReach(m: Memory, size: nat, offset: nat, rs: seq<Resource>, id: nat, op: Operation, update: bool):
    (end: nat)
    decreases |rs|
  {
    if rs == [] then 0
    else
      var r := rs[|rs| - 1];
      Max(MatchingReach(m, size, offset, rs[..|rs| - 1], id, op, update),
          if IsMultiple(r, id) then InstanceReach(m, size, offset, r, op, update) else 0)
  }

  function MultipleReach(m: Memory, size: nat, owner: Text, rs: seq<Resource>, h: Header, op: Operation, update: bool):
    (end: nat)
  {
    if LastMultiple(rs, h.id) >= 0 then MatchingReach(m, size, h.next, rs, h.id, op, update)
    else if op.Put? then 0
    else if FindName(rs, Decimal(h.id)) >= 0 then DecodeHeader(m, h.next).next
    else InstanceReach(m, size, h.next, Created(owner, h.id, true), op, update)
  }

  function EntryReach(m: Memory, size: nat, owner: Text, rs: seq<Resource>, h: Header, op: Operation, update: bool):
    (end: nat)
  {
    if h.kind == TYPE_MULTIPLE_RESOURCE then Max(h.next, MultipleReach(m, size, owner, rs, h, op, update))
    else if update && FindNameId(rs, h.id) >= 0 then h.End()
    else h.next
  }

  /** One entry at the resource level. */
  function Entry(m: Memory, size: nat, owner: Text, rs: seq<Resource>, h: Header, op: Operation, update: bool):
    (out: Outcome)
  {
    if h.kind == TYPE_MULTIPLE_RESOURCE then MultipleStep(m, size, owner, rs, h, op, update)
    else ResourceStep(owner, rs, h.id, Slice(m, h.next, h.length), op, update)
  }

  /** The end of what the recursive `deserialize_resources` reads. */
  function WalkReach(m: Memory, size: nat, offset: nat, owner: Text, rs: seq<Resource>, op: Operation, update: bool):
    (end: nat)
    decreases Remaining(size, offset)
  {
    var h := DecodeHeader(m, offset);
    if h.kind == TYPE_OBJECT_INSTANCE then h.next
    else
      var own := EntryReach(m, size, owner, rs, h, op, update);
      var step := Entry(m, size, owner, rs, h, op, update);
      if step.error != NullRead && h.End() < size
      then Max(own, WalkReach(m, size, h.End(), owner, step.resources, op, update)) else own
  }

  /** The end of what `remove_resources` reads. */
  function IdsReach(m: Memory, size: nat, offset: nat): (end: nat)
    decreases Remaining(size, offset)
  {
    if offset < size then
      var h := DecodeHeader(m, offset);
      Max(h.next, IdsReach(m, size, h.End()))
    else 0
  }

  /** The end of what the public `deserialize_resources` reads. */
  function Reach(m: Memory, size: nat, owner: Text, rs: seq<Resource>, op: Operation): (end: nat) {
    var kind := DecodeHeader(m, 0).kind;
    if kind != TYPE_RESOURCE && kind != TYPE_MULTIPLE_RESOURCE then 1
    else
      var check := WalkResources(m, size, 0, owner, rs, op, false);
      var read := WalkReach(m, size, 0, owner, rs, op, false);
      if check.error != NoError then read
      else
        var kept := if op.Put? then Keep(check.resources, WalkIds(m, size, 0)) else check.resources;
        Max(Max(read, if op.Put? then IdsReach(m, size, 0) else 0), WalkReach(m, size, 0, owner, kept, op, true))
  }

  // ----- nothing else is read

  ghost predicate Agree(m: Memory, n: Memory, end: nat) {
    forall i :: 0 <= i < end ==> m(i) == n(i)
  }

  lemma SameSlice(m: Memory, n: Memory, at: nat, length: nat)
    requires Agree(m, n, at + length)
    ensures Slice(n, at, length) == Slice(m, at, length)
  {
  }

  lemma SameHeader(m: Memory, n: Memory, offset: nat)
    requires Agree(m, n, DecodeHeader(m, offset).next)
    ensures DecodeHeader(n, offset) == DecodeHeader(m, offset)
  {
    hide BigEndian;
    var b := m(offset);
    var idBytes, lengthBytes := 1 + b / 32 % 2, b / 8 % 4;
    assert DecodeHeader(m, offset).next == offset + 1 + idBytes + lengthBytes;
    assert n(offset) == b;
    SameSlice(m, n, offset + 1, idBytes);
    SameSlice(m, n, offset + 1 + idBytes, lengthBytes);
  }

  lemma {:induction false} InstancesDepend(m: Memory, n: Memory, size: nat, offset: nat, r: Resource, op: Operation,
                                           update: bool)
    requires Agree(m, n, InstanceReach(m, size, offset, r, op, update))
    ensures WalkInstances(n, size, offset, r, op, update) == WalkInstances(m, size, offset, r, op, update)
    ensures InstanceReach(n, size, offset, r, op, update) == InstanceReach(m, size, offset, r, op, update)
    decreases Remaining(size, offset)
  {
    hide DecodeHeader, Slice, WithInstance, InstanceForbids;
    var h := DecodeHeader(m, offset);
    SameHeader(m, n, offset);
    if IsBelow(h.kind) {
      SameInstanceStep(m, n, r, h, op, update);
      if h.End() < size {
        InstancesDepend(m, n, size, h.End(), InstanceStep(r, h, Slice(m, h.next, h.length), op, update).resource, op, update);
      }
    }
  }

  lemma SameInstanceStep(m: Memory, n: Memory, r: Resource, h: Header, op: Operation, update: bool)
    requires update && Stored(r, h) ==> Agree(m, n, h.End())
    ensures InstanceStep(r, h, Slice(n, h.next, h.length), op, update) ==
            InstanceStep(r, h, Slice(m, h.next, h.length), op, update)
  {
    hide Slice, WithInstance, InstanceForbids;
    if update && Stored(r, h) {
      SameSlice(m, n, h.next, h.length);
    }
  }

  lemma {:induction false} MatchingMember(m: Memory, size: nat, offset: nat, rs: seq<Resource>, id: nat, op: Operation,
                                          update: bool, k: nat)
    requires k < |rs| && IsMultiple(rs[k], id)
    ensures InstanceReach(m, size, offset, rs[k], op, update) <= MatchingReach(m, size, offset, rs, id, op, update)
    decreases |rs|
  {
    hide InstanceReach;
    if k < |rs| - 1 {
      MatchingMember(m, size, offset, rs[..|rs| - 1], id, op, update, k);
    }
  }

  lemma {:induction false} MatchingDepend(m: Memory, n: Memory, size: nat, offset: nat, rs: seq<Resource>, id: nat,
                                          op: Operation, update: bool)
    requires Agree(m, n, MatchingReach(m, size, offset, rs, id, op, update))
    ensures WalkMatching(n, size, offset, rs, id, op, update) == WalkMatching(m, size, offset, rs, id, op, update)
    ensures MatchingReach(n, size, offset, rs, id, op, update) == MatchingReach(m, size, offset, rs, id, op, update)
    decreases |rs|
  {
    hide InstanceReach, WalkInstances;
    if rs != [] {
      var init, r := rs[..|rs| - 1], rs[|rs| - 1];
      MatchingDepend(m, n, size, offset, init, id, op, update);
      if IsMultiple(r, id) {
        InstancesDepend(m, n, size, offset, r, op, update);
      }
      MatchingSnoc(m, size, offset, rs, id, op, update);
      MatchingSnoc(n, size, offset, rs, id, op, update);
    }
  }

  lemma MatchingSnoc(m: Memory, size: nat, offset: nat, rs: seq<Resource>, id: nat, op: Operation, update: bool)
    requires rs != []
    ensures var init, r := rs[..|rs| - 1], rs[|rs| - 1];
            WalkMatching(m, size, offset, rs, id, op, update) ==
            WalkMatching(m, size, offset, init, id, op, update) +
            [if IsMultiple(r, id) then WalkInstances(m, size, offset, r, op, update).resource else r]
  {
    hide WalkInstances;
  }

  lemma MultipleDepends(m: Memory, n: Memory, size: nat, owner: Text, rs: seq<Resource>, h: Header, op: Operation,
                        update: bool)
    requires Agree(m, n, MultipleReach(m, size, owner, rs, h, op, update))
    ensures MultipleStep(n, size, owner, rs, h, op, update) == MultipleStep(m, size, owner, rs, h, op, update)
    ensures MultipleReach(n, size, owner, rs, h, op, update) == MultipleReach(m, size, owner, rs, h, op, update)
  {
    hide InstanceReach, WalkInstances, MatchingReach, WalkMatching, DecodeHeader, Created, Decimal;
    var last := LastMultiple(rs, h.id);
    if last >= 0 {
      MatchingDepend(m, n, size, h.next, rs, h.id, op, update);
      MatchingMember(m, size, h.next, rs, h.id, op, update, last);
      InstancesDepend(m, n, size, h.next, rs[last], op, update);
    } else if op.Post? {
      if FindName(rs, Decimal(h.id)) >= 0 {
        SameHeader(m, n, h.next);
      } else {
        InstancesDepend(m, n, size, h.next, Created(owner, h.id, true), op, update);
      }
    }
  }

  lemma EntryDepends(m: Memory, n: Memory, size: nat, owner: Text, rs: seq<Resource>, h: Header, op: Operation,
                     update: bool)
    requires Agree(m, n, EntryReach(m, size, owner, rs, h, op, update))
    ensures Entry(n, size, owner, rs, h, op, update) == Entry(m, size, owner, rs, h, op, update)
    ensures EntryReach(n, size, owner, rs, h, op, update) == EntryReach(m, size, owner, rs, h, op, update)
  {
    hide MultipleReach, MultipleStep, Slice, Created, ResourceForbids, Assigned;
    if h.kind == TYPE_MULTIPLE_RESOURCE {
      MultipleDepends(m, n, size, owner, rs, h, op, update);
    } else if update && FindNameId(rs, h.id) >= 0 {
      SameSlice(m, n, h.next, h.length);
    }
  }

  lemma {:induction false} WalkDepends(m: Memory, n: Memory, size: nat, offset: nat, owner: Text, rs: seq<Resource>,
                                       op: Operation, update: bool)
    requires Agree(m, n, WalkReach(m, size, offset, owner, rs, op, update))
    ensures WalkResources(n, size, offset, owner, rs, op, update) == WalkResources(m, size, offset, owner, rs, op, update)
    ensures WalkReach(n, size, offset, owner, rs, op, update) == WalkReach(m, size, offset, owner, rs, op, update)
    decreases Remaining(size, offset)
  {
    hide DecodeHeader, MultipleStep, ResourceStep, EntryReach, Slice;
    var h := DecodeHeader(m, offset);
    ReachesHeader(m, size, offset, owner, rs, op, update);
    SameHeader(m, n, offset);
    if h.kind != TYPE_OBJECT_INSTANCE {
      EntryDepends(m, n, size, owner, rs, h, op, update);
      var step := Entry(m, size, owner, rs, h, op, update);
      if step.error != NullRead && h.End() < size {
        WalkDepends(m, n, size, h.End(), owner, step.resources, op, update);
      }
    }
  }

  lemma ReachesHeader(m: Memory, size: nat, offset: nat, owner: Text, rs: seq<Resource>, op: Operation, update: bool)
    ensures DecodeHeader(m, offset).next <= WalkReach(m, size, offset, owner, rs, op, update)
  {
    hide DecodeHeader, MultipleReach, Entry;
  }

  lemma {:induction false} IdsDepend(m: Memory, n: Memory, size: nat, offset: nat)
    requires Agree(m, n, IdsReach(m, size, offset))
    ensures WalkIds(n, size, offset) == WalkIds(m, size, offset)
    ensures IdsReach(n, size, offset) == IdsReach(m, size, offset)
    decreases Remaining(size, offset)
  {
    hide DecodeHeader;
    if offset < size {
      SameHeader(m, n, offset);
      IdsDepend(m, n, size, DecodeHeader(m, offset).End());
    }
  }

  lemma SameKind(m: Memory, n: Memory)
    requires m(0) == n(0)
    ensures DecodeHeader(n, 0).kind == DecodeHeader(m, 0).kind
  {
  }

  /** The bytes below the reach decide what a PUT or POST does; what follows them makes no difference. */
  lemma DependsOnReach(m: Memory, n: Memory, size: nat, owner: Text, rs: seq<Resource>, op: Operation)
    requires Agree(m, n, Reach(m, size, owner, rs, op))
    ensures Deserialize(n, size, owner, rs, op) == Deserialize(m, size, owner, rs, op)
    ensures Reach(n, size, owner, rs, op) == Reach(m, size, owner, rs, op)
  {
    hide DecodeHeader, WalkResources, WalkReach, WalkIds, IdsReach;
    ReachesHeader(m, size, 0, owner, rs, op, false);
    SameKind(m, n);
    var kind := DecodeHeader(m, 0).kind;
    if kind == TYPE_RESOURCE || kind == TYPE_MULTIPLE_RESOURCE {
      WalkDepends(m, n, size, 0, owner, rs, op, false);
      var check := WalkResources(m, size, 0, owner, rs, op, false);
      if check.error == NoError {
        if op.Put? {
          IdsDepend(m, n, size, 0);
        }
        var kept := if op.Put? then Keep(check.resources, WalkIds(m, size, 0)) else check.resources;
        WalkDepends(m, n, size, 0, owner, kept, op, true);
      }
    }
  }

  // ----- the entries that are reached

  /** The headers that the walk at the resource level decodes; it stops at one of an object instance. */
  function Reached(m: Memory, size: nat, offset: nat): (hs: seq<Header>)
    ensures hs != []
    decreases Remaining(size, offset)
  {
    var h := DecodeHeader(m, offset);
    [h] + if h.kind != TYPE_OBJECT_INSTANCE && h.End() < size then Reached(m, size, h.End()) else []
  }

  /** The headers that the walk below a multiple resource decodes, to the end of the whole payload. */
  function Below(m: Memory, size: nat, offset: nat): (hs: seq<Header>)
    ensures hs != []
    decreases Remaining(size, offset)
  {
    var h := DecodeHeader(m, offset);
    [h] + if IsBelow(h.kind) && h.End() < size then Below(m, size, h.End()) else []
  }

  predicate HeadersEnd(hs: seq<Header>, size: nat) {
    forall h :: h in hs ==> h.next <= size
  }

  /** Some multiple resource that `id` denotes has this instance. */
  predicate HasInstance(rs: seq<Resource>, id: int, instance: nat) {
    exists r :: r in rs && IsMultiple(r, id) && FindInstanceId(r.instances, instance) >= 0
  }

  /** The header, and all headers below it that are walked, end inside the payload. */
  predicate HeaderInside(m: Memory, size: nat, rs: seq<Resource>, op: Operation, h: Header) {
    && h.next <= size
    && (h.kind == TYPE_MULTIPLE_RESOURCE && (op.Post? || LastMultiple(rs, h.id) >= 0) ==>
          HeadersEnd(Below(m, size, h.next), size))
  }

  /** The values that the entry has stored end inside the payload. A POST makes what is missing. */
  predicate ValueInside(m: Memory, size: nat, rs: seq<Resource>, op: Operation, h: Header) {
    if h.kind == TYPE_MULTIPLE_RESOURCE then
      forall b | b in Below(m, size, h.next) && b.kind == TYPE_RESOURCE_INSTANCE ::
        (op.Post? || HasInstance(rs, h.id, b.id)) ==> b.End() <= size
    else if h.kind == TYPE_OBJECT_INSTANCE then true
    else (op.Post? || FindNameId(rs, h.id) >= 0) ==> h.End() <= size
  }

  // ----- the check pass

  lemma {:induction false} BelowChecked(m: Memory, size: nat, offset: nat, r: Resource, op: Operation)
    ensures InstanceReach(m, size, offset, r, op, false) <= size <==> HeadersEnd(Below(m, size, offset), size)
    decreases Remaining(size, offset)
  {
    hide DecodeHeader, Slice, InstanceStep;
    var h := DecodeHeader(m, offset);
    if IsBelow(h.kind) && h.End() < size {
      BelowChecked(m, size, h.End(), InstanceStep(r, h, Slice(m, h.next, h.length), op, false).resource, op);
      FirstAndRest([h], Below(m, size, h.End()), size);
    }
  }

  lemma FirstAndRest(a: seq<Header>, b: seq<Header>, size: nat)
    ensures HeadersEnd(a + b, size) <==> HeadersEnd(a, size) && HeadersEnd(b, size)
  {
    assert forall h :: h in a + b <==> h in a || h in b;
  }

  lemma {:induction false} MatchingExactly(m: Memory, size: nat, offset: nat, rs: seq<Resource>, id: nat, op: Operation,
                                           update: bool)
    ensures MatchingReach(m, size, offset, rs, id, op, update) <= size <==>
            forall r :: r in rs && IsMultiple(r, id) ==> InstanceReach(m, size, offset, r, op, update) <= size
    decreases |rs|
  {
    hide InstanceReach;
    if rs != [] {
      var init, last := rs[..|rs| - 1], rs[|rs| - 1];
      MatchingExactly(m, size, offset, init, id, op, update);
      assert forall r :: r in rs <==> r in init || r == last;
    }
  }

  lemma MultipleIn(rs: seq<Resource>, id: int)
    ensures LastMultiple(rs, id) >= 0 <==> exists r :: r in rs && IsMultiple(r, id)
  {
    var last := LastMultiple(rs, id);
    if last >= 0 {
      assert rs[last] in rs;
    }
  }

  lemma EntryChecked(m: Memory, size: nat, owner: Text, rs: seq<Resource>, h: Header, op: Operation)
    requires h.kind != TYPE_OBJECT_INSTANCE && Entry(m, size, owner, rs, h, op, false).error != NullRead
    ensures EntryReach(m, size, owner, rs, h, op, false) <= size <==> HeaderInside(m, size, rs, op, h)
  {
    hide InstanceReach, WalkInstances, MatchingReach, WalkMatching, DecodeHeader, Below, HeadersEnd, Created, Decimal;
    if h.kind == TYPE_MULTIPLE_RESOURCE {
      if LastMultiple(rs, h.id) >= 0 {
        MatchingChecked(m, size, h.next, rs, h.id, op);
      } else if op.Post? {
        if FindName(rs, Decimal(h.id)) >= 0 {
          NothingBelow(m, size, h.next);
        } else {
          BelowChecked(m, size, h.next, Created(owner, h.id, true), op);
        }
      }
    }
  }

  lemma MatchingChecked(m: Memory, size: nat, offset: nat, rs: seq<Resource>, id: nat, op: Operation)
    requires LastMultiple(rs, id) >= 0
    ensures MatchingReach(m, size, offset, rs, id, op, false) <= size <==> HeadersEnd(Below(m, size, offset), size)
  {
    hide InstanceReach, MatchingReach, HeadersEnd, Below;
    MatchingExactly(m, size, offset, rs, id, op, false);
    MultipleIn(rs, id);
    forall r | r in rs && IsMultiple(r, id)
      ensures InstanceReach(m, size, offset, r, op, false) <= size <==> HeadersEnd(Below(m, size, offset), size)
    {
      BelowChecked(m, size, offset, r, op);
    }
  }

  /** Where the walk below a null reference does not read it, it ends with that header. */
  lemma NothingBelow(m: Memory, size: nat, offset: nat)
    requires !IsBelow(DecodeHeader(m, offset).kind)
    ensures DecodeHeader(m, offset).next <= size <==> HeadersEnd(Below(m, size, offset), size)
  {
    hide DecodeHeader;
    assert DecodeHeader(m, offset) in Below(m, size, offset);
  }

  lemma WalkOne(m: Memory, size: nat, offset: nat, owner: Text, rs: seq<Resource>, op: Operation, update: bool)
    ensures var h := DecodeHeader(m, offset);
            WalkResources(m, size, offset, owner, rs, op, update) ==
            if h.kind == TYPE_OBJECT_INSTANCE then Outcome(NotValid, rs)
            else
              var o := Entry(m, size, owner, rs, h, op, update);
              if o.error != NullRead && h.End() < size
              then WalkResources(m, size, h.End(), owner, o.resources, op, update) else o
  {
    hide DecodeHeader, MultipleStep, ResourceStep;
  }

  ghost predicate AllHeadersInside(m: Memory, size: nat, rs: seq<Resource>, op: Operation, hs: seq<Header>) {
    forall h :: h in hs ==> HeaderInside(m, size, rs, op, h)
  }

  ghost predicate AllValuesInside(m: Memory, size: nat, rs: seq<Resource>, op: Operation, hs: seq<Header>) {
    forall h :: h in hs ==> ValueInside(m, size, rs, op, h)
  }

  lemma HeadersInsideCons(m: Memory, size: nat, rs: seq<Resource>, op: Operation, h: Header, hs: seq<Header>)
    ensures AllHeadersInside(m, size, rs, op, [h] + hs) <==>
            HeaderInside(m, size, rs, op, h) && AllHeadersInside(m, size, rs, op, hs)
  {
    hide HeaderInside;
    assert forall g :: g in [h] + hs <==> g == h || g in hs;
  }

  lemma ValuesInsideCons(m: Memory, size: nat, rs: seq<Resource>, op: Operation, h: Header, hs: seq<Header>)
    ensures AllValuesInside(m, size, rs, op, [h] + hs) <==>
            ValueInside(m, size, rs, op, h) && AllValuesInside(m, size, rs, op, hs)
  {
    hide ValueInside;
    assert forall g :: g in [h] + hs <==> g == h || g in hs;
  }

  lemma HeadersInsideOfPost(m: Memory, size: nat, a: seq<Resource>, b: seq<Resource>, hs: seq<Header>)
    ensures AllHeadersInside(m, size, a, Post, hs) <==> AllHeadersInside(m, size, b, Post, hs)
  {
    hide Below, HeadersEnd;
    assert forall h :: h in hs ==> (HeaderInside(m, size, a, Post, h) <==> HeaderInside(m, size, b, Post, h));
  }

  lemma ReachedOne(m: Memory, size: nat, offset: nat)
    ensures var h := DecodeHeader(m, offset);
            Reached(m, size, offset) ==
            [h] + if h.kind != TYPE_OBJECT_INSTANCE && h.End() < size then Reached(m, size, h.End()) else []
  {
    hide DecodeHeader;
  }

  /** The check pass reads inside the payload exactly when all headers it reaches end there. */
  lemma {:induction false} CheckReadsInside(m: Memory, size: nat, offset: nat, owner: Text, rs: seq<Resource>, op: Operation)
    requires WalkResources(m, size, offset, owner, rs, op, false).error != NullRead
    ensures WalkReach(m, size, offset, owner, rs, op, false) <= size <==>
            AllHeadersInside(m, size, rs, op, Reached(m, size, offset))
    decreases Remaining(size, offset)
  {
    hide DecodeHeader, WalkResources, Entry, EntryReach, HeaderInside, AllHeadersInside, Reached;
    var h := DecodeHeader(m, offset);
    WalkOne(m, size, offset, owner, rs, op, false);
    ReachedOne(m, size, offset);
    HeadersInsideCons(m, size, rs, op, h, []);
    NoHeaders(m, size, rs, op);
    if h.kind == TYPE_OBJECT_INSTANCE {
      ObjectInside(m, size, rs, op, h);
    } else {
      EntryChecked(m, size, owner, rs, h, op);
      if h.End() < size {
        var rest := Reached(m, size, h.End());
        var rs' := Entry(m, size, owner, rs, h, op, false).resources;
        CheckReadsInside(m, size, h.End(), owner, rs', op);
        HeadersInsideCons(m, size, rs, op, h, rest);
        if op.Put? {
          PutEntryChecks(m, size, owner, rs, h);
        } else {
          HeadersInsideOfPost(m, size, rs, rs', rest);
        }
      }
    }
  }

  lemma NoHeaders(m: Memory, size: nat, rs: seq<Resource>, op: Operation)
    ensures AllHeadersInside(m, size, rs, op, []) && AllValuesInside(m, size, rs, op, [])
    ensures forall h: Header :: [h] + [] == [h]
  {
  }

  lemma ObjectInside(m: Memory, size: nat, rs: seq<Resource>, op: Operation, h: Header)
    requires h.kind == TYPE_OBJECT_INSTANCE
    ensures HeaderInside(m, size, rs, op, h) <==> h.next <= size
    ensures ValueInside(m, size, rs, op, h)
  {
  }

  lemma PutEntryChecks(m: Memory, size: nat, owner: Text, rs: seq<Resource>, h: Header)
    ensures Entry(m, size, owner, rs, h, Put, false).resources == rs
  {
    hide MultipleStep, ResourceStep;
    CheckStepChangesNothing(m, size, owner, rs, h, Slice(m, h.next, h.length));
  }

  // ----- nothing that a walk has seen goes away

  ghost predicate Grown(a: Resource, b: Resource) {
    && a.nameId == b.nameId && a.multiple == b.multiple
    && forall i: nat :: FindInstanceId(a.instances, i) >= 0 ==> FindInstanceId(b.instances, i) >= 0
  }

  ghost predicate AllGrown(a: seq<Resource>, b: seq<Resource>) {
    |a| <= |b| && forall k :: 0 <= k < |a| ==> Grown(a[k], b[k])
  }

  lemma InstancesIn(a: seq<ResourceInstance>, b: seq<ResourceInstance>)
    requires |a| <= |b| && forall k :: 0 <= k < |a| ==> a[k].id == b[k].id
    ensures forall i: nat :: FindInstanceId(a, i) >= 0 ==> FindInstanceId(b, i) >= 0
  {
    forall i: nat | FindInstanceId(a, i) >= 0 ensures FindInstanceId(b, i) >= 0 {
      var k := FindInstanceId(a, i);
      assert b[k].id == i;
    }
  }

  lemma StepGrows(r: Resource, h: Header, bytes: seq<byte>, op: Operation, update: bool)
    ensures var r' := InstanceStep(r, h, bytes, op, update).resource;
            Grown(r, r') && (op.Put? ==> Grown(r', r))
  {
    hide InstanceForbids, FindInstanceId;
    var r' := InstanceStep(r, h, bytes, op, update).resource;
    InstancesIn(r.instances, r'.instances);
    if op.Put? {
      InstancesIn(r'.instances, r.instances);
    }
  }

  lemma GrownTwice(a: Resource, b: Resource, c: Resource)
    requires Grown(a, b) && Grown(b, c)
    ensures Grown(a, c)
  {
  }

  lemma {:induction false} InstancesGrow(m: Memory, size: nat, offset: nat, r: Resource, op: Operation, update: bool)
    ensures var r' := WalkInstances(m, size, offset, r, op, update).resource;
            Grown(r, r') && (op.Put? ==> Grown(r', r))
    decreases Remaining(size, offset)
  {
    hide DecodeHeader, Slice, InstanceStep, Grown;
    var h := DecodeHeader(m, offset);
    GrownSame(r);
    if IsBelow(h.kind) {
      var bytes := Slice(m, h.next, h.length);
      StepGrows(r, h, bytes, op, update);
      if h.End() < size {
        var r1 := InstanceStep(r, h, bytes, op, update).resource;
        InstancesGrow(m, size, h.End(), r1, op, update);
        var r2 := WalkInstances(m, size, h.End(), r1, op, update).resource;
        GrownTwice(r, r1, r2);
        if op.Put? {
          GrownTwice(r2, r1, r);
        }
      }
    }
  }

  lemma GrownSame(r: Resource)
    ensures Grown(r, r)
  {
  }

  lemma EntryGrows(m: Memory, size: nat, owner: Text, rs: seq<Resource>, h: Header, op: Operation, update: bool)
    ensures var rs' := Entry(m, size, owner, rs, h, op, update).resources;
            AllGrown(rs, rs') && (op.Put? ==> AllGrown(rs', rs))
  {
    hide WalkInstances, DecodeHeader, Slice, Created, Decimal, Grown;
    forall r ensures Grown(r, r) {
      GrownSame(r);
    }
    if h.kind == TYPE_MULTIPLE_RESOURCE {
      forall r ensures var r' := WalkInstances(m, size, h.next, r, op, update).resource;
                       Grown(r, r') && (op.Put? ==> Grown(r', r))
      {
        InstancesGrow(m, size, h.next, r, op, update);
      }
    } else {
      var bytes := Slice(m, h.next, h.length);
      forall r ensures Grown(r, Assigned(r, bytes)) && Grown(Assigned(r, bytes), r) {
        AssignedGrows(r, bytes);
      }
    }
  }

  lemma AssignedGrows(r: Resource, bytes: seq<byte>)
    ensures Grown(r, Assigned(r, bytes)) && Grown(Assigned(r, bytes), r)
  {
  }

  lemma GrownKnows(a: seq<Resource>, b: seq<Resource>, id: int)
    requires AllGrown(a, b)
    ensures FindNameId(a, id) >= 0 ==> FindNameId(b, id) >= 0
    ensures LastMultiple(a, id) >= 0 ==> LastMultiple(b, id) >= 0
  {
    var i, j := FindNameId(a, id), LastMultiple(a, id);
    assert i >= 0 ==> b[i].nameId == id;
    assert j >= 0 ==> IsMultiple(b[j], id);
  }

  lemma GrownHas(a: seq<Resource>, b: seq<Resource>, id: int, instance: nat)
    requires AllGrown(a, b) && HasInstance(a, id, instance)
    ensures HasInstance(b, id, instance)
  {
    var r :| r in a && IsMultiple(r, id) && FindInstanceId(r.instances, instance) >= 0;
    var k :| 0 <= k < |a| && a[k] == r;
    assert b[k] in b && IsMultiple(b[k], id) && FindInstanceId(b[k].instances, instance) >= 0;
  }

  // ----- the update pass

  lemma {:induction false} BelowReadsValues(m: Memory, size: nat, offset: nat, r: Resource, op: Operation)
    requires InstanceReach(m, size, offset, r, op, true) <= size
    ensures HeadersEnd(Below(m, size, offset), size)
    ensures forall b | b in Below(m, size, offset) :: Stored(r, b) ==> b.End() <= size
    decreases Remaining(size, offset)
  {
    hide DecodeHeader, Slice, InstanceStep;
    var h := DecodeHeader(m, offset);
    if IsBelow(h.kind) && h.End() < size {
      var bytes := Slice(m, h.next, h.length);
      var r' := InstanceStep(r, h, bytes, op, true).resource;
      BelowReadsValues(m, size, h.End(), r', op);
      StepGrows(r, h, bytes, op, true);
    }
  }

  lemma {:induction false} BelowStaysInside(m: Memory, size: nat, offset: nat, r: Resource, op: Operation)
    requires HeadersEnd(Below(m, size, offset), size)
    requires forall b | b in Below(m, size, offset) ::
               b.kind == TYPE_RESOURCE_INSTANCE && (op.Post? || Stored(r, b)) ==> b.End() <= size
    ensures InstanceReach(m, size, offset, r, op, true) <= size
    decreases Remaining(size, offset)
  {
    hide DecodeHeader, Slice, InstanceStep;
    var h := DecodeHeader(m, offset);
    assert h in Below(m, size, offset);
    if IsBelow(h.kind) && h.End() < size {
      var bytes := Slice(m, h.next, h.length);
      var r' := InstanceStep(r, h, bytes, op, true).resource;
      StepGrows(r, h, bytes, op, true);
      assert forall b :: b in Below(m, size, h.End()) ==> b in Below(m, size, offset);
      BelowStaysInside(m, size, h.End(), r', op);
    }
  }

  lemma MatchingStored(m: Memory, size: nat, offset: nat, rs: seq<Resource>, id: nat, op: Operation)
    requires LastMultiple(rs, id) >= 0
    requires op.Post? ==>
               forall b | b in Below(m, size, offset) && b.kind == TYPE_RESOURCE_INSTANCE :: HasInstance(rs, id, b.id)
    ensures MatchingReach(m, size, offset, rs, id, op, true) <= size <==>
            && HeadersEnd(Below(m, size, offset), size)
            && forall b | b in Below(m, size, offset) && b.kind == TYPE_RESOURCE_INSTANCE ::
                 HasInstance(rs, id, b.id) ==> b.End() <= size
  {
    hide InstanceReach, MatchingReach, HeadersEnd, Below, FindInstanceId;
    var bs := Below(m, size, offset);
    MatchingExactly(m, size, offset, rs, id, op, true);
    MultipleIn(rs, id);
    if MatchingReach(m, size, offset, rs, id, op, true) <= size {
      forall r | r in rs && IsMultiple(r, id)
        ensures HeadersEnd(bs, size) && forall b | b in bs :: Stored(r, b) ==> b.End() <= size
      {
        BelowReadsValues(m, size, offset, r, op);
      }
      forall b | b in bs && b.kind == TYPE_RESOURCE_INSTANCE && HasInstance(rs, id, b.id) ensures b.End() <= size {
        var r :| r in rs && IsMultiple(r, id) && FindInstanceId(r.instances, b.id) >= 0;
        assert Stored(r, b);
      }
    }
    if HeadersEnd(bs, size) && forall b | b in bs && b.kind == TYPE_RESOURCE_INSTANCE ::
         HasInstance(rs, id, b.id) ==> b.End() <= size
    {
      forall r | r in rs && IsMultiple(r, id) ensures InstanceReach(m, size, offset, r, op, true) <= size {
        forall b | b in bs && b.kind == TYPE_RESOURCE_INSTANCE && (op.Post? || Stored(r, b)) ensures b.End() <= size {
          assert HasInstance(rs, id, b.id);
        }
        BelowStaysInside(m, size, offset, r, op);
      }
    }
  }

  /** The list of the update pass holds what the entry needs: what was there, and for a POST everything. */
  predicate Stores(m: Memory, size: nat, op: Operation, before: seq<Resource>, rs: seq<Resource>, h: Header) {
    if h.kind == TYPE_MULTIPLE_RESOURCE then
      && (if op.Post? then LastMultiple(rs, h.id) >= 0 || !IsBelow(DecodeHeader(m, h.next).kind)
          else LastMultiple(rs, h.id) >= 0 <==> LastMultiple(before, h.id) >= 0)
      && forall b | b in Below(m, size, h.next) && b.kind == TYPE_RESOURCE_INSTANCE ::
           HasInstance(rs, h.id, b.id) <==> op.Post? || HasInstance(before, h.id, b.id)
    else if h.kind == TYPE_OBJECT_INSTANCE then true
    else FindNameId(rs, h.id) >= 0 <==> op.Post? || FindNameId(before, h.id) >= 0
  }

  lemma EntryStored(m: Memory, size: nat, owner: Text, before: seq<Resource>, rs: seq<Resource>, h: Header, op: Operation)
    requires h.kind != TYPE_OBJECT_INSTANCE && Stores(m, size, op, before, rs, h)
    ensures EntryReach(m, size, owner, rs, h, op, true) <= size <==>
            HeaderInside(m, size, before, op, h) && ValueInside(m, size, before, op, h)
  {
    hide MatchingReach, InstanceReach, DecodeHeader, HeadersEnd, Below, Created, Decimal, HasInstance;
    if h.kind == TYPE_MULTIPLE_RESOURCE {
      if LastMultiple(rs, h.id) >= 0 {
        MatchingStored(m, size, h.next, rs, h.id, op);
      } else if op.Post? {
        OnlyHeaderBelow(m, size, h.next, Created(owner, h.id, true));
      } else {
        forall b | b in Below(m, size, h.next) ensures !HasInstance(before, h.id, b.id) {
          NoMultiple(before, h.id, b.id);
        }
      }
    }
  }

  lemma OnlyHeaderBelow(m: Memory, size: nat, offset: nat, r: Resource)
    requires !IsBelow(DecodeHeader(m, offset).kind)
    ensures InstanceReach(m, size, offset, r, Post, true) == DecodeHeader(m, offset).next
    ensures DecodeHeader(m, offset).next <= size <==> HeadersEnd(Below(m, size, offset), size)
    ensures forall b :: b in Below(m, size, offset) ==> b.kind != TYPE_RESOURCE_INSTANCE
  {
    hide DecodeHeader;
    NothingBelow(m, size, offset);
  }

  lemma NoMultiple(rs: seq<Resource>, id: int, instance: nat)
    requires LastMultiple(rs, id) < 0
    ensures !HasInstance(rs, id, instance)
  {
    MultipleIn(rs, id);
  }

  lemma StoresStays(m: Memory, size: nat, op: Operation, before: seq<Resource>, a: seq<Resource>, b: seq<Resource>,
                    h: Header)
    requires Stores(m, size, op, before, a, h)
    requires AllGrown(a, b) && (op.Put? ==> AllGrown(b, a))
    ensures Stores(m, size, op, before, b, h)
  {
    hide Below, HasInstance, AllGrown;
    GrownKnows(a, b, h.id);
    if op.Put? {
      GrownKnows(b, a, h.id);
    }
    if h.kind == TYPE_MULTIPLE_RESOURCE {
      forall g | g in Below(m, size, h.next) && g.kind == TYPE_RESOURCE_INSTANCE
        ensures HasInstance(b, h.id, g.id) <==> op.Post? || HasInstance(before, h.id, g.id)
      {
        if HasInstance(a, h.id, g.id) {
          GrownHas(a, b, h.id, g.id);
        }
        if op.Put? && HasInstance(b, h.id, g.id) {
          GrownHas(b, a, h.id, g.id);
        }
      }
    }
  }

  ghost predicate AllStored(m: Memory, size: nat, op: Operation, before: seq<Resource>, rs: seq<Resource>,
                            hs: seq<Header>)
  {
    forall h :: h in hs ==> Stores(m, size, op, before, rs, h)
  }

  lemma AllStoredStays(m: Memory, size: nat, op: Operation, before: seq<Resource>, a: seq<Resource>, b: seq<Resource>,
                       hs: seq<Header>)
    requires AllStored(m, size, op, before, a, hs)
    requires AllGrown(a, b) && (op.Put? ==> AllGrown(b, a))
    ensures AllStored(m, size, op, before, b, hs)
  {
    hide Stores, AllGrown;
    forall h | h in hs ensures Stores(m, size, op, before, b, h) {
      StoresStays(m, size, op, before, a, b, h);
    }
  }

  lemma AllStoredSplit(m: Memory, size: nat, op: Operation, before: seq<Resource>, rs: seq<Resource>, h: Header,
                       hs: seq<Header>)
    ensures AllStored(m, size, op, before, rs, [h] + hs) <==>
            Stores(m, size, op, before, rs, h) && AllStored(m, size, op, before, rs, hs)
  {
    hide Stores;
    assert forall g :: g in [h] + hs <==> g == h || g in hs;
  }

  /** The update pass reads inside the payload exactly when all headers and stored values end there. */
  lemma {:induction false} UpdateReadsInside(m: Memory, size: nat, offset: nat, owner: Text, before: seq<Resource>,
                                             rs: seq<Resource>, op: Operation)
    requires WalkResources(m, size, offset, owner, rs, op, true).error != NullRead
    requires AllStored(m, size, op, before, rs, Reached(m, size, offset))
    ensures WalkReach(m, size, offset, owner, rs, op, true) <= size <==>
            && AllHeadersInside(m, size, before, op, Reached(m, size, offset))
            && AllValuesInside(m, size, before, op, Reached(m, size, offset))
    decreases Remaining(size, offset)
  {
    hide DecodeHeader, WalkResources, Entry, EntryReach, HeaderInside, ValueInside, AllHeadersInside, AllValuesInside,
         Reached, Stores, AllStored, AllGrown;
    var h := DecodeHeader(m, offset);
    WalkOne(m, size, offset, owner, rs, op, true);
    ReachedOne(m, size, offset);
    NoHeaders(m, size, before, op);
    var rest := if h.kind != TYPE_OBJECT_INSTANCE && h.End() < size then Reached(m, size, h.End()) else [];
    HeadersInsideCons(m, size, before, op, h, rest);
    ValuesInsideCons(m, size, before, op, h, rest);
    AllStoredSplit(m, size, op, before, rs, h, rest);
    if h.kind == TYPE_OBJECT_INSTANCE {
      ObjectInside(m, size, before, op, h);
    } else {
      EntryStored(m, size, owner, before, rs, h, op);
      if h.End() < size {
        var rs' := Entry(m, size, owner, rs, h, op, true).resources;
        EntryGrows(m, size, owner, rs, h, op, true);
        AllStoredStays(m, size, op, before, rs, rs', rest);
        UpdateReadsInside(m, size, h.End(), owner, before, rs', op);
      }
    }
  }

  // ----- what the check pass leaves to the update pass

  lemma {:induction false} BelowProvided(m: Memory, size: nat, offset: nat, r: Resource)
    requires r.multiple
    ensures forall b | b in Below(m, size, offset) && b.kind == TYPE_RESOURCE_INSTANCE ::
              FindInstanceId(WalkInstances(m, size, offset, r, Post, false).resource.instances, b.id) >= 0
    decreases Remaining(size, offset)
  {
    hide DecodeHeader, Slice, InstanceForbids, FindInstanceId;
    var h := DecodeHeader(m, offset);
    if IsBelow(h.kind) {
      var r' := InstanceStep(r, h, Slice(m, h.next, h.length), Post, false).resource;
      InstanceMade(r, h, Slice(m, h.next, h.length));
      if h.End() < size {
        BelowProvided(m, size, h.End(), r');
        InstancesGrow(m, size, h.End(), r', Post, false);
      }
    }
  }

  lemma InstanceMade(r: Resource, h: Header, bytes: seq<byte>)
    requires r.multiple
    ensures var r' := InstanceStep(r, h, bytes, Post, false).resource;
            r'.multiple && (h.kind == TYPE_RESOURCE_INSTANCE ==> FindInstanceId(r'.instances, h.id) >= 0)
  {
    hide InstanceForbids;
    var r' := InstanceStep(r, h, bytes, Post, false).resource;
    if h.kind == TYPE_RESOURCE_INSTANCE && FindInstanceId(r.instances, h.id) < 0 {
      assert r'.instances[|r.instances|].id == h.id;
    }
  }

  lemma MatchingProvides(m: Memory, size: nat, offset: nat, rs: seq<Resource>, id: nat)
    requires LastMultiple(rs, id) >= 0
    ensures var rs' := WalkMatching(m, size, offset, rs, id, Post, false);
            && LastMultiple(rs', id) >= 0
            && forall b | b in Below(m, size, offset) && b.kind == TYPE_RESOURCE_INSTANCE :: HasInstance(rs', id, b.id)
  {
    hide WalkInstances, Below, FindInstanceId;
    var rs', k := WalkMatching(m, size, offset, rs, id, Post, false), LastMultiple(rs, id);
    InstancesGrow(m, size, offset, rs[k], Post, false);
    BelowProvided(m, size, offset, rs[k]);
    assert rs'[k] in rs' && IsMultiple(rs'[k], id);
    MultipleIn(rs', id);
  }

  lemma CreatedProvides(m: Memory, size: nat, offset: nat, owner: Text, rs: seq<Resource>, id: nat)
    requires id < 0x1_0000
    ensures var rs' := rs + [WalkInstances(m, size, offset, Created(owner, id, true), Post, false).resource];
            && LastMultiple(rs', id) >= 0
            && forall b | b in Below(m, size, offset) && b.kind == TYPE_RESOURCE_INSTANCE :: HasInstance(rs', id, b.id)
  {
    hide WalkInstances, Below, FindInstanceId, NameIdOf, Decimal;
    NameIdOfDecimal(id);
    var made := Created(owner, id, true);
    var r := WalkInstances(m, size, offset, made, Post, false).resource;
    InstancesGrow(m, size, offset, made, Post, false);
    BelowProvided(m, size, offset, made);
    var rs' := rs + [r];
    assert r in rs' && IsMultiple(r, id);
    MultipleIn(rs', id);
  }

  lemma SingleProvides(owner: Text, rs: seq<Resource>, id: nat, bytes: seq<byte>)
    requires id < 0x1_0000
    ensures FindNameId(ResourceStep(owner, rs, id, bytes, Post, false).resources, id) >= 0
  {
    hide NameIdOf, Decimal, ResourceForbids;
    NameIdOfDecimal(id);
    var rs' := ResourceStep(owner, rs, id, bytes, Post, false).resources;
    if FindNameId(rs, id) < 0 {
      assert rs'[|rs|].nameId == id;
    }
  }

  lemma EntryProvides(m: Memory, size: nat, owner: Text, before: seq<Resource>, rs: seq<Resource>, h: Header)
    requires h.kind != TYPE_OBJECT_INSTANCE && h.id < 0x1_0000
    requires Entry(m, size, owner, rs, h, Post, false).error != NullRead
    ensures Stores(m, size, Post, before, Entry(m, size, owner, rs, h, Post, false).resources, h)
  {
    hide WalkInstances, WalkMatching, Below, HasInstance, DecodeHeader, Slice, Created, Decimal, ResourceStep;
    if h.kind == TYPE_MULTIPLE_RESOURCE {
      if LastMultiple(rs, h.id) >= 0 {
        MatchingProvides(m, size, h.next, rs, h.id);
      } else if FindName(rs, Decimal(h.id)) >= 0 {
        OnlyHeaderBelow(m, size, h.next, Created(owner, h.id, true));
      } else {
        CreatedProvides(m, size, h.next, owner, rs, h.id);
      }
    } else {
      SingleProvides(owner, rs, h.id, Slice(m, h.next, h.length));
    }
  }

  lemma GrownAll(a: seq<Resource>, b: seq<Resource>, c: seq<Resource>)
    requires AllGrown(a, b) && AllGrown(b, c)
    ensures AllGrown(a, c)
  {
    hide Grown;
    forall k | 0 <= k < |a| ensures Grown(a[k], c[k]) {
      GrownTwice(a[k], b[k], c[k]);
    }
  }

  /** The check pass of a POST provides for all entries that it reaches. */
  lemma {:induction false} PostProvides(m: Memory, size: nat, offset: nat, owner: Text, before: seq<Resource>,
                                        rs: seq<Resource>)
    requires WalkResources(m, size, offset, owner, rs, Post, false).error != NullRead
    ensures var rs' := WalkResources(m, size, offset, owner, rs, Post, false).resources;
            AllGrown(rs, rs') && AllStored(m, size, Post, before, rs', Reached(m, size, offset))
    decreases Remaining(size, offset)
  {
    hide DecodeHeader, WalkResources, Entry, Reached, Stores, AllStored, AllGrown;
    var h := DecodeHeader(m, offset);
    WalkOne(m, size, offset, owner, rs, Post, false);
    ReachedOne(m, size, offset);
    NoneStored(m, size, before, WalkResources(m, size, offset, owner, rs, Post, false).resources);
    var rest := if h.kind != TYPE_OBJECT_INSTANCE && h.End() < size then Reached(m, size, h.End()) else [];
    AllStoredSplit(m, size, Post, before, WalkResources(m, size, offset, owner, rs, Post, false).resources, h, rest);
    if h.kind == TYPE_OBJECT_INSTANCE {
      ObjectStored(m, size, before, rs, h);
    } else {
      var rs1 := Entry(m, size, owner, rs, h, Post, false).resources;
      EntryProvides(m, size, owner, before, rs, h);
      EntryGrows(m, size, owner, rs, h, Post, false);
      if h.End() < size {
        PostProvides(m, size, h.End(), owner, before, rs1);
        var rs2 := WalkResources(m, size, h.End(), owner, rs1, Post, false).resources;
        StoresStays(m, size, Post, before, rs1, rs2, h);
        GrownAll(rs, rs1, rs2);
      }
    }
  }

  lemma NoneStored(m: Memory, size: nat, before: seq<Resource>, rs: seq<Resource>)
    ensures AllStored(m, size, Post, before, rs, [])
  {
  }

  lemma ObjectStored(m: Memory, size: nat, before: seq<Resource>, rs: seq<Resource>, h: Header)
    requires h.kind == TYPE_OBJECT_INSTANCE
    ensures Stores(m, size, Post, before, rs, h) && AllGrown(rs, rs)
  {
  }

  lemma {:induction false} KeptExactly(rs: seq<Resource>, ids: set<int>, r: Resource)
    ensures r in Keep(rs, ids) <==> r in rs && r.nameId in ids
  {
    if rs != [] {
      KeptExactly(rs[..|rs| - 1], ids, r);
      assert rs == rs[..|rs| - 1] + [rs[|rs| - 1]];
    }
  }

  lemma KnownIn(rs: seq<Resource>, id: int)
    ensures FindNameId(rs, id) >= 0 <==> exists r :: r in rs && r.nameId == id
  {
    var i := FindNameId(rs, id);
    if i >= 0 {
      assert rs[i] in rs;
    }
  }

  /** The removal pass of a PUT keeps what its entries name. */
  lemma KeepStores(m: Memory, size: nat, rs: seq<Resource>, ids: set<int>, h: Header)
    requires h.id in ids
    ensures Stores(m, size, Put, rs, Keep(rs, ids), h)
  {
    hide Keep, Below, DecodeHeader;
    forall r ensures r in Keep(rs, ids) <==> r in rs && r.nameId in ids {
      KeptExactly(rs, ids, r);
    }
    KnownIn(rs, h.id);
    KnownIn(Keep(rs, ids), h.id);
    MultipleIn(rs, h.id);
    MultipleIn(Keep(rs, ids), h.id);
  }

  lemma {:induction false} ReachedIds(m: Memory, size: nat, offset: nat)
    requires offset < size
    ensures forall h :: h in Reached(m, size, offset) ==> h.id in WalkIds(m, size, offset)
    decreases Remaining(size, offset)
  {
    hide DecodeHeader;
    var h := DecodeHeader(m, offset);
    if h.kind != TYPE_OBJECT_INSTANCE && h.End() < size {
      ReachedIds(m, size, h.End());
    }
  }

  /** The removal pass reads nothing that an accepting check pass has not read. */
  lemma {:induction false} RemovalReadsNothingNew(m: Memory, size: nat, offset: nat, owner: Text, rs: seq<Resource>,
                                                  op: Operation)
    requires WalkResources(m, size, offset, owner, rs, op, false).error == NoError
    ensures IdsReach(m, size, offset) <= WalkReach(m, size, offset, owner, rs, op, false)
    decreases Remaining(size, offset)
  {
    hide DecodeHeader, Entry, EntryReach, WalkResources;
    var h := DecodeHeader(m, offset);
    WalkOne(m, size, offset, owner, rs, op, false);
    ReachesHeader(m, size, offset, owner, rs, op, false);
    if h.End() < size {
      RemovalReadsNothingNew(m, size, h.End(), owner, Entry(m, size, owner, rs, h, op, false).resources, op);
    }
  }

  // ----- what the check pass accepts

  function Last(hs: seq<Header>): (h: Header)
    requires hs != []
  {
    hs[|hs| - 1]
  }

  /** The last multiple resource of an identifier has this instance and it may not be written. */
  predicate ForbidsBelow(rs: seq<Resource>, id: int, instance: nat) {
    LastMultiple(rs, id) >= 0 && InstanceForbids(rs[LastMultiple(rs, id)].instances, instance)
  }

  /** The entry may be written. A PUT needs what it names; a POST makes it. */
  predicate Writable(m: Memory, size: nat, rs: seq<Resource>, op: Operation, h: Header) {
    if h.kind == TYPE_OBJECT_INSTANCE then false
    else if h.kind == TYPE_MULTIPLE_RESOURCE then
      var b := Last(Below(m, size, h.next));
      && !(b.kind == TYPE_RESOURCE_INSTANCE && ForbidsBelow(rs, h.id, b.id))
      && if op.Put? then LastMultiple(rs, h.id) >= 0 && Stored(rs[LastMultiple(rs, h.id)], b) else IsBelow(b.kind)
    else !ResourceForbids(rs, h.id) && (op.Post? || FindNameId(rs, h.id) >= 0)
  }

  lemma AllowedToAll()
    ensures !Forbids(GET_PUT_POST_DELETE_ALLOWED)
  {
  }

  /** A check changes nothing in what may be written. */
  lemma StepForbids(r: Resource, h: Header, bytes: seq<byte>, op: Operation, i: nat)
    ensures var r' := InstanceStep(r, h, bytes, op, false).resource;
            InstanceForbids(r'.instances, i) <==> InstanceForbids(r.instances, i)
  {
    hide FindInstanceId, Forbids;
    AllowedToAll();
    var r' := InstanceStep(r, h, bytes, op, false).resource;
    assert forall k :: 0 <= k < |r.instances| ==> r'.instances[k] == r.instances[k];
  }

  lemma {:induction false} InstancesForbid(m: Memory, size: nat, offset: nat, r: Resource, op: Operation, i: nat)
    ensures var r' := WalkInstances(m, size, offset, r, op, false).resource;
            InstanceForbids(r'.instances, i) <==> InstanceForbids(r.instances, i)
    decreases Remaining(size, offset)
  {
    hide DecodeHeader, Slice, InstanceStep, InstanceForbids;
    var h := DecodeHeader(m, offset);
    if IsBelow(h.kind) {
      var bytes := Slice(m, h.next, h.length);
      StepForbids(r, h, bytes, op, i);
      if h.End() < size {
        InstancesForbid(m, size, h.End(), InstanceStep(r, h, bytes, op, false).resource, op, i);
      }
    }
  }

  lemma BelowLast(m: Memory, size: nat, offset: nat)
    ensures var h := DecodeHeader(m, offset);
            Last(Below(m, size, offset)) == if IsBelow(h.kind) && h.End() < size then Last(Below(m, size, h.End())) else h
  {
    hide DecodeHeader;
  }

  lemma StepAccepts(r: Resource, h: Header, bytes: seq<byte>, op: Operation)
    requires IsBelow(h.kind)
    ensures InstanceStep(r, h, bytes, op, false).error == NoError <==>
            && !(h.kind == TYPE_RESOURCE_INSTANCE && InstanceForbids(r.instances, h.id))
            && (op.Put? ==> Stored(r, h))
  {
    hide Forbids;
    if h.kind == TYPE_RESOURCE_INSTANCE && InstanceForbids(r.instances, h.id) {
      var k :| 0 <= k < |r.instances| && r.instances[k].id == h.id && Forbids(r.instances[k].access);
      assert FindInstanceId(r.instances, h.id) >= 0;
    }
  }

  /** The last entry below a multiple resource decides the verdict on it. */
  lemma {:induction false} InstancesAccept(m: Memory, size: nat, offset: nat, r: Resource, op: Operation)
    ensures var b := Last(Below(m, size, offset));
            WalkInstances(m, size, offset, r, op, false).error == NoError <==>
            && !(b.kind == TYPE_RESOURCE_INSTANCE && InstanceForbids(r.instances, b.id))
            && (if op.Put? then Stored(r, b) else IsBelow(b.kind))
    decreases Remaining(size, offset)
  {
    hide DecodeHeader, Slice, InstanceStep, InstanceForbids, Below, FindInstanceId;
    var h := DecodeHeader(m, offset);
    BelowLast(m, size, offset);
    if IsBelow(h.kind) {
      var bytes := Slice(m, h.next, h.length);
      if h.End() < size {
        var r' := InstanceStep(r, h, bytes, op, false).resource;
        var b := Last(Below(m, size, h.End()));
        InstancesAccept(m, size, h.End(), r', op);
        StepForbids(r, h, bytes, op, b.id);
        StepGrows(r, h, bytes, op, false);
      } else {
        StepAccepts(r, h, bytes, op);
      }
    }
  }

  lemma EntryAccepts(m: Memory, size: nat, owner: Text, rs: seq<Resource>, h: Header, op: Operation)
    requires h.kind != TYPE_OBJECT_INSTANCE && Entry(m, size, owner, rs, h, op, false).error != NullRead
    ensures Entry(m, size, owner, rs, h, op, false).error == NoError <==> Writable(m, size, rs, op, h)
  {
    hide WalkInstances, WalkMatching, Below, DecodeHeader, Slice, Decimal, Forbids, FindInstanceId, InstanceForbids;
    if h.kind == TYPE_MULTIPLE_RESOURCE {
      var last := LastMultiple(rs, h.id);
      if last >= 0 {
        InstancesAccept(m, size, h.next, rs[last], op);
      } else if op.Post? {
        if FindName(rs, Decimal(h.id)) >= 0 {
          BelowLast(m, size, h.next);
        } else {
          InstancesAccept(m, size, h.next, Created(owner, h.id, true), op);
          NewForbidsNothing(owner, h.id);
        }
      }
    } else {
      SingleAccepts(rs, h.id);
    }
  }

  lemma NewForbidsNothing(owner: Text, id: nat)
    ensures forall i: nat :: !InstanceForbids(Created(owner, id, true).instances, i)
  {
  }

  lemma SingleAccepts(rs: seq<Resource>, id: int)
    ensures ResourceForbids(rs, id) ==> FindNameId(rs, id) >= 0
  {
  }

  lemma CheckForbids(m: Memory, size: nat, owner: Text, rs: seq<Resource>, h: Header, id: nat, i: nat)
    requires h.id < 0x1_0000
    ensures var rs' := Entry(m, size, owner, rs, h, Post, false).resources;
            && (ResourceForbids(rs', id) <==> ResourceForbids(rs, id))
            && (ForbidsBelow(rs', id, i) <==> ForbidsBelow(rs, id, i))
  {
    hide WalkInstances, WalkMatching, DecodeHeader, Slice, Decimal, Forbids, InstanceForbids, NameIdOf, ResourceForbids,
         Created, ForbidsBelow;
    AllowedToAll();
    if h.kind == TYPE_MULTIPLE_RESOURCE {
      if LastMultiple(rs, h.id) >= 0 {
        MatchingForbids(m, size, h.next, rs, h.id, id, i);
      } else if FindName(rs, Decimal(h.id)) < 0 {
        var made := Created(owner, h.id, true);
        InstancesForbid(m, size, h.next, made, Post, i);
        InstancesKeepHead(m, size, h.next, made, Post, false);
        NewForbidsNothing(owner, h.id);
        CreatedHead(owner, h.id, true);
        AppendForbids(rs, WalkInstances(m, size, h.next, made, Post, false).resource, id, i);
      }
    } else if FindNameId(rs, h.id) < 0 {
      CreatedHead(owner, h.id, false);
      AppendForbids(rs, Created(owner, h.id, false), id, i);
    }
  }

  lemma CreatedHead(owner: Text, id: nat, multiple: bool)
    requires id < 0x1_0000
    ensures var r := Created(owner, id, multiple);
            r.nameId == id && r.multiple == multiple && r.access == GET_PUT_POST_DELETE_ALLOWED
  {
    NameIdOfDecimal(id);
  }

  lemma {:induction false} InstancesKeepHead(m: Memory, size: nat, offset: nat, r: Resource, op: Operation, update: bool)
    ensures var r' := WalkInstances(m, size, offset, r, op, update).resource;
            r'.nameId == r.nameId && r'.multiple == r.multiple && r'.access == r.access
    decreases Remaining(size, offset)
  {
    hide DecodeHeader, Slice;
    var h := DecodeHeader(m, offset);
    if IsBelow(h.kind) && h.End() < size {
      InstancesKeepHead(m, size, h.End(), InstanceStep(r, h, Slice(m, h.next, h.length), op, update).resource, op, update);
    }
  }

  lemma AppendForbids(rs: seq<Resource>, r: Resource, id: nat, i: nat)
    requires !Forbids(r.access)
    requires r.multiple ==> LastMultiple(rs, r.nameId) < 0 && !InstanceForbids(r.instances, i)
    ensures ResourceForbids(rs + [r], id) <==> ResourceForbids(rs, id)
    ensures ForbidsBelow(rs + [r], id, i) <==> ForbidsBelow(rs, id, i)
  {
    hide Forbids, InstanceForbids;
    var all := rs + [r];
    assert forall k :: 0 <= k < |rs| ==> all[k] == rs[k];
    assert all[..|all| - 1] == rs;
    if ResourceForbids(rs, id) {
      var k :| 0 <= k < |rs| && rs[k].nameId == id && Forbids(rs[k].access);
      assert all[k].nameId == id && Forbids(all[k].access);
    }
  }

  lemma MatchingForbids(m: Memory, size: nat, offset: nat, rs: seq<Resource>, own: nat, id: nat, i: nat)
    ensures var rs' := WalkMatching(m, size, offset, rs, own, Post, false);
            && (ResourceForbids(rs', id) <==> ResourceForbids(rs, id))
            && (ForbidsBelow(rs', id, i) <==> ForbidsBelow(rs, id, i))
  {
    hide WalkInstances, Forbids, InstanceForbids;
    var rs' := WalkMatching(m, size, offset, rs, own, Post, false);
    forall k | 0 <= k < |rs|
      ensures rs'[k].nameId == rs[k].nameId && rs'[k].multiple == rs[k].multiple && rs'[k].access == rs[k].access
      ensures InstanceForbids(rs'[k].instances, i) <==> InstanceForbids(rs[k].instances, i)
    {
      InstancesKeepHead(m, size, offset, rs[k], Post, false);
      InstancesForbid(m, size, offset, rs[k], Post, i);
    }
    var x, y := LastMultiple(rs, id), LastMultiple(rs', id);
    assert x >= 0 ==> IsMultiple(rs'[x], id);
    assert y >= 0 ==> IsMultiple(rs[y], id);
  }

  /** The check pass accepts exactly when the last entry that it reaches may be written. */
  lemma {:induction false} AcceptsExactly(m: Memory, size: nat, offset: nat, owner: Text, rs: seq<Resource>, op: Operation)
    requires WalkResources(m, size, offset, owner, rs, op, false).error != NullRead
    ensures WalkResources(m, size, offset, owner, rs, op, false).error == NoError <==>
            Writable(m, size, rs, op, Last(Reached(m, size, offset)))
    decreases Remaining(size, offset)
  {
    hide DecodeHeader, WalkResources, Entry, Reached, Writable;
    var h := DecodeHeader(m, offset);
    WalkOne(m, size, offset, owner, rs, op, false);
    ReachedOne(m, size, offset);
    if h.kind == TYPE_OBJECT_INSTANCE {
      ObjectNotWritable(m, size, rs, op, h);
    } else {
      EntryAccepts(m, size, owner, rs, h, op);
      if h.End() < size {
        var rs' := Entry(m, size, owner, rs, h, op, false).resources;
        var last := Last(Reached(m, size, h.End()));
        AcceptsExactly(m, size, h.End(), owner, rs', op);
        if op.Put? {
          PutEntryChecks(m, size, owner, rs, h);
        } else {
          WritableStays(m, size, owner, rs, h, last);
        }
      }
    }
  }

  lemma ObjectNotWritable(m: Memory, size: nat, rs: seq<Resource>, op: Operation, h: Header)
    requires h.kind == TYPE_OBJECT_INSTANCE
    ensures !Writable(m, size, rs, op, h)
  {
  }

  lemma WritableStays(m: Memory, size: nat, owner: Text, rs: seq<Resource>, h: Header, g: Header)
    requires h.id < 0x1_0000
    ensures var rs' := Entry(m, size, owner, rs, h, Post, false).resources;
            Writable(m, size, rs', Post, g) <==> Writable(m, size, rs, Post, g)
  {
    hide Entry, Below, ForbidsBelow, ResourceForbids;
    CheckForbids(m, size, owner, rs, h, g.id, Last(Below(m, size, g.next)).id);
  }

  // ----- the whole call

  /**
   * A PUT or POST that reads through no null reference reads only bytes of its payload exactly when every
   * header it reaches at both levels ends there and, if the last entry may be written, so does every value
   * that is stored.
   */
  lemma ReadsInsideExactly(m: Memory, size: nat, owner: Text, rs: seq<Resource>, op: Operation)
    requires size > 0 && Deserialize(m, size, owner, rs, op).error != NullRead
    ensures Reach(m, size, owner, rs, op) <= size <==>
            var kind, hs := DecodeHeader(m, 0).kind, Reached(m, size, 0);
            kind == TYPE_RESOURCE || kind == TYPE_MULTIPLE_RESOURCE ==>
              && AllHeadersInside(m, size, rs, op, hs)
              && (Writable(m, size, rs, op, Last(hs)) ==> AllValuesInside(m, size, rs, op, hs))
  {
    hide DecodeHeader, WalkResources, WalkReach, WalkIds, IdsReach, Reached, AllHeadersInside, AllValuesInside, AllStored,
         AllGrown, Keep, Writable;
    var kind := DecodeHeader(m, 0).kind;
    if kind == TYPE_RESOURCE || kind == TYPE_MULTIPLE_RESOURCE {
      CheckReadsInside(m, size, 0, owner, rs, op);
      AcceptsExactly(m, size, 0, owner, rs, op);
      if Writable(m, size, rs, op, Last(Reached(m, size, 0))) {
        RemovalReadsNothingNew(m, size, 0, owner, rs, op);
        var checked := WalkResources(m, size, 0, owner, rs, op, false).resources;
        if op.Put? {
          PutCheckChangesNothing(m, size, 0, owner, rs);
          KeepAllStored(m, size, rs);
          UpdateReadsInside(m, size, 0, owner, rs, Keep(rs, WalkIds(m, size, 0)), Put);
        } else {
          PostProvides(m, size, 0, owner, rs, rs);
          UpdateReadsInside(m, size, 0, owner, rs, checked, Post);
        }
      }
    }
  }

  lemma KeepAllStored(m: Memory, size: nat, rs: seq<Resource>)
    requires size > 0
    ensures AllStored(m, size, Put, rs, Keep(rs, WalkIds(m, size, 0)), Reached(m, size, 0))
  {
    hide Reached, WalkIds, Stores, Keep;
    ReachedIds(m, size, 0);
    forall h | h in Reached(m, size, 0) ensures Stores(m, size, Put, rs, Keep(rs, WalkIds(m, size, 0)), h) {
      KeepStores(m, size, rs, WalkIds(m, size, 0), h);
    }
  }

  /** If all reads stay inside, what follows the payload makes no difference. */
  lemma OnlyThePayloadCounts(m: Memory, n: Memory, size: nat, owner: Text, rs: seq<Resource>, op: Operation)
    requires Reach(m, size, owner, rs, op) <= size && Agree(m, n, size)
    ensures Deserialize(n, size, owner, rs, op) == Deserialize(m, size, owner, rs, op)
  {
    hide Reach, Deserialize;
    DependsOnReach(m, n, size, owner, rs, op);
  }

  /** A resource 5 whose length field promises 16777215 bytes, of which none is there. */
  function LongFive(): (m: Memory) {
    i => if i == 0 then 0xD8 else if i == 1 then 5 else if 2 <= i < 5 then 0xFF else 0
  }

  lemma LongFiveHeader()
    ensures DecodeHeader(LongFive(), 0) == Header(TYPE_RESOURCE, 5, 0xFF_FFFF, 5)
  {
    hide BigEndian, Slice;
    BigEndianOne(LongFive(), 1);
    BigEndianSmall(LongFive(), 2);
  }

  /** Put to a writable resource 5, these five bytes make it read 16777215 more. */
  lemma LongFiveReadsOn(owner: Text, rtype: ResourceType)
    ensures var five := NewResource(owner, Decimal(5), rtype, GET_PUT_ALLOWED, false);
            Reach(LongFive(), 5, owner, [five], Put) == 5 + 0xFF_FFFF
  {
    hide DecodeHeader, Decimal, NameIdOf, Slice, Assigned;
    var m, five := LongFive(), NewResource(owner, Decimal(5), rtype, GET_PUT_ALLOWED, false);
    NameIdOfDecimal(5);
    LongFiveHeader();
    assert FindNameId([five], 5) == 0;
    assert !Forbids(five.access);
    assert WalkIds(m, 5, 0) == {5};
    assert Keep([five], {5}) == [five] by {
      assert [five][..0] == [];
    }
  }
}
