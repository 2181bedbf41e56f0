/** The meaning of PUT and POST for payloads that are a plain list of resource entries. */
module TlvFlat {
  import opened Bytes
  import opened M2MString
  import opened TlvHeader
  import opened ObjectModel
  import opened TlvWalk
  import opened StringBuffers

  /** A TLV entry before encoding. */
  datatype Entry = Entry(kind: nat, id: nat, value: seq<byte>)

  predicate Encodable(e: Entry) {
    IsType(e.kind) && e.id < ID_LIMIT && |e.value| < LENGTH_LIMIT
  }

  predicate AllEncodable(es: seq<Entry>) {
    forall i :: 0 <= i < |es| ==> Encodable(es[i])
  }

  function Encode(e: Entry): (s: seq<byte>)
    requires Encodable(e)
    ensures |s| >= 2
  {
    EncodeHeader(e.kind, e.id, |e.value|) + e.value
  }

  function EncodeAll(es: seq<Entry>): (s: seq<byte>)
    requires AllEncodable(es)
    ensures |es| > 0 ==> |s| > 0
  {
    if es == [] then [] else Encode(es[0]) + EncodeAll(es[1..])
  }

  // ----- the offset walk

  /** The entries met by the offset walk that all deserializing loops share. */
  function Visit(m: Memory, size: nat, offset: nat): (es: seq<Entry>)
    decreases Remaining(size, offset)
  {
    if offset < size then
      var h := DecodeHeader(m, offset);
      [Entry(h.kind, h.id, Slice(m, h.next, h.length))] + Visit(m, size, h.End())
    else []
  }

  lemma EntryRoundTrip(m: Memory, at: nat, e: Entry)
    requires Encodable(e) && Holds(m, at, Encode(e))
    ensures var h := DecodeHeader(m, at);
      && h.kind == e.kind && h.id == e.id && Slice(m, h.next, h.length) == e.value
      && h.End() == at + |Encode(e)|
  {
    var header := EncodeHeader(e.kind, e.id, |e.value|);
    HoldsConcat(m, at, header, e.value);
    HeaderRoundTrip(m, at, e.kind, e.id, |e.value|);
    SliceOfHeld(m, at + |header|, e.value);
  }

  lemma FirstEntry(m: Memory, at: nat, es: seq<Entry>)
    requires AllEncodable(es) && es != []
    requires Holds(m, at, EncodeAll(es))
    ensures var h := DecodeHeader(m, at);
      && h.kind == es[0].kind && h.id == es[0].id && Slice(m, h.next, h.length) == es[0].value
      && h.End() == at + |Encode(es[0])|
      && Holds(m, at + |Encode(es[0])|, EncodeAll(es[1..]))
      && |EncodeAll(es)| == |Encode(es[0])| + |EncodeAll(es[1..])|
  {
    hide Encode, DecodeHeader;
    HoldsConcat(m, at, Encode(es[0]), EncodeAll(es[1..]));
    EntryRoundTrip(m, at, es[0]);
  }

  /** Over any concatenation of encoded entries the walk meets exactly those entries, in order. */
  lemma {:induction false} WalkVisitsEntries(m: Memory, at: nat, es: seq<Entry>)
    requires AllEncodable(es) && Holds(m, at, EncodeAll(es))
    ensures Visit(m, at + |EncodeAll(es)|, at) == es
    decreases |es|
  {
    if es != [] {
      FirstEntry(m, at, es);
      WalkVisitsEntries(m, at + |Encode(es[0])|, es[1..]);
    }
  }

  // ----- flat payloads

  predicate FlatEntry(e: Entry) {
    Encodable(e) && (e.kind == TYPE_RESOURCE || e.kind == TYPE_RESOURCE_INSTANCE)
  }

  predicate Flat(es: seq<Entry>) {
    forall i :: 0 <= i < |es| ==> FlatEntry(es[i])
  }

  function Ids(es: seq<Entry>): (ids: set<int>) {
    set i | 0 <= i < |es| :: es[i].id
  }

  function FlatWalk(owner: Text, rs: seq<Resource>, es: seq<Entry>, op: Operation, update: bool): (out: Outcome)
    requires es != []
    decreases |es|
  {
    var step := ResourceStep(owner, rs, es[0].id, es[0].value, op, update);
    if |es| == 1 then step else FlatWalk(owner, step.resources, es[1..], op, update)
  }

  lemma {:induction false} WalkIsFlat(m: Memory, at: nat, owner: Text, rs: seq<Resource>, es: seq<Entry>, op: Operation, update: bool)
    requires Flat(es) && es != [] && Holds(m, at, EncodeAll(es))
    ensures WalkResources(m, at + |EncodeAll(es)|, at, owner, rs, op, update) == FlatWalk(owner, rs, es, op, update)
    decreases |es|
  {
    hide ResourceStep, DecodeHeader, Encode;
    FirstEntry(m, at, es);
    assert FlatEntry(es[0]);
    ResourceStepReturns(owner, rs, es[0].id, es[0].value, op, update);
    if |es| > 1 {
      var rs' := ResourceStep(owner, rs, es[0].id, es[0].value, op, update).resources;
      WalkIsFlat(m, at + |Encode(es[0])|, owner, rs', es[1..], op, update);
    }
  }

  lemma {:induction false} WalkIdsAreFlat(m: Memory, at: nat, es: seq<Entry>)
    requires AllEncodable(es) && Holds(m, at, EncodeAll(es))
    ensures WalkIds(m, at + |EncodeAll(es)|, at) == Ids(es)
    decreases |es|
  {
    if es != [] {
      FirstEntry(m, at, es);
      WalkIdsAreFlat(m, at + |Encode(es[0])|, es[1..]);
      IdsCons(es);
    }
  }

  lemma IdsCons(es: seq<Entry>)
    requires es != []
    ensures Ids(es) == {es[0].id} + Ids(es[1..])
  {
    forall x | x in Ids(es)
      ensures x in {es[0].id} + Ids(es[1..])
    {
      var i :| 0 <= i < |es| && es[i].id == x;
      assert i > 0 ==> es[1..][i - 1].id == x;
    }
    forall x | x in Ids(es[1..])
      ensures x in Ids(es)
    {
      var i :| 0 <= i < |es| - 1 && es[1..][i].id == x;
      assert es[i + 1].id == x;
    }
  }

  /** The value of the last entry with this identifier. */
  function LastValue(es: seq<Entry>, id: int): (bytes: seq<byte>)
    requires id in Ids(es)
  {
    if es[|es| - 1].id == id then es[|es| - 1].value
    else
      assert forall i :: 0 <= i < |es| - 1 ==> es[i] == es[..|es| - 1][i];
      LastValue(es[..|es| - 1], id)
  }

  /** The resource is the one that an entry with its identifier is applied to. */
  predicate IsTarget(rs: seq<Resource>, k: int) {
    0 <= k < |rs| && FindNameId(rs, rs[k].nameId) == k
  }

  /** The effect of a list of entries on a list of resources: the last entry with its identifier wins. */
  function Overwritten(rs: seq<Resource>, es: seq<Entry>): (r: seq<Resource>)
    ensures |r| == |rs|
  {
    seq(|rs|, k requires 0 <= k < |rs| =>
        if IsTarget(rs, k) && rs[k].nameId in Ids(es)
        then Assigned(rs[k], LastValue(es, rs[k].nameId)) else rs[k])
  }

  lemma SameTargets(rs: seq<Resource>, rs': seq<Resource>)
    requires |rs| == |rs'| && forall k :: 0 <= k < |rs| ==> rs[k].nameId == rs'[k].nameId
    ensures forall id :: FindNameId(rs, id) == FindNameId(rs', id)
  {
    forall id
      ensures FindNameId(rs, id) == FindNameId(rs', id)
    {
      var i, j := FindNameId(rs, id), FindNameId(rs', id);
      assert i >= 0 ==> rs'[i].nameId == id;
      assert j >= 0 ==> rs[j].nameId == id;
    }
  }

  lemma OverwrittenSnoc(rs: seq<Resource>, es: seq<Entry>, e: Entry)
    requires FindNameId(rs, e.id) >= 0
    ensures var i, o := FindNameId(rs, e.id), Overwritten(rs, es);
      && FindNameId(o, e.id) == i
      && Overwritten(rs, es + [e]) == o[i := Assigned(o[i], e.value)]
  {
    var i, o := FindNameId(rs, e.id), Overwritten(rs, es);
    SameTargets(rs, o);
    forall k | 0 <= k < |rs|
      ensures Overwritten(rs, es + [e])[k] == o[i := Assigned(o[i], e.value)][k]
    {
      IdsSnoc(es, e);
      var id := rs[k].nameId;
      assert (es + [e])[..|es|] == es;
    }
  }

  lemma OverwrittenMiss(rs: seq<Resource>, es: seq<Entry>, e: Entry)
    requires FindNameId(rs, e.id) < 0
    ensures Overwritten(rs, es + [e]) == Overwritten(rs, es)
    ensures FindNameId(Overwritten(rs, es), e.id) < 0
  {
    SameTargets(rs, Overwritten(rs, es));
    IdsSnoc(es, e);
    assert (es + [e])[..|es|] == es;
  }

  lemma IdsSnoc(es: seq<Entry>, e: Entry)
    ensures Ids(es + [e]) == Ids(es) + {e.id}
  {
    forall x | x in Ids(es) + {e.id}
      ensures x in Ids(es + [e])
    {
      if x in Ids(es) {
        var i :| 0 <= i < |es| && es[i].id == x;
        assert (es + [e])[i].id == x;
      } else {
        assert (es + [e])[|es|].id == x;
      }
    }
  }

  lemma OverwrittenNothing(rs: seq<Resource>)
    ensures Overwritten(rs, []) == rs
  {
  }

  lemma UpdateStep(owner: Text, rs: seq<Resource>, done: seq<Entry>, e: Entry, op: Operation)
    requires FindNameId(rs, e.id) >= 0
    ensures ResourceStep(owner, Overwritten(rs, done), e.id, e.value, op, true) ==
            Outcome(NoError, Overwritten(rs, done + [e]))
  {
    OverwrittenSnoc(rs, done, e);
  }

  /** The walk one entry at a time, from the back. */
  lemma {:induction false} FlatWalkSnoc(owner: Text, rs: seq<Resource>, es: seq<Entry>, op: Operation, update: bool)
    requires |es| > 1
    ensures var init, e := es[..|es| - 1], es[|es| - 1];
      FlatWalk(owner, rs, es, op, update) ==
      ResourceStep(owner, FlatWalk(owner, rs, init, op, update).resources, e.id, e.value, op, update)
    decreases |es|
  {
    hide ResourceStep;
    var next := ResourceStep(owner, rs, es[0].id, es[0].value, op, update).resources;
    if |es| > 2 {
      FlatWalkSnoc(owner, next, es[1..], op, update);
      assert es[1..][..|es| - 2] == es[..|es| - 1][1..];
    } else {
      assert es[..1] == [es[0]];
    }
  }

  /** The update pass of a PUT. */
  lemma {:induction false} FlatPutUpdate(owner: Text, rs: seq<Resource>, es: seq<Entry>)
    requires es != []
    ensures FlatWalk(owner, rs, es, Put, true) ==
            Outcome(if FindNameId(rs, es[|es| - 1].id) >= 0 then NoError else NotFound, Overwritten(rs, es))
  {
    hide Overwritten;
    var init, e := es[..|es| - 1], es[|es| - 1];
    if |es| > 1 {
      FlatWalkSnoc(owner, rs, es, Put, true);
      FlatPutUpdate(owner, rs, init);
    } else {
      OverwrittenNothing(rs);
    }
    assert es == init + [e];
    if FindNameId(rs, e.id) >= 0 {
      UpdateStep(owner, rs, init, e, Put);
    } else {
      OverwrittenMiss(rs, init, e);
    }
  }

  /** The verdict of the check pass of a PUT is that of the last entry alone. */
  function LastVerdict(rs: seq<Resource>, id: int): (e: Error) {
    if FindNameId(rs, id) < 0 then NotFound else if ResourceForbids(rs, id) then NotAllowed else NoError
  }

  lemma {:induction false} FlatPutCheck(owner: Text, rs: seq<Resource>, es: seq<Entry>)
    requires es != []
    ensures FlatWalk(owner, rs, es, Put, false) == Outcome(LastVerdict(rs, es[|es| - 1].id), rs)
    decreases |es|
  {
    if |es| > 1 {
      FlatPutCheck(owner, rs, es[1..]);
    }
  }

  ghost predicate Payload(m: Memory, es: seq<Entry>) {
    && Flat(es) && es != [] && es[0].kind == TYPE_RESOURCE
    && Holds(m, 0, EncodeAll(es))
  }

  function FlatDeserialize(owner: Text, rs: seq<Resource>, es: seq<Entry>, op: Operation): (out: Outcome)
    requires es != []
  {
    var check := FlatWalk(owner, rs, es, op, false);
    if check.error != NoError then check
    else FlatWalk(owner, if op.Put? then Keep(check.resources, Ids(es)) else check.resources, es, op, true)
  }

  lemma DeserializeIsFlat(m: Memory, owner: Text, rs: seq<Resource>, es: seq<Entry>, op: Operation)
    requires Payload(m, es)
    ensures Deserialize(m, |EncodeAll(es)|, owner, rs, op) == FlatDeserialize(owner, rs, es, op)
  {
    hide WalkResources, WalkIds, FlatWalk, DecodeHeader, EncodeAll;
    FirstEntry(m, 0, es);
    var check := FlatWalk(owner, rs, es, op, false);
    WalkIsFlat(m, 0, owner, rs, es, op, false);
    WalkIdsAreFlat(m, 0, es);
    var kept := if op.Put? then Keep(check.resources, Ids(es)) else check.resources;
    WalkIsFlat(m, 0, owner, kept, es, op, true);
    Passes(m, |EncodeAll(es)|, owner, rs, op, check, Ids(es), FlatWalk(owner, kept, es, op, true));
  }

  lemma Passes(m: Memory, size: nat, owner: Text, rs: seq<Resource>, op: Operation,
               check: Outcome, ids: set<int>, update: Outcome)
    requires DecodeHeader(m, 0).kind == TYPE_RESOURCE
    requires check == WalkResources(m, size, 0, owner, rs, op, false)
    requires ids == WalkIds(m, size, 0)
    requires update == WalkResources(m, size, 0, owner,
                                     if op.Put? then Keep(check.resources, ids) else check.resources, op, true)
    ensures Deserialize(m, size, owner, rs, op) == if check.error != NoError then check else update
  {
    hide WalkResources, WalkIds, DecodeHeader;
  }

  /**
   * PUT of a flat payload. The verdict is that of the last entry. An error leaves the resources as they
   * were; otherwise exactly the resources whose identifier occurs in the payload are left, in their old
   * order, each with the value of the last entry for it (the first of several resources that share an
   * identifier takes the value).
   */
  lemma FlatPut(m: Memory, owner: Text, rs: seq<Resource>, es: seq<Entry>)
    requires Payload(m, es)
    ensures var last := es[|es| - 1].id;
      Deserialize(m, |EncodeAll(es)|, owner, rs, Put) ==
      Outcome(LastVerdict(rs, last),
              if LastVerdict(rs, last) == NoError then Overwritten(Keep(rs, Ids(es)), es) else rs)
  {
    DeserializeIsFlat(m, owner, rs, es, Put);
    FlatPutCheck(owner, rs, es);
    var last := es[|es| - 1].id;
    if LastVerdict(rs, last) == NoError {
      var kept := Keep(rs, Ids(es));
      FlatPutUpdate(owner, kept, es);
      assert last in Ids(es);
      KeepMember(rs, Ids(es), last);
    }
  }

  // ----- POST

  /** The resources a POST creates: one for each new identifier, in order of first occurrence. */
  function Missing(owner: Text, rs: seq<Resource>, es: seq<Entry>): (kept: seq<Resource>)
    decreases |es|
  {
    if es == [] then []
    else
      var made := Missing(owner, rs, es[..|es| - 1]);
      var id := es[|es| - 1].id;
      if FindNameId(rs + made, id) < 0 then made + [Created(owner, id, false)] else made
  }

  /** Named after its identifier, opaque, with every operation allowed, and empty. */
  predicate Blank(owner: Text, r: Resource, id: nat, multiple: bool) {
    && id < ID_LIMIT
    && r == Resource(Decimal(id), id, BoundedPath(owner, Decimal(id)), OPAQUE, 0x0F, [], multiple, [])
  }

  lemma CreatedIsBlank(owner: Text, id: nat, multiple: bool)
    requires id < ID_LIMIT
    ensures Blank(owner, Created(owner, id, multiple), id, multiple)
  {
    hide Decimal, BoundedPath, NameIdOf;
    NameIdOfDecimal(id);
  }

  /** Each new resource is blank and named by an entry, and each entry that has none gets one. */
  lemma {:induction false} MissingIsBlank(owner: Text, rs: seq<Resource>, es: seq<Entry>)
    requires AllIds(es)
    ensures forall r :: r in Missing(owner, rs, es) ==> r.nameId in Ids(es) && Blank(owner, r, r.nameId, false)
    decreases |es|
  {
    hide Blank, Created;
    if es != [] {
      var init, id := es[..|es| - 1], es[|es| - 1].id;
      MissingIsBlank(owner, rs, init);
      CreatedIsBlank(owner, id, false);
      BlankId(owner, Created(owner, id, false), id);
      LastId(es);
    }
  }

  lemma BlankId(owner: Text, r: Resource, id: nat)
    requires Blank(owner, r, id, false)
    ensures r.nameId == id
  {
  }

  lemma LastId(es: seq<Entry>)
    requires es != []
    ensures Ids(es[..|es| - 1]) <= Ids(es) && es[|es| - 1].id in Ids(es)
  {
  }

  predicate AllNew(rs: seq<Resource>, made: seq<Resource>) {
    forall k :: 0 <= k < |made| ==> !Forbids(made[k].access) && FindNameId(rs, made[k].nameId) < 0
  }

  lemma {:induction false} MissingPermits(owner: Text, rs: seq<Resource>, es: seq<Entry>)
    requires AllIds(es)
    ensures AllNew(rs, Missing(owner, rs, es))
    ensures AllPresent(rs + Missing(owner, rs, es), es)
  {
    if es != [] {
      var init, e := es[..|es| - 1], es[|es| - 1];
      MissingPermits(owner, rs, init);
      var made := Missing(owner, rs, init);
      if FindNameId(rs + made, e.id) < 0 {
        CreatedPermits(owner, e.id);
        MissesBoth(rs, made, e.id);
        PresentGrows(rs, made, Created(owner, e.id, false), es);
      } else {
        PresentSnoc(rs + made, es);
      }
    }
  }

  lemma PresentSnoc(rs: seq<Resource>, es: seq<Entry>)
    requires es != [] && AllPresent(rs, es[..|es| - 1]) && FindNameId(rs, es[|es| - 1].id) >= 0
    ensures AllPresent(rs, es)
  {
    forall i | 0 <= i < |es|
      ensures FindNameId(rs, es[i].id) >= 0
    {
      assert i < |es| - 1 ==> es[i] == es[..|es| - 1][i];
    }
  }

  lemma CreatedPermits(owner: Text, id: nat)
    requires id < ID_LIMIT
    ensures !Forbids(Created(owner, id, false).access) && Created(owner, id, false).nameId == id
  {
    NameIdOfDecimal(id);
    assert BitAnd(GET_PUT_POST_DELETE_ALLOWED, PUT_ALLOWED) != 0;
  }

  lemma PresentGrows(rs: seq<Resource>, made: seq<Resource>, r: Resource, es: seq<Entry>)
    requires es != [] && AllPresent(rs + made, es[..|es| - 1]) && r.nameId == es[|es| - 1].id
    ensures AllPresent(rs + (made + [r]), es)
  {
    var all, init := rs + (made + [r]), es[..|es| - 1];
    forall i | 0 <= i < |init|
      ensures FindNameId(all, init[i].id) >= 0
    {
      var j := FindNameId(rs + made, init[i].id);
      assert all[j] == (rs + made)[j];
    }
    assert all[|rs| + |made|] == r;
    PresentSnoc(all, es);
  }

  lemma MissesBoth(rs: seq<Resource>, made: seq<Resource>, id: int)
    requires FindNameId(rs + made, id) < 0
    ensures FindNameId(rs, id) < 0
  {
    forall k | 0 <= k < |rs|
      ensures rs[k].nameId != id
    {
      assert (rs + made)[k] == rs[k];
    }
  }

  lemma PostCheckStep(owner: Text, rs: seq<Resource>, done: seq<Entry>, e: Entry)
    requires e.id < ID_LIMIT && AllIds(done)
    ensures ResourceStep(owner, rs + Missing(owner, rs, done), e.id, e.value, Post, false) ==
            Outcome(if ResourceForbids(rs, e.id) then NotAllowed else NoError, rs + Missing(owner, rs, done + [e]))
  {
    var made := Missing(owner, rs, done);
    assert (done + [e])[..|done|] == done;
    MissingPermits(owner, rs, done);
    ForbidsOnlyOld(rs, made, e.id);
    assert rs + (made + [Created(owner, e.id, false)]) == rs + made + [Created(owner, e.id, false)];
  }

  predicate AllIds(es: seq<Entry>) {
    forall i :: 0 <= i < |es| ==> es[i].id < ID_LIMIT
  }

  lemma {:induction false} FlatPostCheck(owner: Text, rs: seq<Resource>, es: seq<Entry>)
    requires es != [] && AllIds(es)
    ensures FlatWalk(owner, rs, es, Post, false) ==
            Outcome(if ResourceForbids(rs, es[|es| - 1].id) then NotAllowed else NoError,
                    rs + Missing(owner, rs, es))
  {
    hide ResourceStep, Overwritten;
    var init, e := es[..|es| - 1], es[|es| - 1];
    if |es| > 1 {
      FlatWalkSnoc(owner, rs, es, Post, false);
      FlatPostCheck(owner, rs, init);
    } else {
      assert rs + Missing(owner, rs, init) == rs;
    }
    assert es == init + [e];
    PostCheckStep(owner, rs, init, e);
  }

  lemma ForbidsOnlyOld(rs: seq<Resource>, made: seq<Resource>, id: int)
    requires AllNew(rs, made)
    ensures ResourceForbids(rs + made, id) <==> ResourceForbids(rs, id)
    ensures ResourceForbids(rs, id) ==> FindNameId(rs + made, id) >= 0
  {
    if ResourceForbids(rs, id) {
      var k :| 0 <= k < |rs| && rs[k].nameId == id && Forbids(rs[k].access);
      assert (rs + made)[k].nameId == id && Forbids((rs + made)[k].access);
    }
  }

  lemma {:induction false} FlatPostUpdate(owner: Text, rs: seq<Resource>, es: seq<Entry>)
    requires es != []
    requires AllPresent(rs, es)
    ensures FlatWalk(owner, rs, es, Post, true) == Outcome(NoError, Overwritten(rs, es))
  {
    hide ResourceStep, Overwritten;
    var init, e := es[..|es| - 1], es[|es| - 1];
    if |es| > 1 {
      FlatWalkSnoc(owner, rs, es, Post, true);
      FlatPostUpdate(owner, rs, init);
    } else {
      OverwrittenNothing(rs);
    }
    assert es == init + [e];
    UpdateStep(owner, rs, init, e, Post);
  }

  predicate AllPresent(rs: seq<Resource>, es: seq<Entry>) {
    forall i :: 0 <= i < |es| ==> FindNameId(rs, es[i].id) >= 0
  }

  lemma PostIsFlat(m: Memory, owner: Text, rs: seq<Resource>, es: seq<Entry>)
    requires Payload(m, es)
    ensures var all := rs + Missing(owner, rs, es);
      Deserialize(m, |EncodeAll(es)|, owner, rs, Post) ==
      if ResourceForbids(rs, es[|es| - 1].id) then Outcome(NotAllowed, all) else Outcome(NoError, Overwritten(all, es))
  {
    DeserializeIsFlat(m, owner, rs, es, Post);
    FlatIds(es);
    FlatPostCheck(owner, rs, es);
    if !ResourceForbids(rs, es[|es| - 1].id) {
      MissingPermits(owner, rs, es);
      FlatPostUpdate(owner, rs + Missing(owner, rs, es), es);
    }
  }

  /**
   * POST of a flat payload. Missing resources are created already by the check pass, so they stay when
   * the verdict is an error; otherwise every entry is applied and no resource is removed.
   */
  lemma FlatPost(m: Memory, owner: Text, rs: seq<Resource>, es: seq<Entry>)
    requires Payload(m, es)
    ensures var all := rs + Missing(owner, rs, es);
      Deserialize(m, |EncodeAll(es)|, owner, rs, Post) ==
      if ResourceForbids(rs, es[|es| - 1].id) then Outcome(NotAllowed, all) else Outcome(NoError, Overwritten(all, es))
    ensures AllNew(rs, Missing(owner, rs, es)) && AllPresent(rs + Missing(owner, rs, es), es)
    ensures forall r :: r in Missing(owner, rs, es) ==> r.nameId in Ids(es) && Blank(owner, r, r.nameId, false)
  {
    hide Blank, Deserialize, Missing, AllNew, AllPresent, Overwritten;
    PostIsFlat(m, owner, rs, es);
    FlatIds(es);
    MissingIsBlank(owner, rs, es);
    MissingPermits(owner, rs, es);
  }

  lemma FlatIds(es: seq<Entry>)
    requires Flat(es)
    ensures AllIds(es)
  {
    assert forall i :: 0 <= i < |es| ==> FlatEntry(es[i]);
  }
}
