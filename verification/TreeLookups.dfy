/** What a lookup finds after each call on the object tree, compared with what it found before. */
module TreeLookups {
  import opened Bytes
  import opened M2MString
  import opened StringBuffers
  import opened ObjectModel
  import opened ObjectTree
  import opened TlvWalk
  import opened TreeRuns

  /** What a node holds besides its place in the tree. */
  datatype Content =
    | AnObject
    | AnInstance
    | AResource(rtype: ResourceType, access: nat, value: Text, multiple: bool)
    | AValue(rtype: ResourceType, access: nat, value: Text)

  function OfResource(r: Resource): (c: Content) {
    AResource(r.rtype, r.access, r.value, r.multiple)
  }

  function OfInstance(ri: ResourceInstance): (c: Content) {
    AValue(ri.rtype, ri.access, ri.value)
  }

  function ContentOf(t: Tree, n: Node): (c: Content)
    requires IsNode(t, n)
  {
    match n
    case AtObject(_) => AnObject
    case AtInstance(_, _) => AnInstance
    case AtResource(o, i, r) => OfResource(t[o].instances[i].resources[r])
    case AtResourceInstance(o, i, r, k) => OfInstance(t[o].instances[i].resources[r].instances[k])
  }

  /** Some node has this path and content. */
  ghost predicate Found(t: Tree, path: Text, c: Content) {
    exists n :: IsNode(t, n) && PathOf(t, n) == path && ContentOf(t, n) == c
  }

  /** The path itself, or one below it. */
  predicate Under(path: Text, p: Text) {
    p == path || path + [SLASH] <= p
  }

  // ----- nodes by the names and identifiers that lead to them

  ghost predicate HasResource(rs: seq<Resource>, name: Text, c: Content) {
    exists r :: r in rs && r.name == name && OfResource(r) == c
  }

  ghost predicate HasValue(rs: seq<Resource>, name: Text, id: Text, c: Content) {
    exists r, ri :: r in rs && r.name == name && ri in r.instances && Decimal(ri.id) == id && OfInstance(ri) == c
  }

  /** At or below a resource: a name, or a name and an instance. */
  ghost predicate HasBelow(rs: seq<Resource>, parts: seq<Text>, c: Content) {
    || (|parts| == 1 && HasResource(rs, parts[0], c))
    || (|parts| == 2 && HasValue(rs, parts[0], parts[1], c))
  }

  ghost predicate HasInInstance(n: InstanceNode, parts: seq<Text>, c: Content) {
    || (parts == [] && c == AnInstance)
    || (parts != [] && HasBelow(n.resources, parts, c))
  }

  ghost predicate HasInObject(o: ObjectNode, parts: seq<Text>, c: Content) {
    || (parts == [] && c == AnObject)
    || (parts != [] && exists n :: n in o.instances && Decimal(n.id) == parts[0] && HasInInstance(n, parts[1..], c))
  }

  ghost predicate Has(t: Tree, parts: seq<Text>, c: Content) {
    parts != [] && exists o :: o in t && o.name == parts[0] && HasInObject(o, parts[1..], c)
  }

  lemma NodeIsHad(t: Tree, n: Node)
    requires IsNode(t, n)
    ensures Has(t, Ancestry(t, n), ContentOf(t, n))
  {
    hide Decimal;
    var o := t[n.o];
    assert o in t;
    if !n.AtObject? {
      var i := o.instances[n.i];
      assert i in o.instances;
      if !n.AtInstance? {
        var r := i.resources[n.r];
        assert r in i.resources;
        if n.AtResourceInstance? {
          assert r.instances[n.k] in r.instances;
        }
        assert HasInInstance(i, Ancestry(t, n)[2..], ContentOf(t, n));
      }
      assert HasInObject(o, Ancestry(t, n)[1..], ContentOf(t, n));
    }
  }

  lemma HadIsNode(t: Tree, parts: seq<Text>, c: Content) returns (n: Node)
    requires Has(t, parts, c)
    ensures IsNode(t, n) && Ancestry(t, n) == parts && ContentOf(t, n) == c
  {
    hide Decimal;
    var o :| o in t && o.name == parts[0] && HasInObject(o, parts[1..], c);
    var x :| 0 <= x < |t| && t[x] == o;
    if |parts| == 1 {
      n := AtObject(x);
    } else {
      var i :| i in o.instances && Decimal(i.id) == parts[1..][0] && HasInInstance(i, parts[1..][1..], c);
      var y :| 0 <= y < |o.instances| && o.instances[y] == i;
      if |parts| == 2 {
        n := AtInstance(x, y);
      } else {
        assert parts[1..][1..] == parts[2..];
        n := BelowIsNode(t, x, y, parts, c);
      }
    }
  }

  lemma BelowIsNode(t: Tree, x: nat, y: nat, parts: seq<Text>, c: Content) returns (n: Node)
    requires |parts| > 2 && x < |t| && y < |t[x].instances|
    requires parts[0] == t[x].name && parts[1] == Decimal(t[x].instances[y].id)
    requires HasBelow(t[x].instances[y].resources, parts[2..], c)
    ensures IsNode(t, n) && Ancestry(t, n) == parts && ContentOf(t, n) == c
  {
    hide Decimal;
    var rs := t[x].instances[y].resources;
    if |parts| == 3 {
      var r :| r in rs && r.name == parts[2] && OfResource(r) == c;
      var z :| 0 <= z < |rs| && rs[z] == r;
      n := AtResource(x, y, z);
    } else {
      var r, ri :| r in rs && r.name == parts[2] && ri in r.instances && Decimal(ri.id) == parts[3] && OfInstance(ri) == c;
      var z :| 0 <= z < |rs| && rs[z] == r;
      var k :| 0 <= k < |r.instances| && r.instances[k] == ri;
      n := AtResourceInstance(x, y, z, k);
    }
  }

  // ----- paths and parts

  lemma {:induction false} JoinSplit(a: seq<Text>, b: seq<Text>)
    requires a != [] && b != []
    ensures Joined(a + b, SLASH) == Joined(a, SLASH) + [SLASH] + Joined(b, SLASH)
    decreases |a|
  {
    if |a| == 1 {
      assert (a + b)[1..] == b;
    } else {
      JoinSplit(a[1..], b);
      assert (a + b)[1..] == a[1..] + b;
      assert Joined(a + b, SLASH) == a[0] + [SLASH] + (Joined(a[1..], SLASH) + [SLASH] + Joined(b, SLASH));
    }
  }

  lemma {:induction false} UnderParts(a: seq<Text>, b: seq<Text>)
    requires a != [] && b != [] && AllSlashFree(a) && AllSlashFree(b)
    ensures Under(Joined(a, SLASH), Joined(b, SLASH)) <==> a <= b
    decreases |a|
  {
    if a <= b {
      if a != b {
        JoinSplit(a, b[|a|..]);
        assert b == a + b[|a|..];
      }
    }
    if Under(Joined(a, SLASH), Joined(b, SLASH)) {
      UnderIsPrefix(a, b);
    }
  }

  lemma {:induction false} UnderIsPrefix(a: seq<Text>, b: seq<Text>)
    requires a != [] && b != [] && AllSlashFree(a) && AllSlashFree(b)
    requires Under(Joined(a, SLASH), Joined(b, SLASH))
    ensures a <= b
    decreases |a|
  {
    var p, q := Joined(a, SLASH), Joined(b, SLASH);
    if q == p {
      JoinInjective(a, b);
    } else {
      var rest := q[|p| + 1..];
      assert q == p + [SLASH] + rest && q[|p|] == SLASH;
      if |b| == 1 {
        assert false;
      } else if |a| == 1 {
        SplitAtSlash(a[0], rest, b[0], Joined(b[1..], SLASH));
      } else {
        var p1 := Joined(a[1..], SLASH);
        assert q == a[0] + [SLASH] + (p1 + [SLASH] + rest);
        SplitAtSlash(a[0], p1 + [SLASH] + rest, b[0], Joined(b[1..], SLASH));
        UnderIsPrefix(a[1..], b[1..]);
      }
    }
  }

  /** In a good tree the nodes found at a path are those that its parts lead to. */
  lemma FoundByParts(t: Tree, parts: seq<Text>, c: Content)
    requires GoodTree(t) && parts != [] && AllSlashFree(parts)
    ensures Found(t, Joined(parts, SLASH), c) <==> Has(t, parts, c)
  {
    hide GoodTree, Has, Ancestry, ContentOf, PathOf;
    if Found(t, Joined(parts, SLASH), c) {
      var n :| IsNode(t, n) && PathOf(t, n) == Joined(parts, SLASH) && ContentOf(t, n) == c;
      PathIsAncestry(t, n);
      JoinInjective(parts, Ancestry(t, n));
      NodeIsHad(t, n);
    }
    if Has(t, parts, c) {
      var n := HadIsNode(t, parts, c);
      PathIsAncestry(t, n);
    }
  }

  /** Whatever is found has parts. */
  lemma FoundHasParts(t: Tree, path: Text, c: Content) returns (parts: seq<Text>)
    requires GoodTree(t) && Found(t, path, c)
    ensures parts != [] && AllSlashFree(parts) && path == Joined(parts, SLASH) && Has(t, parts, c)
  {
    hide GoodTree, Has, ContentOf, PathOf;
    var n :| IsNode(t, n) && PathOf(t, n) == path && ContentOf(t, n) == c;
    parts := Ancestry(t, n);
    PathIsAncestry(t, n);
    NodeIsHad(t, n);
  }

  // ----- calls on the resources of an object instance

  lemma ErasedIn<T>(s: seq<T>, i: nat, x: T)
    requires i < |s|
    ensures x in RemoveAt(s, i) ==> x in s
    ensures x in s && x != s[i] ==> x in RemoveAt(s, i)
  {
    var r := RemoveAt(s, i);
    if x in r {
      var k :| 0 <= k < |r| && r[k] == x;
      assert x == s[if k < i then k else k + 1];
    }
    if x in s && x != s[i] {
      var k :| 0 <= k < |s| && s[k] == x;
      assert r[if k < i then k else k - 1] == x;
    }
  }

  lemma AppendedIn<T>(s: seq<T>, y: T, x: T)
    ensures x in s + [y] <==> x in s || x == y
  {
  }

  lemma UpdatedIn<T>(s: seq<T>, i: nat, y: T, x: T)
    requires i < |s|
    ensures x in s && x != s[i] ==> x in s[i := y]
    ensures x in s[i := y] ==> x in s || x == y
    ensures y in s[i := y]
  {
    var r := s[i := y];
    if x in s && x != s[i] {
      var k :| 0 <= k < |s| && s[k] == x;
      assert r[k] == x;
    }
    assert r[i] == y;
  }

  /** The resource of a name, in a list of distinct names. */
  lemma TheResource(rs: seq<Resource>, r: Resource)
    requires DistinctNames(rs) && r in rs
    ensures FindName(rs, r.name) >= 0 && rs[FindName(rs, r.name)] == r
  {
    var k :| 0 <= k < |rs| && rs[k] == r;
    assert FindName(rs, r.name) == k;
  }

  /** A removed resource is gone with its instances, and nothing else is. */
  lemma AfterRemoveResource(rs: seq<Resource>, name: Text, parts: seq<Text>, c: Content)
    requires DistinctNames(rs) && parts != []
    ensures HasBelow(WithoutResource(rs, name), parts, c) <==> HasBelow(rs, parts, c) && parts[0] != name
  {
    hide Decimal, FindName;
    var rs' := WithoutResource(rs, name);
    forall r ensures r in rs' <==> r in rs && r.name != name {
      KeptBy(rs, name, r);
    }
  }

  lemma KeptBy(rs: seq<Resource>, name: Text, r: Resource)
    requires DistinctNames(rs)
    ensures r in WithoutResource(rs, name) <==> r in rs && r.name != name
  {
    var i := FindName(rs, name);
    if i >= 0 {
      ErasedIn(rs, i, r);
      if r in RemoveAt(rs, i) {
        var k :| 0 <= k < |rs| - 1 && RemoveAt(rs, i)[k] == r;
        assert r == rs[if k < i then k else k + 1];
      }
      if r in rs && r.name != name {
        assert r != rs[i];
      }
    }
  }

  /** A new resource is there, empty and with the access of a dynamic one, unless the name was taken or is not valid. */
  lemma AfterCreateResource(owner: Text, rs: seq<Resource>, name: Text, rtype: ResourceType, multiple: bool,
                            parts: seq<Text>, c: Content)
    requires parts != []
    ensures HasBelow(WithResource(owner, rs, name, rtype, multiple), parts, c) <==>
            || HasBelow(rs, parts, c)
            || (&& 1 <= |name| <= 64 && parts == [name] && c == AResource(rtype, 0x03, [], multiple)
                && !exists d :: HasResource(rs, name, d))
  {
    hide Decimal, NameIdOf;
    var rs' := WithResource(owner, rs, name, rtype, multiple);
    TakenName(rs, name);
    if rs' != rs {
      var appended := NewResource(owner, name, rtype, GET_PUT_ALLOWED, multiple);
      forall r ensures r in rs' <==> r in rs || r == appended {
        AppendedIn(rs, appended, r);
      }
      assert appended.instances == [];
    }
  }

  lemma TakenName(rs: seq<Resource>, name: Text)
    ensures FindName(rs, name) >= 0 <==> exists d :: HasResource(rs, name, d)
  {
    var i := FindName(rs, name);
    if i >= 0 {
      assert rs[i] in rs;
      assert HasResource(rs, name, OfResource(rs[i]));
    }
  }

  /** A new instance, in a new resource when there is none of the name. */
  lemma AfterCreateValue(owner: Text, rs: seq<Resource>, name: Text, rtype: ResourceType, id: nat,
                         parts: seq<Text>, c: Content)
    requires DistinctNames(rs) && parts != []
    ensures HasBelow(WithResourceInstance(owner, rs, name, rtype, id), parts, c) <==>
            || HasBelow(rs, parts, c)
            || (&& 1 <= |name| <= 64 && parts == [name] && c == AResource(rtype, 0x01, [], true)
                && !exists d :: HasResource(rs, name, d))
            || (&& 1 <= |name| <= 64 && parts == [name, Decimal(id)] && c == AValue(rtype, 0x01, [])
                && (forall d :: HasResource(rs, name, d) ==> d.AResource? && d.multiple)
                && !exists d :: HasValue(rs, name, Decimal(id), d))
  {
    hide Decimal, NameIdOf, BoundedPath, FindName, FindInstanceId;
    TakenName(rs, name);
    if NameLengthValid(name) {
      var i := FindName(rs, name);
      if i < 0 {
        NewWithValue(owner, rs, name, rtype, id, parts, c);
      } else {
        OldWithValue(rs, i, rtype, id, parts, c);
        OldMultiple(rs, i);
      }
    }
  }

  lemma OldMultiple(rs: seq<Resource>, i: nat)
    requires DistinctNames(rs) && i < |rs|
    ensures rs[i].multiple <==> forall d :: HasResource(rs, rs[i].name, d) ==> d.AResource? && d.multiple
  {
    assert rs[i] in rs;
    assert HasResource(rs, rs[i].name, OfResource(rs[i]));
    forall r | r in rs && r.name == rs[i].name ensures r == rs[i] {
      TheResource(rs, r);
      TheResource(rs, rs[i]);
    }
  }

  lemma NewWithValue(owner: Text, rs: seq<Resource>, name: Text, rtype: ResourceType, id: nat, parts: seq<Text>, c: Content)
    requires parts != [] && FindName(rs, name) < 0
    ensures var appended := WithInstance(NewResource(owner, name, rtype, GET_ALLOWED, true), rtype, GET_ALLOWED, id);
            HasBelow(rs + [appended], parts, c) <==>
            || HasBelow(rs, parts, c)
            || (parts == [name] && c == AResource(rtype, 0x01, [], true))
            || (parts == [name, Decimal(id)] && c == AValue(rtype, 0x01, []))
    ensures forall d :: !HasValue(rs, name, Decimal(id), d)
  {
    hide Decimal, NameIdOf, BoundedPath;
    var appended := WithInstance(NewResource(owner, name, rtype, GET_ALLOWED, true), rtype, GET_ALLOWED, id);
    assert appended.instances == [NewInstance(NewResource(owner, name, rtype, GET_ALLOWED, true), rtype, GET_ALLOWED, id)];
    forall r ensures r in rs + [appended] <==> r in rs || r == appended {
      AppendedIn(rs, appended, r);
    }
    assert forall ri :: ri in appended.instances <==> ri == appended.instances[0];
  }

  lemma OldWithValue(rs: seq<Resource>, i: nat, rtype: ResourceType, id: nat, parts: seq<Text>, c: Content)
    requires DistinctNames(rs) && i < |rs| && parts != []
    ensures HasBelow(rs[i := WithInstance(rs[i], rtype, GET_ALLOWED, id)], parts, c) <==>
            || HasBelow(rs, parts, c)
            || (&& parts == [rs[i].name, Decimal(id)] && c == AValue(rtype, 0x01, []) && rs[i].multiple
                && !exists d :: HasValue(rs, rs[i].name, Decimal(id), d))
  {
    hide Decimal, BoundedPath;
    var r0, name := rs[i], rs[i].name;
    var r1 := WithInstance(r0, rtype, GET_ALLOWED, id);
    var rs' := rs[i := r1];
    assert r0 in rs;
    TakenValue(rs, i, id);
    if r1 == r0 {
      assert rs' == rs;
    } else {
      var ri := NewInstance(r0, rtype, GET_ALLOWED, id);
      forall r ensures r in rs' <==> (r in rs && r.name != name) || r == r1 {
        ReplacedIn(rs, i, r1, r);
      }
      forall x ensures x in r1.instances <==> x in r0.instances || x == ri {
        AppendedIn(r0.instances, ri, x);
      }
      forall r | r in rs && r.name == name ensures r == r0 {
        TheResource(rs, r);
        TheResource(rs, r0);
      }
    }
  }

  lemma ReplacedIn(rs: seq<Resource>, i: nat, r1: Resource, r: Resource)
    requires DistinctNames(rs) && i < |rs| && r1.name == rs[i].name
    ensures r in rs[i := r1] <==> (r in rs && r.name != rs[i].name) || r == r1
  {
    UpdatedIn(rs, i, r1, r);
    if r in rs[i := r1] && r != r1 {
      var k :| 0 <= k < |rs| && rs[i := r1][k] == r;
      assert k != i && r == rs[k];
    }
  }

  lemma TakenValue(rs: seq<Resource>, i: nat, id: nat)
    requires DistinctNames(rs) && i < |rs|
    ensures FindInstanceId(rs[i].instances, id) >= 0 <==> exists d :: HasValue(rs, rs[i].name, Decimal(id), d)
  {
    hide Decimal;
    var k := FindInstanceId(rs[i].instances, id);
    assert rs[i] in rs;
    if k >= 0 {
      assert rs[i].instances[k] in rs[i].instances;
      assert HasValue(rs, rs[i].name, Decimal(id), OfInstance(rs[i].instances[k]));
    }
    if d :| HasValue(rs, rs[i].name, Decimal(id), d) {
      var r, ri :| r in rs && r.name == rs[i].name && ri in r.instances && Decimal(ri.id) == Decimal(id) && OfInstance(ri) == d;
      TheResource(rs, r);
      TheResource(rs, rs[i]);
      DecimalInjective(ri.id, id);
    }
  }

  /** The instance with this identifier is the only one of the resource. */
  ghost predicate OnlyValue(rs: seq<Resource>, name: Text, id: nat) {
    forall t, d :: HasValue(rs, name, t, d) ==> t == Decimal(id)
  }

  /** A removed instance is gone, and with the last one its resource; nothing else is. */
  lemma AfterRemoveValue(rs: seq<Resource>, name: Text, id: nat, parts: seq<Text>, c: Content)
    requires DistinctNames(rs) && parts != []
    requires forall k :: 0 <= k < |rs| ==>
               forall x, y :: 0 <= x < y < |rs[k].instances| ==> rs[k].instances[x].id != rs[k].instances[y].id
    ensures HasBelow(WithoutResourceInstance(rs, name, id), parts, c) <==>
            && HasBelow(rs, parts, c)
            && ((exists d :: HasValue(rs, name, Decimal(id), d)) ==>
                  if OnlyValue(rs, name, id) then parts[0] != name else parts != [name, Decimal(id)])
  {
    hide Decimal, FindName, FindInstanceId, HasBelow, OnlyValue, HasValue;
    var i := FindName(rs, name);
    if i >= 0 {
      TakenValue(rs, i, id);
      var k := FindInstanceId(rs[i].instances, id);
      if k >= 0 {
        OnlyOne(rs, i, k);
        if RemoveAt(rs[i].instances, k) == [] {
          assert WithoutResourceInstance(rs, name, id) == WithoutResource(rs, name);
          AfterRemoveResource(rs, name, parts, c);
        } else {
          ValueErased(rs, i, k, parts, c);
        }
      }
    } else {
      NoValues(rs, name, Decimal(id));
    }
  }

  lemma NoValues(rs: seq<Resource>, name: Text, id: Text)
    requires FindName(rs, name) < 0
    ensures !exists d :: HasValue(rs, name, id, d)
  {
  }

  lemma OnlyOne(rs: seq<Resource>, i: nat, k: nat)
    requires DistinctNames(rs) && i < |rs| && k < |rs[i].instances|
    requires forall x, y :: 0 <= x < y < |rs[i].instances| ==> rs[i].instances[x].id != rs[i].instances[y].id
    ensures OnlyValue(rs, rs[i].name, rs[i].instances[k].id) <==> RemoveAt(rs[i].instances, k) == []
  {
    hide Decimal;
    var ris, id := rs[i].instances, rs[i].instances[k].id;
    assert rs[i] in rs;
    if |ris| > 1 {
      var j := if k == 0 then 1 else 0;
      assert ris[j] in ris && ris[j].id != id;
      assert HasValue(rs, rs[i].name, Decimal(ris[j].id), OfInstance(ris[j]));
      if Decimal(ris[j].id) == Decimal(id) {
        DecimalInjective(ris[j].id, id);
      }
    } else {
      forall t, d | HasValue(rs, rs[i].name, t, d) ensures t == Decimal(id) {
        var r, ri :| r in rs && r.name == rs[i].name && ri in r.instances && Decimal(ri.id) == t && OfInstance(ri) == d;
        TheResource(rs, r);
        TheResource(rs, rs[i]);
      }
    }
  }

  lemma ValueErased(rs: seq<Resource>, i: nat, k: nat, parts: seq<Text>, c: Content)
    requires DistinctNames(rs) && i < |rs| && k < |rs[i].instances| && parts != []
    requires forall x, y :: 0 <= x < y < |rs[i].instances| ==> rs[i].instances[x].id != rs[i].instances[y].id
    ensures HasBelow(rs[i := rs[i].(instances := RemoveAt(rs[i].instances, k))], parts, c) <==>
            HasBelow(rs, parts, c) && parts != [rs[i].name, Decimal(rs[i].instances[k].id)]
  {
    hide Decimal;
    var r0, name, ris, id := rs[i], rs[i].name, rs[i].instances, rs[i].instances[k].id;
    var r1 := r0.(instances := RemoveAt(ris, k));
    assert r0 in rs && OfResource(r1) == OfResource(r0);
    forall r ensures r in rs[i := r1] <==> (r in rs && r.name != name) || r == r1 {
      ReplacedIn(rs, i, r1, r);
    }
    forall r | r in rs && r.name == name ensures r == r0 {
      TheResource(rs, r);
      TheResource(rs, r0);
    }
    forall x ensures x in r1.instances <==> x in ris && Decimal(x.id) != Decimal(id) {
      ErasedById(ris, k, x);
    }
  }

  lemma ErasedById(ris: seq<ResourceInstance>, k: nat, x: ResourceInstance)
    requires k < |ris| && forall a, b :: 0 <= a < b < |ris| ==> ris[a].id != ris[b].id
    ensures x in RemoveAt(ris, k) <==> x in ris && Decimal(x.id) != Decimal(ris[k].id)
  {
    hide Decimal;
    ErasedIn(ris, k, x);
    if x in RemoveAt(ris, k) {
      var j :| 0 <= j < |ris| - 1 && RemoveAt(ris, k)[j] == x;
      assert x == ris[if j < k then j else j + 1];
      if Decimal(x.id) == Decimal(ris[k].id) {
        DecimalInjective(x.id, ris[k].id);
      }
    }
  }

  // ----- calls on objects

  lemma TheObject(t: Tree, o: nat, x: ObjectNode)
    requires GoodTree(t) && o < |t| && x in t && x.name == t[o].name
    ensures x == t[o]
  {
    hide GoodObject;
    var k :| 0 <= k < |t| && t[k] == x;
  }

  lemma TheInstance(o: ObjectNode, i: nat, x: InstanceNode)
    requires GoodObject(o) && i < |o.instances| && x in o.instances && Decimal(x.id) == Decimal(o.instances[i].id)
    ensures x == o.instances[i]
  {
    hide GoodInstance, Decimal;
    DecimalInjective(x.id, o.instances[i].id);
    var k :| 0 <= k < |o.instances| && o.instances[k] == x;
  }

  lemma ObjectReplacedIn(t: Tree, o: nat, o1: ObjectNode, x: ObjectNode)
    requires GoodTree(t) && o < |t| && o1.name == t[o].name
    ensures x in t[o := o1] <==> (x in t && x.name != t[o].name) || x == o1
  {
    hide GoodObject;
    UpdatedIn(t, o, o1, x);
    if x in t[o := o1] && x != o1 {
      var k :| 0 <= k < |t| && t[o := o1][k] == x;
      assert k != o && x == t[k];
    }
  }

  /** When one object changes, only what is at or below its name does. */
  lemma AfterChange(t: Tree, o: nat, o1: ObjectNode, parts: seq<Text>, c: Content)
    requires GoodTree(t) && o < |t| && o1.name == t[o].name
    ensures Has(t[o := o1], parts, c) <==>
            if parts != [] && parts[0] == t[o].name then HasInObject(o1, parts[1..], c) else Has(t, parts, c)
    ensures parts != [] && parts[0] == t[o].name ==> (Has(t, parts, c) <==> HasInObject(t[o], parts[1..], c))
  {
    hide GoodTree, HasInObject;
    assert t[o] in t;
    forall x ensures x in t[o := o1] <==> (x in t && x.name != t[o].name) || x == o1 {
      ObjectReplacedIn(t, o, o1, x);
    }
    forall x | x in t && x.name == t[o].name ensures x == t[o] {
      TheObject(t, o, x);
    }
  }

  lemma InstanceIn(o: ObjectNode, id: nat, x: InstanceNode)
    requires GoodObject(o)
    ensures x in WithObjectInstance(o, id).instances <==>
            x in o.instances || (x == InstanceNode(id, BoundedPath(o.path, Decimal(id)), []) && FindId(o.instances, id) < 0)
    ensures x in WithoutObjectInstance(o, id).instances <==> x in o.instances && Decimal(x.id) != Decimal(id)
  {
    hide GoodInstance, Decimal, BoundedPath;
    var i := FindId(o.instances, id);
    if x in o.instances && Decimal(x.id) == Decimal(id) {
      DecimalInjective(x.id, id);
    }
    if i < 0 {
      AppendedIn(o.instances, InstanceNode(id, BoundedPath(o.path, Decimal(id)), []), x);
    } else {
      ErasedIn(o.instances, i, x);
      if x in RemoveAt(o.instances, i) {
        var k :| 0 <= k < |o.instances| - 1 && RemoveAt(o.instances, i)[k] == x;
        assert x == o.instances[if k < i then k else k + 1];
      }
    }
  }

  lemma AfterRemoveInstance(o: ObjectNode, id: nat, parts: seq<Text>, c: Content)
    requires GoodObject(o)
    ensures HasInObject(WithoutObjectInstance(o, id), parts, c) <==>
            HasInObject(o, parts, c) && !(parts != [] && parts[0] == Decimal(id))
  {
    hide GoodObject, WithoutObjectInstance, HasInInstance, Decimal;
    forall x ensures x in WithoutObjectInstance(o, id).instances <==> x in o.instances && Decimal(x.id) != Decimal(id) {
      InstanceIn(o, id, x);
    }
  }

  lemma AfterCreateInstance(o: ObjectNode, id: nat, parts: seq<Text>, c: Content)
    requires GoodObject(o)
    ensures HasInObject(WithObjectInstance(o, id), parts, c) <==>
            HasInObject(o, parts, c) || (parts == [Decimal(id)] && c == AnInstance)
  {
    hide GoodObject, WithObjectInstance, Decimal, BoundedPath, FindId;
    var appended := InstanceNode(id, BoundedPath(o.path, Decimal(id)), []);
    forall x ensures x in WithObjectInstance(o, id).instances <==> x in o.instances || (x == appended && FindId(o.instances, id) < 0) {
      InstanceIn(o, id, x);
    }
    var i := FindId(o.instances, id);
    if i >= 0 {
      assert o.instances[i] in o.instances;
      assert parts == [Decimal(id)] ==> HasInInstance(o.instances[i], parts[1..], AnInstance);
    } else {
      assert forall p :: HasInInstance(appended, p, c) <==> p == [] && c == AnInstance;
    }
  }

  /** The object with other resources in one instance. */
  function WithResources(o: ObjectNode, i: nat, rs: seq<Resource>): (o1: ObjectNode)
    requires i < |o.instances|
  {
    o.(instances := o.instances[i := o.instances[i].(resources := rs)])
  }

  lemma AfterResources(o: ObjectNode, i: nat, rs: seq<Resource>, parts: seq<Text>, c: Content)
    requires GoodObject(o) && i < |o.instances|
    ensures HasInObject(WithResources(o, i, rs), parts, c) <==>
            if |parts| > 1 && parts[0] == Decimal(o.instances[i].id) then HasBelow(rs, parts[1..], c) else HasInObject(o, parts, c)
    ensures |parts| > 1 && parts[0] == Decimal(o.instances[i].id) ==>
              (HasInObject(o, parts, c) <==> HasBelow(o.instances[i].resources, parts[1..], c))
  {
    hide GoodObject, HasBelow, Decimal;
    var n0 := o.instances[i];
    var n1 := n0.(resources := rs);
    assert n0 in o.instances;
    forall x ensures x in WithResources(o, i, rs).instances <==>
                     (x in o.instances && Decimal(x.id) != Decimal(n0.id)) || x == n1
    {
      NodeReplacedIn(o, i, n1, x);
    }
    forall x | x in o.instances && Decimal(x.id) == Decimal(n0.id) ensures x == n0 {
      TheInstance(o, i, x);
    }
  }

  lemma NodeReplacedIn(o: ObjectNode, i: nat, n1: InstanceNode, x: InstanceNode)
    requires GoodObject(o) && i < |o.instances| && n1.id == o.instances[i].id
    ensures x in o.instances[i := n1] <==> (x in o.instances && Decimal(x.id) != Decimal(n1.id)) || x == n1
  {
    hide GoodInstance, Decimal;
    UpdatedIn(o.instances, i, n1, x);
    if x in o.instances[i := n1] && x != n1 {
      var k :| 0 <= k < |o.instances| && o.instances[i := n1][k] == x;
      assert k != i && x == o.instances[k];
      if Decimal(x.id) == Decimal(n1.id) {
        DecimalInjective(x.id, n1.id);
      }
    }
  }

  // ----- every call

  function InstancePath(t: Tree, o: nat, i: nat): (path: Text)
    requires o < |t| && i < |t[o].instances|
  {
    PathOf(t, AtInstance(o, i))
  }

  predicate OnNode(t: Tree, o: nat, i: nat) {
    o < |t| && i < |t[o].instances|
  }

  ghost predicate SomethingAt(t: Tree, path: Text) {
    exists d :: Found(t, path, d)
  }

  /** The path is no longer found after the call. */
  ghost predicate Removes(t: Tree, call: TreeCall, path: Text) {
    match call
    case RemoveObjectInstance(o, id) => o < |t| && Under(PathOf(t, AtObject(o)) + [SLASH] + Decimal(id), path)
    case OnInstance(o, i, RemoveResource(name)) =>
      OnNode(t, o, i) && SlashFree(name) && Under(InstancePath(t, o, i) + [SLASH] + name, path)
    case OnInstance(o, i, RemoveResourceInstance(name, id)) =>
      && OnNode(t, o, i) && SlashFree(name)
      && var all := InstancePath(t, o, i) + [SLASH] + name;
         var one := all + [SLASH] + Decimal(id);
      && SomethingAt(t, one)
      && if forall p :: SomethingAt(t, p) && Under(all, p) ==> p == all || p == one then Under(all, path) else path == one
    case _ => false
  }

  /** The path is found after the call with this content, and it was not before. */
  ghost predicate Adds(t: Tree, call: TreeCall, path: Text, c: Content) {
    match call
    case AddObject(name) => path == name && c == AnObject
    case CreateObjectInstance(o, id) =>
      o < |t| && path == PathOf(t, AtObject(o)) + [SLASH] + Decimal(id) && c == AnInstance
    case OnInstance(o, i, CreateResource(name, rtype, multiple)) =>
      && OnNode(t, o, i) && 1 <= |name| <= 64 && path == InstancePath(t, o, i) + [SLASH] + name
      && !SomethingAt(t, path) && c == AResource(rtype, 0x03, [], multiple)
    case OnInstance(o, i, CreateResourceInstance(name, rtype, id)) =>
      && OnNode(t, o, i) && 1 <= |name| <= 64
      && var all := InstancePath(t, o, i) + [SLASH] + name;
         var one := all + [SLASH] + Decimal(id);
      || (path == all && !SomethingAt(t, all) && c == AResource(rtype, 0x01, [], true))
      || (&& path == one && !SomethingAt(t, one) && c == AValue(rtype, 0x01, [])
          && forall d :: Found(t, all, d) ==> d.AResource? && d.multiple)
    case _ => false
  }

  lemma {:induction false} DigitsSlashFree(n: nat)
    ensures SlashFree(Digits(n))
  {
    if n >= 10 {
      DigitsSlashFree(n / 10);
    }
  }

  lemma IdSlashFree(id: nat)
    ensures SlashFree(Decimal(id))
  {
    DigitsSlashFree(id);
  }

  lemma Join2(a: Text, b: Text)
    ensures Joined([a, b], SLASH) == a + [SLASH] + b
  {
    assert [a, b][1..] == [b];
  }

  lemma Join3(a: Text, b: Text, c: Text)
    ensures Joined([a, b, c], SLASH) == a + [SLASH] + b + [SLASH] + c
  {
    Join2(b, c);
    assert [a, b, c][1..] == [b, c];
  }

  lemma Join4(a: Text, b: Text, c: Text, d: Text)
    ensures Joined([a, b, c, d], SLASH) == a + [SLASH] + b + [SLASH] + c + [SLASH] + d
  {
    Join3(b, c, d);
    assert [a, b, c, d][1..] == [b, c, d];
  }

  /** The parts that lead to an object instance and what is named below it. */
  function InstanceParts(t: Tree, o: nat, i: nat): (parts: seq<Text>)
    requires OnNode(t, o, i)
  {
    [t[o].name, Decimal(t[o].instances[i].id)]
  }

  lemma NamedBelow(t: Tree, o: nat, i: nat, name: Text, id: nat)
    requires GoodTree(t) && OnNode(t, o, i) && SlashFree(name)
    ensures var p := InstanceParts(t, o, i);
            && AllSlashFree(p + [name]) && AllSlashFree(p + [name, Decimal(id)])
            && InstancePath(t, o, i) + [SLASH] + name == Joined(p + [name], SLASH)
            && InstancePath(t, o, i) + [SLASH] + name + [SLASH] + Decimal(id) == Joined(p + [name, Decimal(id)], SLASH)
  {
    hide Decimal, GoodResources;
    assert GoodObject(t[o]) && GoodInstance(t[o].path, t[o].instances[i]);
    var a, b := t[o].name, Decimal(t[o].instances[i].id);
    IdSlashFree(id);
    IdSlashFree(t[o].instances[i].id);
    Join3(a, b, name);
    Join4(a, b, name, Decimal(id));
    assert [a, b] + [name] == [a, b, name] && [a, b] + [name, Decimal(id)] == [a, b, name, Decimal(id)];
  }

  /** What the parts lead to in a tree whose resources changed in one instance. */
  lemma HasAfterResources(t: Tree, o: nat, i: nat, rs: seq<Resource>, parts: seq<Text>, c: Content)
    requires GoodTree(t) && OnNode(t, o, i) && parts != []
    ensures var p, old_ := InstanceParts(t, o, i), t[o].instances[i].resources;
            var inside := |parts| > 2 && parts[..2] == p;
            && (Has(t[o := WithResources(t[o], i, rs)], parts, c) <==>
                if inside then HasBelow(rs, parts[2..], c) else Has(t, parts, c))
            && (inside ==> (Has(t, parts, c) <==> HasBelow(old_, parts[2..], c)))
  {
    hide GoodObject, HasInObject, HasBelow, Has, Decimal;
    var o1 := WithResources(t[o], i, rs);
    AfterChange(t, o, o1, parts, c);
    AfterResources(t[o], i, rs, parts[1..], c);
    if |parts| > 2 {
      assert parts[1..][1..] == parts[2..];
      assert parts[..2] == [parts[0], parts[1]];
    }
  }

  lemma AtName(t: Tree, o: nat, i: nat, name: Text, d: Content)
    requires GoodTree(t) && OnNode(t, o, i) && SlashFree(name)
    ensures Found(t, InstancePath(t, o, i) + [SLASH] + name, d) <==> HasResource(t[o].instances[i].resources, name, d)
  {
    hide GoodTree, Found, Has, HasResource, HasValue, InstanceParts, Decimal;
    var parts := InstanceParts(t, o, i) + [name];
    NamedBelow(t, o, i, name, 0);
    PartsOf(t, o, i, [name]);
    FoundByParts(t, parts, d);
    HasAfterResources(t, o, i, [], parts, d);
  }

  lemma AtValue(t: Tree, o: nat, i: nat, name: Text, id: nat, d: Content)
    requires GoodTree(t) && OnNode(t, o, i) && SlashFree(name)
    ensures Found(t, InstancePath(t, o, i) + [SLASH] + name + [SLASH] + Decimal(id), d) <==>
            HasValue(t[o].instances[i].resources, name, Decimal(id), d)
  {
    hide GoodTree, Found, Has, HasResource, HasValue, InstanceParts, Decimal;
    var parts := InstanceParts(t, o, i) + [name, Decimal(id)];
    NamedBelow(t, o, i, name, id);
    PartsOf(t, o, i, [name, Decimal(id)]);
    FoundByParts(t, parts, d);
    HasAfterResources(t, o, i, [], parts, d);
  }

  lemma PartsOf(t: Tree, o: nat, i: nat, tail: seq<Text>)
    requires OnNode(t, o, i)
    ensures var p := InstanceParts(t, o, i); |p| == 2 && (p + tail)[..2] == p && (p + tail)[2..] == tail
  {
  }

  /** The law in terms of parts. */
  ghost predicate LookupLaw(t: Tree, call: TreeCall, t': Tree, path: Text, c: Content) {
    Found(t', path, c) <==> (Found(t, path, c) && !Removes(t, call, path)) || Adds(t, call, path, c)
  }

  lemma LookupRemoveInstance(t: Tree, o: nat, id: nat, parts: seq<Text>, c: Content)
    requires GoodTree(t) && o < |t| && parts != [] && AllSlashFree(parts)
    requires GoodTree(t[o := WithoutObjectInstance(t[o], id)])
    ensures LookupLaw(t, RemoveObjectInstance(o, id), t[o := WithoutObjectInstance(t[o], id)], Joined(parts, SLASH), c)
  {
    hide GoodObject, Found, Has, HasInObject, Decimal, WithoutObjectInstance, Under;
    var o1 := WithoutObjectInstance(t[o], id);
    KeepsName(t[o], id);
    AfterChange(t, o, o1, parts, c);
    AfterRemoveInstance(t[o], id, parts[1..], c);
    FoundByParts(t, parts, c);
    FoundByParts(t[o := o1], parts, c);
    ObjectNamed(t, o, id);
    UnderParts([t[o].name, Decimal(id)], parts);
    Prefix2(t[o].name, Decimal(id), parts);
  }

  lemma KeepsName(o: ObjectNode, id: nat)
    ensures WithoutObjectInstance(o, id).name == o.name && WithObjectInstance(o, id).name == o.name
  {
  }

  lemma Prefix2(a: Text, b: Text, parts: seq<Text>)
    ensures [a, b] <= parts <==> |parts| > 1 && parts[0] == a && parts[1] == b
  {
  }

  lemma ObjectNamed(t: Tree, o: nat, id: nat)
    requires GoodTree(t) && o < |t|
    ensures PathOf(t, AtObject(o)) + [SLASH] + Decimal(id) == Joined([t[o].name, Decimal(id)], SLASH)
    ensures AllSlashFree([t[o].name, Decimal(id)])
  {
    hide Decimal, GoodInstance;
    assert GoodObject(t[o]);
    IdSlashFree(id);
    Join2(t[o].name, Decimal(id));
  }

  lemma LookupCreateInstance(t: Tree, o: nat, id: nat, parts: seq<Text>, c: Content)
    requires GoodTree(t) && o < |t| && parts != [] && AllSlashFree(parts)
    requires GoodTree(t[o := WithObjectInstance(t[o], id)])
    ensures LookupLaw(t, CreateObjectInstance(o, id), t[o := WithObjectInstance(t[o], id)], Joined(parts, SLASH), c)
  {
    hide GoodObject, Found, Has, HasInObject, Decimal, WithObjectInstance, Under;
    var o1 := WithObjectInstance(t[o], id);
    KeepsName(t[o], id);
    AfterChange(t, o, o1, parts, c);
    AfterCreateInstance(t[o], id, parts[1..], c);
    FoundByParts(t, parts, c);
    FoundByParts(t[o := o1], parts, c);
    ObjectNamed(t, o, id);
    var q := [t[o].name, Decimal(id)];
    if Joined(parts, SLASH) == Joined(q, SLASH) {
      JoinInjective(parts, q);
    }
    assert parts == q <==> parts[0] == t[o].name && parts[1..] == [Decimal(id)];
  }

  lemma LookupAddObject(t: Tree, name: Text, parts: seq<Text>, c: Content)
    requires GoodTree(t) && GoodName(name) && parts != [] && AllSlashFree(parts)
    requires GoodTree(t + [ObjectNode(name, name, [])])
    ensures LookupLaw(t, AddObject(name), t + [ObjectNode(name, name, [])], Joined(parts, SLASH), c)
  {
    hide GoodTree, Found, Decimal;
    var appended := ObjectNode(name, name, []);
    FoundByParts(t, parts, c);
    FoundByParts(t + [appended], parts, c);
    forall x ensures x in t + [appended] <==> x in t || x == appended {
      AppendedIn(t, appended, x);
    }
    assert Joined([name], SLASH) == name;
    if Joined(parts, SLASH) == name {
      JoinInjective(parts, [name]);
    }
    assert HasInObject(appended, parts[1..], c) <==> parts[1..] == [] && c == AnObject;
    assert parts == [name] <==> parts[0] == name && parts[1..] == [];
  }

  lemma Prefix3(p: seq<Text>, name: Text, parts: seq<Text>)
    requires |p| == 2
    ensures p + [name] <= parts <==> |parts| > 2 && parts[..2] == p && parts[2] == name
  {
    if |parts| > 2 {
      assert parts[..3] == parts[..2] + [parts[2]];
    }
  }

  lemma Tail3(p: seq<Text>, tail: seq<Text>, parts: seq<Text>)
    requires |p| == 2 && tail != []
    ensures parts == p + tail <==> |parts| > 2 && parts[..2] == p && parts[2..] == tail
  {
    if |parts| > 2 {
      assert parts == parts[..2] + parts[2..];
    }
  }

  /** The paths at and below a name in an instance, by their parts. */
  lemma UnderName(t: Tree, o: nat, i: nat, name: Text, parts: seq<Text>)
    requires GoodTree(t) && OnNode(t, o, i) && SlashFree(name) && parts != [] && AllSlashFree(parts)
    ensures Under(InstancePath(t, o, i) + [SLASH] + name, Joined(parts, SLASH)) <==>
            |parts| > 2 && parts[..2] == InstanceParts(t, o, i) && parts[2] == name
  {
    hide GoodTree, Under, InstancePath, InstanceParts, Joined, AllSlashFree, SlashFree;
    var p := InstanceParts(t, o, i);
    PartsOf(t, o, i, [name]);
    NamedBelow(t, o, i, name, 0);
    UnderParts(p + [name], parts);
    Prefix3(p, name, parts);
  }

  lemma IsName(t: Tree, o: nat, i: nat, name: Text, parts: seq<Text>)
    requires GoodTree(t) && OnNode(t, o, i) && SlashFree(name) && parts != [] && AllSlashFree(parts)
    ensures Joined(parts, SLASH) == InstancePath(t, o, i) + [SLASH] + name <==>
            |parts| > 2 && parts[..2] == InstanceParts(t, o, i) && parts[2..] == [name]
  {
    hide GoodTree, InstancePath, InstanceParts, Joined, AllSlashFree, SlashFree;
    var p := InstanceParts(t, o, i);
    NamedBelow(t, o, i, name, 0);
    PartsOf(t, o, i, [name]);
    if Joined(parts, SLASH) == Joined(p + [name], SLASH) {
      JoinInjective(parts, p + [name]);
    }
    Tail3(p, [name], parts);
  }

  lemma IsValue(t: Tree, o: nat, i: nat, name: Text, id: nat, parts: seq<Text>)
    requires GoodTree(t) && OnNode(t, o, i) && SlashFree(name) && parts != [] && AllSlashFree(parts)
    ensures Joined(parts, SLASH) == InstancePath(t, o, i) + [SLASH] + name + [SLASH] + Decimal(id) <==>
            |parts| > 2 && parts[..2] == InstanceParts(t, o, i) && parts[2..] == [name, Decimal(id)]
  {
    hide GoodTree, InstancePath, InstanceParts, Decimal, Joined, AllSlashFree, SlashFree;
    var p := InstanceParts(t, o, i);
    NamedBelow(t, o, i, name, id);
    PartsOf(t, o, i, [name, Decimal(id)]);
    if Joined(parts, SLASH) == Joined(p + [name, Decimal(id)], SLASH) {
      JoinInjective(parts, p + [name, Decimal(id)]);
    }
    Tail3(p, [name, Decimal(id)], parts);
  }

  lemma GoodNames(t: Tree, o: nat, i: nat)
    requires GoodTree(t) && OnNode(t, o, i)
    ensures var rs := t[o].instances[i].resources;
            && DistinctNames(rs)
            && (forall r :: r in rs ==> SlashFree(r.name))
            && forall k :: 0 <= k < |rs| ==>
                 forall x, y :: 0 <= x < y < |rs[k].instances| ==> rs[k].instances[x].id != rs[k].instances[y].id
  {
    hide Decimal, NameIdOf;
    assert GoodObject(t[o]) && GoodInstance(t[o].path, t[o].instances[i]);
    var n := t[o].instances[i];
    forall k | 0 <= k < |n.resources| ensures GoodResource(n.path, n.resources[k]) {
    }
  }

  lemma LookupRemoveResource(t: Tree, o: nat, i: nat, name: Text, parts: seq<Text>, c: Content)
    requires GoodTree(t) && OnNode(t, o, i) && parts != [] && AllSlashFree(parts)
    requires var rs := t[o].instances[i].resources;
             GoodTree(t[o := WithResources(t[o], i, WithoutResource(rs, name))])
    ensures var rs := t[o].instances[i].resources;
            LookupLaw(t, OnInstance(o, i, RemoveResource(name)), t[o := WithResources(t[o], i, WithoutResource(rs, name))],
                      Joined(parts, SLASH), c)
  {
    hide GoodTree, Found, Has, HasBelow, Under, InstancePath, InstanceParts, WithoutResource, WithResources;
    var rs := t[o].instances[i].resources;
    var rs' := WithoutResource(rs, name);
    GoodNames(t, o, i);
    HasAfterResources(t, o, i, rs', parts, c);
    FoundByParts(t, parts, c);
    FoundByParts(t[o := WithResources(t[o], i, rs')], parts, c);
    if |parts| > 2 {
      AfterRemoveResource(rs, name, parts[2..], c);
    }
    if SlashFree(name) {
      UnderName(t, o, i, name, parts);
    }
  }

  lemma LookupCreateResource(t: Tree, o: nat, i: nat, name: Text, rtype: ResourceType, multiple: bool, parts: seq<Text>,
                             c: Content, t': Tree)
    requires GoodTree(t) && OnNode(t, o, i) && SlashFree(name) && parts != [] && AllSlashFree(parts)
    requires var n := t[o].instances[i];
             t' == t[o := WithResources(t[o], i, WithResource(n.path, n.resources, name, rtype, multiple))]
    requires GoodTree(t')
    ensures LookupLaw(t, OnInstance(o, i, CreateResource(name, rtype, multiple)), t', Joined(parts, SLASH), c)
  {
    hide GoodTree, Found, Has, HasBelow, InstancePath, InstanceParts, WithResource, WithResources, HasResource, HasValue;
    var n := t[o].instances[i];
    var rs' := WithResource(n.path, n.resources, name, rtype, multiple);
    HasAfterResources(t, o, i, rs', parts, c);
    FoundByParts(t, parts, c);
    FoundByParts(t', parts, c);
    IsName(t, o, i, name, parts);
    SomethingNamed(t, o, i, name);
    if |parts| > 2 {
      AfterCreateResource(n.path, n.resources, name, rtype, multiple, parts[2..], c);
    }
  }

  lemma SomethingNamed(t: Tree, o: nat, i: nat, name: Text)
    requires GoodTree(t) && OnNode(t, o, i) && SlashFree(name)
    ensures SomethingAt(t, InstancePath(t, o, i) + [SLASH] + name) <==>
            exists d :: HasResource(t[o].instances[i].resources, name, d)
    ensures (forall d :: Found(t, InstancePath(t, o, i) + [SLASH] + name, d) ==> d.AResource? && d.multiple) <==>
            forall d :: HasResource(t[o].instances[i].resources, name, d) ==> d.AResource? && d.multiple
  {
    hide GoodTree, Found, HasResource, InstancePath;
    forall d ensures Found(t, InstancePath(t, o, i) + [SLASH] + name, d) <==>
                     HasResource(t[o].instances[i].resources, name, d)
    {
      AtName(t, o, i, name, d);
    }
  }

  lemma SomethingValued(t: Tree, o: nat, i: nat, name: Text, id: nat)
    requires GoodTree(t) && OnNode(t, o, i) && SlashFree(name)
    ensures SomethingAt(t, InstancePath(t, o, i) + [SLASH] + name + [SLASH] + Decimal(id)) <==>
            exists d :: HasValue(t[o].instances[i].resources, name, Decimal(id), d)
  {
    hide GoodTree, Found, HasValue, InstancePath, Decimal;
    forall d ensures Found(t, InstancePath(t, o, i) + [SLASH] + name + [SLASH] + Decimal(id), d) <==>
                     HasValue(t[o].instances[i].resources, name, Decimal(id), d)
    {
      AtValue(t, o, i, name, id, d);
    }
  }

  lemma LookupCreateValue(t: Tree, o: nat, i: nat, name: Text, rtype: ResourceType, id: nat, parts: seq<Text>, c: Content,
                          t': Tree)
    requires GoodTree(t) && OnNode(t, o, i) && SlashFree(name) && parts != [] && AllSlashFree(parts)
    requires var n := t[o].instances[i];
             t' == t[o := WithResources(t[o], i, WithResourceInstance(n.path, n.resources, name, rtype, id))]
    requires GoodTree(t')
    ensures LookupLaw(t, OnInstance(o, i, CreateResourceInstance(name, rtype, id)), t', Joined(parts, SLASH), c)
  {
    hide GoodTree, Found, Has, HasBelow, InstancePath, InstanceParts, WithResourceInstance, WithResources, HasResource, HasValue,
         Decimal, SomethingAt;
    var n := t[o].instances[i];
    var rs' := WithResourceInstance(n.path, n.resources, name, rtype, id);
    GoodNames(t, o, i);
    HasAfterResources(t, o, i, rs', parts, c);
    FoundByParts(t, parts, c);
    FoundByParts(t', parts, c);
    IsName(t, o, i, name, parts);
    IsValue(t, o, i, name, id, parts);
    SomethingNamed(t, o, i, name);
    SomethingValued(t, o, i, name, id);
    if |parts| > 2 {
      AfterCreateValue(n.path, n.resources, name, rtype, id, parts[2..], c);
    }
  }

  /** A path leads to the only instance of a resource exactly when nothing else is found below the resource. */
  lemma OnlyPath(t: Tree, o: nat, i: nat, name: Text, id: nat)
    requires GoodTree(t) && OnNode(t, o, i) && SlashFree(name)
    ensures var all := InstancePath(t, o, i) + [SLASH] + name;
            var one := all + [SLASH] + Decimal(id);
            (forall p :: SomethingAt(t, p) && Under(all, p) ==> p == all || p == one) <==>
            OnlyValue(t[o].instances[i].resources, name, id)
  {
    hide GoodTree, InstancePath, Decimal, HasValue, Found, OnlyValue, Under;
    var all := InstancePath(t, o, i) + [SLASH] + name;
    var one := all + [SLASH] + Decimal(id);
    var rs := t[o].instances[i].resources;
    if OnlyValue(rs, name, id) {
      forall p | SomethingAt(t, p) && Under(all, p) ensures p == all || p == one {
        OnlyThese(t, o, i, name, id, p);
      }
    }
    if forall p :: SomethingAt(t, p) && Under(all, p) ==> p == all || p == one {
      forall x, d | HasValue(rs, name, x, d) ensures x == Decimal(id) {
        OneOfThese(t, o, i, name, id, x, d);
      }
      OnlyIfAll(rs, name, id);
    }
  }

  lemma OnlyIfAll(rs: seq<Resource>, name: Text, id: nat)
    requires forall x, d :: HasValue(rs, name, x, d) ==> x == Decimal(id)
    ensures OnlyValue(rs, name, id)
  {
  }

  lemma OneOfThese(t: Tree, o: nat, i: nat, name: Text, id: nat, x: Text, d: Content)
    requires GoodTree(t) && OnNode(t, o, i) && SlashFree(name) && HasValue(t[o].instances[i].resources, name, x, d)
    requires var all := InstancePath(t, o, i) + [SLASH] + name;
             forall p :: SomethingAt(t, p) && Under(all, p) ==> p == all || p == all + [SLASH] + Decimal(id)
    ensures x == Decimal(id)
  {
    hide GoodTree, InstancePath, Decimal, Found;
    var all := InstancePath(t, o, i) + [SLASH] + name;
    var rs := t[o].instances[i].resources;
    var r, ri :| r in rs && r.name == name && ri in r.instances && Decimal(ri.id) == x && OfInstance(ri) == d;
    AtValue(t, o, i, name, ri.id, d);
    var p := all + [SLASH] + x;
    assert SomethingAt(t, p) && Under(all, p);
    assert p == all + [SLASH] + Decimal(id);
    assert x == p[|all| + 1..];
  }

  lemma OnlyThese(t: Tree, o: nat, i: nat, name: Text, id: nat, p: Text)
    requires GoodTree(t) && OnNode(t, o, i) && SlashFree(name) && OnlyValue(t[o].instances[i].resources, name, id)
    requires SomethingAt(t, p) && Under(InstancePath(t, o, i) + [SLASH] + name, p)
    ensures var all := InstancePath(t, o, i) + [SLASH] + name; p == all || p == all + [SLASH] + Decimal(id)
  {
    hide GoodTree, InstancePath, Decimal, Found, Under, Has, HasResource, HasValue;
    var rs := t[o].instances[i].resources;
    var d :| Found(t, p, d);
    var parts := FoundHasParts(t, p, d);
    UnderName(t, o, i, name, parts);
    HasAfterResources(t, o, i, [], parts, d);
    if |parts| == 3 {
      assert parts[2..] == [name];
      IsName(t, o, i, name, parts);
    } else {
      assert HasValue(rs, parts[2], parts[3], d);
      assert parts[2..] == [name, Decimal(id)];
      IsValue(t, o, i, name, id, parts);
    }
  }

  lemma LookupRemoveValue(t: Tree, o: nat, i: nat, name: Text, id: nat, parts: seq<Text>, c: Content)
    requires GoodTree(t) && OnNode(t, o, i) && parts != [] && AllSlashFree(parts)
    requires var rs := t[o].instances[i].resources;
             GoodTree(t[o := WithResources(t[o], i, WithoutResourceInstance(rs, name, id))])
    ensures var rs := t[o].instances[i].resources;
            LookupLaw(t, OnInstance(o, i, RemoveResourceInstance(name, id)),
                      t[o := WithResources(t[o], i, WithoutResourceInstance(rs, name, id))], Joined(parts, SLASH), c)
  {
    hide GoodTree, Found, Has, HasBelow, Under, InstancePath, InstanceParts, WithoutResourceInstance, WithResources, HasValue,
         OnlyValue, Decimal, SomethingAt;
    var rs := t[o].instances[i].resources;
    var rs' := WithoutResourceInstance(rs, name, id);
    GoodNames(t, o, i);
    HasAfterResources(t, o, i, rs', parts, c);
    FoundByParts(t, parts, c);
    FoundByParts(t[o := WithResources(t[o], i, rs')], parts, c);
    if |parts| > 2 {
      AfterRemoveValue(rs, name, id, parts[2..], c);
    }
    if SlashFree(name) {
      UnderName(t, o, i, name, parts);
      IsValue(t, o, i, name, id, parts);
      SomethingValued(t, o, i, name, id);
      OnlyPath(t, o, i, name, id);
    } else {
      NoValueNamed(rs, name, Decimal(id));
    }
  }

  lemma NoValueNamed(rs: seq<Resource>, name: Text, id: Text)
    requires !SlashFree(name) && forall r :: r in rs ==> SlashFree(r.name)
    ensures !exists d :: HasValue(rs, name, id, d)
  {
  }

  // ----- the law

  predicate IsPayload(call: TreeCall) {
    call.OnInstance? && call.call.ApplyPayload?
  }

  lemma LookupByParts(t: Tree, call: TreeCall, parts: seq<Text>, c: Content)
    requires GoodTree(t) && Permitted(t, call) && !IsPayload(call) && parts != [] && AllSlashFree(parts)
    ensures Call(t, call).Some? && GoodTree(Call(t, call).value)
    ensures LookupLaw(t, call, Call(t, call).value, Joined(parts, SLASH), c)
  {
    hide GoodTree, LookupLaw, WithObjectInstance, WithoutObjectInstance, WithResource, WithResourceInstance, WithoutResource,
         WithoutResourceInstance;
    GoodAfterCall(t, call);
    match call {
      case AddObject(name) => LookupAddObject(t, name, parts, c);
      case CreateObjectInstance(o, id) =>
        if o < |t| {
          LookupCreateInstance(t, o, id, parts, c);
        } else {
          NothingHappens(t, call, parts, c);
        }
      case RemoveObjectInstance(o, id) =>
        if o < |t| {
          LookupRemoveInstance(t, o, id, parts, c);
        } else {
          NothingHappens(t, call, parts, c);
        }
      case OnInstance(o, i, rc) =>
        if OnNode(t, o, i) {
          match rc {
            case CreateResource(name, rtype, multiple) =>
              LookupCreateResource(t, o, i, name, rtype, multiple, parts, c, Call(t, call).value);
            case CreateResourceInstance(name, rtype, id) =>
              LookupCreateValue(t, o, i, name, rtype, id, parts, c, Call(t, call).value);
            case RemoveResource(name) => LookupRemoveResource(t, o, i, name, parts, c);
            case RemoveResourceInstance(name, id) => LookupRemoveValue(t, o, i, name, id, parts, c);
          }
        } else {
          NothingHappens(t, call, parts, c);
        }
    }
  }

  lemma NothingHappens(t: Tree, call: TreeCall, parts: seq<Text>, c: Content)
    requires match call
             case AddObject(_) => false
             case CreateObjectInstance(o, _) => o >= |t|
             case RemoveObjectInstance(o, _) => o >= |t|
             case OnInstance(o, i, _) => !OnNode(t, o, i)
    ensures LookupLaw(t, call, t, Joined(parts, SLASH), c)
  {
  }

  /**
   * In a good tree, a path is found after a create or remove call with a content exactly when it was found
   * before with it and not removed, or was added with it.
   */
  lemma LookupAfterCall(t: Tree, call: TreeCall, path: Text, c: Content)
    requires GoodTree(t) && Permitted(t, call) && !IsPayload(call)
    ensures Call(t, call).Some? && GoodTree(Call(t, call).value)
    ensures Found(Call(t, call).value, path, c) <==>
            (Found(t, path, c) && !Removes(t, call, path)) || Adds(t, call, path, c)
  {
    hide GoodTree, Found, Removes, Adds, Has, Call, Permitted;
    CallGoes(t, call);
    var t' := Call(t, call).value;
    if Found(t', path, c) {
      var parts := FoundHasParts(t', path, c);
      LookupByParts(t, call, parts, c);
    } else if Found(t, path, c) {
      var parts := FoundHasParts(t, path, c);
      LookupByParts(t, call, parts, c);
    } else if Adds(t, call, path, c) {
      var parts := AddedHasParts(t, call, path, c);
      LookupByParts(t, call, parts, c);
    }
  }

  lemma CallGoes(t: Tree, call: TreeCall)
    requires GoodTree(t) && Permitted(t, call) && !IsPayload(call)
    ensures Call(t, call).Some? && GoodTree(Call(t, call).value)
  {
    hide GoodTree, Permitted;
    GoodAfterCall(t, call);
  }

  lemma AddedHasParts(t: Tree, call: TreeCall, path: Text, c: Content) returns (parts: seq<Text>)
    requires GoodTree(t) && Permitted(t, call) && Adds(t, call, path, c)
    ensures parts != [] && AllSlashFree(parts) && path == Joined(parts, SLASH)
  {
    hide GoodTree, Found, Decimal, InstancePath, SomethingAt;
    match call {
      case AddObject(name) =>
        parts := [name];
      case CreateObjectInstance(o, id) =>
        ObjectNamed(t, o, id);
        parts := [t[o].name, Decimal(id)];
      case OnInstance(o, i, CreateResource(name, rtype, multiple)) =>
        NamedBelow(t, o, i, name, 0);
        parts := InstanceParts(t, o, i) + [name];
      case OnInstance(o, i, CreateResourceInstance(name, rtype, id)) =>
        NamedBelow(t, o, i, name, id);
        var all := InstanceParts(t, o, i) + [name];
        parts := if path == Joined(all, SLASH) then all else InstanceParts(t, o, i) + [name, Decimal(id)];
    }
  }

  /** The lookup of the client finds exactly what is found, with its content. */
  lemma LocatedIsFound(t: Tree, path: Text, found: Option<Node>, c: Content)
    requires GoodTree(t) && Located(t, path, found)
    ensures Found(t, path, c) <==> found.Some? && ContentOf(t, found.value) == c
  {
    hide GoodTree, Located, ContentOf;
    ExactOnGoodTrees(t, path, found);
    LocatedNode(t, path, found);
  }

  lemma LocatedNode(t: Tree, path: Text, found: Option<Node>)
    requires Located(t, path, found)
    ensures found.Some? ==> IsNode(t, found.value) && PathOf(t, found.value) == path
  {
  }

  /** A payload changes nothing outside its object instance. */
  lemma LookupOutside(t: Tree, call: TreeCall, path: Text, c: Content)
    requires GoodTree(t) && Permitted(t, call) && IsPayload(call) && Call(t, call).Some?
    requires OnNode(t, call.o, call.i) ==> !(InstancePath(t, call.o, call.i) + [SLASH] <= path)
    ensures Found(Call(t, call).value, path, c) <==> Found(t, path, c)
  {
    hide GoodTree, Found, Has, Deserialize;
    GoodAfterCall(t, call);
    var t' := Call(t, call).value;
    if OnNode(t, call.o, call.i) {
      if Found(t', path, c) {
        var parts := FoundHasParts(t', path, c);
        OutsideParts(t, call, parts, c);
      }
      if Found(t, path, c) {
        var parts := FoundHasParts(t, path, c);
        OutsideParts(t, call, parts, c);
      }
    }
  }

  lemma OutsideParts(t: Tree, call: TreeCall, parts: seq<Text>, c: Content)
    requires GoodTree(t) && Permitted(t, call) && IsPayload(call) && Call(t, call).Some? && GoodTree(Call(t, call).value)
    requires OnNode(t, call.o, call.i) && parts != [] && AllSlashFree(parts)
    requires !(InstancePath(t, call.o, call.i) + [SLASH] <= Joined(parts, SLASH))
    ensures Found(Call(t, call).value, Joined(parts, SLASH), c) <==> Found(t, Joined(parts, SLASH), c)
  {
    hide GoodTree, Found, Has, Deserialize, HasBelow, Decimal;
    var o, i := call.o, call.i;
    var n := t[o].instances[i];
    var rs := CallResources(n.path, n.resources, call.call);
    assert Call(t, call).value == t[o := WithResources(t[o], i, rs)];
    HasAfterResources(t, o, i, rs, parts, c);
    FoundByParts(t, parts, c);
    FoundByParts(Call(t, call).value, parts, c);
    if |parts| > 2 && parts[..2] == InstanceParts(t, o, i) {
      InsideInstance(t, o, i, parts);
    }
  }

  lemma InsideInstance(t: Tree, o: nat, i: nat, parts: seq<Text>)
    requires GoodTree(t) && OnNode(t, o, i) && |parts| > 2 && parts[..2] == InstanceParts(t, o, i)
    ensures InstancePath(t, o, i) + [SLASH] <= Joined(parts, SLASH)
  {
    hide Decimal, GoodResources;
    assert GoodObject(t[o]) && GoodInstance(t[o].path, t[o].instances[i]);
    Join2(t[o].name, Decimal(t[o].instances[i].id));
    JoinSplit(parts[..2], parts[2..]);
    assert parts == parts[..2] + parts[2..];
  }
}
