/** Paths of the object tree and the four-level search `find_resource` of `m2mnsdlinterface.cpp`. */
module ObjectTree {
  import opened Bytes
  import opened M2MString
  import opened StringBuffers
  import opened ObjectModel

  type Tree = seq<ObjectNode>

  // ----- joined paths

  predicate SlashFree(t: Text) {
    SLASH !in t
  }

  predicate AllSlashFree(parts: seq<Text>) {
    forall i :: 0 <= i < |parts| ==> SlashFree(parts[i])
  }

  lemma SplitAtSlash(a: Text, b: Text, c: Text, d: Text)
    requires SlashFree(a) && SlashFree(c)
    requires a + [SLASH] + b == c + [SLASH] + d
    ensures a == c && b == d
  {
    var s, t := a + [SLASH] + b, c + [SLASH] + d;
    assert s[|a|] == SLASH && t[|c|] == SLASH;
    assert |a| == |c|;
    assert a == s[..|a|] && c == t[..|c|];
    assert b == s[|a| + 1..] && d == t[|c| + 1..];
  }

  lemma {:induction false} JoinHasSlash(parts: seq<Text>)
    requires |parts| > 1
    ensures SLASH in Joined(parts, SLASH)
  {
    assert Joined(parts, SLASH)[|parts[0]|] == SLASH;
  }

  /** A path determines its components. */
  lemma {:induction false} JoinInjective(p: seq<Text>, q: seq<Text>)
    requires p != [] && q != [] && AllSlashFree(p) && AllSlashFree(q)
    requires Joined(p, SLASH) == Joined(q, SLASH)
    ensures p == q
  {
    if |p| == 1 {
      if |q| > 1 {
        JoinHasSlash(q);
      }
    } else if |q| == 1 {
      JoinHasSlash(p);
    } else {
      SplitAtSlash(p[0], Joined(p[1..], SLASH), q[0], Joined(q[1..], SLASH));
      JoinInjective(p[1..], q[1..]);
      assert p == [p[0]] + p[1..] && q == [q[0]] + q[1..];
    }
  }

  lemma {:induction false} JoinAppend(p: seq<Text>, t: Text)
    requires p != []
    ensures Joined(p + [t], SLASH) == Joined(p, SLASH) + [SLASH] + t
  {
    if |p| > 1 {
      JoinAppend(p[1..], t);
      assert (p + [t])[1..] == p[1..] + [t];
    } else {
      assert (p + [t])[1..] == [t];
    }
  }

  // ----- well-formed trees

  predicate GoodName(name: Text) {
    NameLengthValid(name) && SlashFree(name)
  }

  predicate GoodResource(owner: Text, r: Resource) {
    && GoodName(r.name) && r.nameId == NameIdOf(r.name)
    && r.path == owner + [SLASH] + r.name
    && (r.instances != [] ==> r.multiple)
    && (forall k :: 0 <= k < |r.instances| ==> r.instances[k].id < ID_LIMIT)
    && (forall k :: 0 <= k < |r.instances| ==>
          r.instances[k].path == r.path + [SLASH] + Decimal(r.instances[k].id))
    && (forall j, k :: 0 <= j < k < |r.instances| ==> r.instances[j].id != r.instances[k].id)
  }

  predicate GoodResources(owner: Text, rs: seq<Resource>) {
    DistinctNames(rs) && forall k :: 0 <= k < |rs| ==> GoodResource(owner, rs[k])
  }

  predicate GoodInstance(owner: Text, n: InstanceNode) {
    n.id < ID_LIMIT && n.path == owner + [SLASH] + Decimal(n.id) && GoodResources(n.path, n.resources)
  }

  predicate GoodObject(o: ObjectNode) {
    && GoodName(o.name) && o.path == o.name
    && (forall k :: 0 <= k < |o.instances| ==> GoodInstance(o.path, o.instances[k]))
    && (forall j, k :: 0 <= j < k < |o.instances| ==> o.instances[j].id != o.instances[k].id)
  }

  predicate GoodTree(t: Tree) {
    && (forall k :: 0 <= k < |t| ==> GoodObject(t[k]))
    && (forall j, k :: 0 <= j < k < |t| ==> t[j].name != t[k].name)
  }

  // ----- nodes

  /** A node, by its position in the lists that lead to it. */
  datatype Node =
    | AtObject(o: nat)
    | AtInstance(o: nat, i: nat)
    | AtResource(o: nat, i: nat, r: nat)
    | AtResourceInstance(o: nat, i: nat, r: nat, k: nat)

  predicate IsNode(t: Tree, n: Node) {
    && n.o < |t|
    && (!n.AtObject? ==> n.i < |t[n.o].instances|)
    && (n.AtResource? || n.AtResourceInstance? ==> n.r < |t[n.o].instances[n.i].resources|)
    && (n.AtResourceInstance? ==> n.k < |t[n.o].instances[n.i].resources[n.r].instances|)
  }

  /** The `uri_path` stored in a node. */
  function PathOf(t: Tree, n: Node): (text: Text)
    requires IsNode(t, n)
  {
    match n
    case AtObject(o) => t[o].path
    case AtInstance(o, i) => t[o].instances[i].path
    case AtResource(o, i, r) => t[o].instances[i].resources[r].path
    case AtResourceInstance(o, i, r, k) => t[o].instances[i].resources[r].instances[k].path
  }

  /** Names and identifiers on the way from the root to a node. */
  function Ancestry(t: Tree, n: Node): (parts: seq<Text>)
    requires IsNode(t, n)
    ensures parts != []
  {
    match n
    case AtObject(o) => [t[o].name]
    case AtInstance(o, i) => [t[o].name, Decimal(t[o].instances[i].id)]
    case AtResource(o, i, r) =>
      [t[o].name, Decimal(t[o].instances[i].id), t[o].instances[i].resources[r].name]
    case AtResourceInstance(o, i, r, k) =>
      [t[o].name, Decimal(t[o].instances[i].id), t[o].instances[i].resources[r].name,
       Decimal(t[o].instances[i].resources[r].instances[k].id)]
  }

  function Parent(n: Node): (p: Node)
    requires !n.AtObject?
  {
    match n
    case AtInstance(o, i) => AtObject(o)
    case AtResource(o, i, r) => AtInstance(o, i)
    case AtResourceInstance(o, i, r, k) => AtResource(o, i, r)
  }

  lemma DecimalInjective(a: int, b: int)
    requires Decimal(a) == Decimal(b)
    ensures a == b
  {
    AtollInvertsDecimal(a);
    AtollInvertsDecimal(b);
  }

  /** In a well-formed tree every node's path is the untruncated join of its ancestors' names and ids. */
  lemma {:induction false} PathIsAncestry(t: Tree, n: Node)
    requires GoodTree(t) && IsNode(t, n)
    ensures AllSlashFree(Ancestry(t, n))
    ensures PathOf(t, n) == Joined(Ancestry(t, n), SLASH)
    decreases n.AtResourceInstance?, n.AtResource?, n.AtInstance?
  {
    var o := t[n.o];
    assert GoodObject(o);
    if !n.AtObject? {
      PathIsAncestry(t, Parent(n));
      assert GoodInstance(o.path, o.instances[n.i]);
      NameIdOfDecimal(o.instances[n.i].id);
      if !n.AtInstance? {
        var res := o.instances[n.i].resources[n.r];
        assert GoodResource(o.instances[n.i].path, res);
        if n.AtResourceInstance? {
          assert res.instances[n.k].id < ID_LIMIT;
          NameIdOfDecimal(res.instances[n.k].id);
        }
      }
      var all := Ancestry(t, n);
      var last := all[|all| - 1];
      assert all == Ancestry(t, Parent(n)) + [last];
      JoinAppend(Ancestry(t, Parent(n)), last);
    }
  }

  /** Two nodes of a well-formed tree with the same path are the same node. */
  lemma PathsAreUnique(t: Tree, m: Node, n: Node)
    requires GoodTree(t) && IsNode(t, m) && IsNode(t, n)
    requires PathOf(t, m) == PathOf(t, n)
    ensures m == n
  {
    PathIsAncestry(t, m);
    PathIsAncestry(t, n);
    var p, q := Ancestry(t, m), Ancestry(t, n);
    JoinInjective(p, q);
    assert |p| == |q|;
    assert p[0] == t[m.o].name && q[0] == t[n.o].name;
    assert m.o == n.o;
    var o := t[m.o];
    assert GoodObject(o);
    if !m.AtObject? {
      assert p[1] == Decimal(o.instances[m.i].id) && q[1] == Decimal(o.instances[n.i].id);
      DecimalInjective(o.instances[m.i].id, o.instances[n.i].id);
      assert m.i == n.i;
      var at := o.instances[m.i];
      assert GoodInstance(o.path, at);
      if !m.AtInstance? {
        assert p[2] == at.resources[m.r].name && q[2] == at.resources[n.r].name;
        assert m.r == n.r;
        if m.AtResourceInstance? {
          var res := at.resources[m.r];
          assert GoodResource(at.path, res);
          assert p[3] == Decimal(res.instances[m.k].id) && q[3] == Decimal(res.instances[n.k].id);
          DecimalInjective(res.instances[m.k].id, res.instances[n.k].id);
        }
      }
    }
  }

  // ----- the search

  ghost function Footprint(objects: seq<Object>): (r: set<ObjectInstance>)
    reads objects
    ensures forall k :: 0 <= k < |objects| ==> forall x :: x in objects[k].instanceList ==> x in r
  {
    set k, x | 0 <= k < |objects| && x in objects[k].instanceList :: x
  }

  ghost function Views(objects: seq<Object>): (t: Tree)
    reads objects, Footprint(objects)
    ensures |t| == |objects|
    ensures forall k :: 0 <= k < |t| ==> t[k] == objects[k].View()
  {
    seq(|objects|, k requires 0 <= k < |objects| reads objects, Footprint(objects) => objects[k].View())
  }

  /** A node that the search looks at: instances are only visited under a multiple-instance resource. */
  predicate Visited(t: Tree, n: Node) {
    IsNode(t, n) && (n.AtResourceInstance? ==> t[n.o].instances[n.i].resources[n.r].multiple)
  }

  method FindInResource(res: Resource, path: Text) returns (k: Option<nat>)
    ensures k.Some? ==> res.multiple && k.value < |res.instances| && res.instances[k.value].path == path
    ensures k.None? && res.multiple ==> forall j :: 0 <= j < |res.instances| ==> res.instances[j].path != path
  {
    k := None;
    if res.multiple {
      for j := 0 to |res.instances|
        invariant forall x :: 0 <= x < j ==> res.instances[x].path != path
      {
        if res.instances[j].path == path {
          return Some(j);
        }
      }
    }
  }

  /** Outcome of the search below an object instance: a resource, possibly one of its instances. */
  datatype Below = Nothing | FoundResource(r: nat) | FoundInstance(r: nat, k: nat)

  method FindInInstance(instance: ObjectInstance, path: Text) returns (b: Below)
    ensures b.FoundResource? ==> b.r < |instance.resourceList| && instance.resourceList[b.r].path == path
    ensures b.FoundInstance? ==>
      && b.r < |instance.resourceList| && instance.resourceList[b.r].multiple
      && b.k < |instance.resourceList[b.r].instances|
      && instance.resourceList[b.r].instances[b.k].path == path
    ensures b.Nothing? ==> forall j :: 0 <= j < |instance.resourceList| ==> Misses(instance.resourceList[j], path)
  {
    b := Nothing;
    for j := 0 to |instance.resourceList|
      invariant forall x :: 0 <= x < j ==> Misses(instance.resourceList[x], path)
    {
      var res := instance.resourceList[j];
      if res.path == path {
        return FoundResource(j);
      } else if res.multiple {
        var k := FindInResource(res, path);
        if k.Some? {
          return FoundInstance(j, k.value);
        }
      }
    }
  }

  /** Neither the resource nor an instance the search visits has this path. */
  predicate Misses(res: Resource, path: Text) {
    res.path != path &&
    (res.multiple ==> forall k :: 0 <= k < |res.instances| ==> res.instances[k].path != path)
  }

  predicate InstanceMisses(n: InstanceNode, path: Text) {
    n.path != path && forall j :: 0 <= j < |n.resources| ==> Misses(n.resources[j], path)
  }

  predicate ObjectMisses(o: ObjectNode, path: Text) {
    o.path != path && forall i :: 0 <= i < |o.instances| ==> InstanceMisses(o.instances[i], path)
  }

  predicate TreeMisses(t: Tree, path: Text) {
    forall x :: 0 <= x < |t| ==> ObjectMisses(t[x], path)
  }

  method FindInObject(o: nat, object_: Object, path: Text) returns (n: Option<Node>)
    ensures n.Some? ==> n.value.o == o && !n.value.AtObject? && BelowObject(object_.View(), n.value, path)
    ensures n.None? ==> forall i :: 0 <= i < |object_.View().instances| ==> InstanceMisses(object_.View().instances[i], path)
  {
    n := None;
    for i := 0 to |object_.instanceList|
      invariant forall x :: 0 <= x < i ==> InstanceMisses(object_.View().instances[x], path)
    {
      var instance := object_.instanceList[i];
      assert object_.View().instances[i] == instance.View();
      if instance.path == path {
        return Some(AtInstance(o, i));
      }
      var b := FindInInstance(instance, path);
      match b {
        case Nothing =>
        case FoundResource(r) => return Some(AtResource(o, i, r));
        case FoundInstance(r, k) => return Some(AtResourceInstance(o, i, r, k));
      }
    }
  }

  /** A node strictly below an object that the search visits and that has this path. */
  predicate BelowObject(v: ObjectNode, n: Node, path: Text) {
    && !n.AtObject? && n.i < |v.instances|
    && (n.AtInstance? ==> v.instances[n.i].path == path)
    && (n.AtResource? ==> n.r < |v.instances[n.i].resources| && v.instances[n.i].resources[n.r].path == path)
    && (n.AtResourceInstance? ==>
          && n.r < |v.instances[n.i].resources| && v.instances[n.i].resources[n.r].multiple
          && n.k < |v.instances[n.i].resources[n.r].instances|
          && v.instances[n.i].resources[n.r].instances[n.k].path == path)
  }

  /** The answer is a visited node with this path, or no visited node has it. */
  ghost predicate Located(t: Tree, path: Text, n: Option<Node>) {
    && (n.Some? ==> Visited(t, n.value) && PathOf(t, n.value) == path)
    && (n.None? ==> forall m | Visited(t, m) :: PathOf(t, m) != path)
  }

  /** The answer is the node with this path: no other node has it, and there is none when nothing is found. */
  ghost predicate ExactlyLocated(t: Tree, path: Text, n: Option<Node>) {
    forall m | IsNode(t, m) :: n == Some(m) <==> PathOf(t, m) == path
  }

  /** `find_resource(path, 0)`. */
  method FindResource(objects: seq<Object>, path: Text) returns (n: Option<Node>)
    ensures Located(Views(objects), path, n)
    ensures GoodTree(Views(objects)) ==> ExactlyLocated(Views(objects), path, n)
  {
    n := Search(objects, path);
    SearchLocates(Views(objects), path, n);
  }

  ghost predicate SearchOutcome(t: Tree, path: Text, n: Option<Node>) {
    if n.Some? then Visited(t, n.value) && PathOf(t, n.value) == path else TreeMisses(t, path)
  }

  lemma SearchLocates(t: Tree, path: Text, n: Option<Node>)
    requires SearchOutcome(t, path, n)
    ensures Located(t, path, n)
    ensures GoodTree(t) ==> ExactlyLocated(t, path, n)
  {
    if n.None? {
      NothingMissed(t, path);
    }
    if GoodTree(t) {
      ExactOnGoodTrees(t, path, n);
    }
  }

  method Search(objects: seq<Object>, path: Text) returns (n: Option<Node>)
    ensures SearchOutcome(Views(objects), path, n)
  {
    ghost var t := Views(objects);
    for o := 0 to |objects|
      invariant forall x :: 0 <= x < o ==> ObjectMisses(t[x], path)
    {
      assert t[o] == objects[o].View();
      if objects[o].path == path {
        return Some(AtObject(o));
      }
      n := FindInObject(o, objects[o], path);
      if n.Some? {
        return;
      }
    }
    return None;
  }

  lemma NothingMissed(t: Tree, path: Text)
    requires TreeMisses(t, path)
    ensures forall m | Visited(t, m) :: PathOf(t, m) != path
  {
    forall m | Visited(t, m)
      ensures PathOf(t, m) != path
    {
      assert ObjectMisses(t[m.o], path);
      if !m.AtObject? {
        assert InstanceMisses(t[m.o].instances[m.i], path);
        if !m.AtInstance? {
          assert Misses(t[m.o].instances[m.i].resources[m.r], path);
        }
      }
    }
  }

  /** On a well-formed tree locating a node means locating exactly the one with the path. */
  lemma ExactOnGoodTrees(t: Tree, path: Text, n: Option<Node>)
    requires GoodTree(t) && Located(t, path, n)
    ensures ExactlyLocated(t, path, n)
  {
    forall m | IsNode(t, m)
      ensures n == Some(m) <==> PathOf(t, m) == path
    {
      AllVisited(t, m);
      if n.Some? && PathOf(t, m) == path {
        PathsAreUnique(t, m, n.value);
      }
    }
  }

  lemma AllVisited(t: Tree, m: Node)
    requires GoodTree(t) && IsNode(t, m)
    ensures Visited(t, m)
  {
    if m.AtResourceInstance? {
      assert GoodObject(t[m.o]);
      assert GoodInstance(t[m.o].path, t[m.o].instances[m.i]);
      assert GoodResource(t[m.o].instances[m.i].path, t[m.o].instances[m.i].resources[m.r]);
    }
  }
}
