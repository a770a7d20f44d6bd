// The two loader templates on node objects: collect the keys of a batch of parents, and
// scatter the neighbours that came back through a map of node pointers.

module EagerLoaders {
  import opened Wrappers
  import opened EagerSpec

  class Node {
    const id: int
    const vals: map<string, Option<int>>
    const loaded: set<string>         // Edges.loadedTypes
    var one: map<string, Node>        // an absent name is a nil pointer
    var many: map<string, seq<Node>>  // an absent name is a nil slice

    constructor (id: int, vals: map<string, Option<int>>, loaded: set<string>)
      ensures this.id == id && this.vals == vals && this.loaded == loaded && one == map[] && many == map[]
    {
      this.id, this.vals, this.loaded, one, many := id, vals, loaded, map[], map[];
    }

    // The Go field behind a foreign key: NULL and unscanned columns leave the zero value,
    // nil for a pointer field and 0 for a plain one.
    function Key(e: Edge): Option<int> {
      var v := if e.fk in vals then vals[e.fk] else None;
      if v.None? && !e.nullable then Some(0) else v
    }
  }

  // The key of a node is its scanned value; where nothing or NULL was scanned it is nil in a
  // pointer field and 0 in a plain one, so a loader over a plain field never sees nil.
  lemma KeyIs(n: Node, e: Edge)
    ensures e.fk in n.vals && n.vals[e.fk].Some? ==> n.Key(e) == n.vals[e.fk]
    ensures e.fk !in n.vals || n.vals[e.fk].None? ==> n.Key(e) == if e.nullable then None else Some(0)
  {
  }

  function Keys(nodes: seq<Node>, e: Edge): (ks: seq<Option<int>>)
    ensures |ks| == |nodes| && forall i | 0 <= i < |nodes| :: ks[i] == nodes[i].Key(e)
  {
    seq(|nodes|, i requires 0 <= i < |nodes| => nodes[i].Key(e))
  }

  ghost predicate Distinct<T>(s: seq<T>) {
    forall i, j | 0 <= i < j < |s| :: s[i] != s[j]
  }

  // The nodes whose key is k, in order.
  function Bucket(nodes: seq<Node>, keys: seq<Option<int>>, k: int): (b: seq<Node>)
    requires |nodes| == |keys|
    ensures forall i | 0 <= i < |nodes| && keys[i] == Some(k) :: nodes[i] in b
    ensures forall n | n in b :: exists i :: 0 <= i < |nodes| && nodes[i] == n && keys[i] == Some(k)
  {
    if nodes == [] then []
    else
      var last := |nodes| - 1;
      Bucket(nodes[..last], keys[..last], k) + if keys[last] == Some(k) then [nodes[last]] else []
  }

  lemma BucketStep(nodes: seq<Node>, keys: seq<Option<int>>, i: nat, k: int)
    requires i < |nodes| == |keys|
    ensures Bucket(nodes[..i + 1], keys[..i + 1], k)
         == Bucket(nodes[..i], keys[..i], k) + if keys[i] == Some(k) then [nodes[i]] else []
  {
    assert nodes[..i + 1][..i] == nodes[..i] && keys[..i + 1][..i] == keys[..i];
  }

  lemma BucketEmpty(nodes: seq<Node>, keys: seq<Option<int>>, k: int)
    requires |nodes| == |keys| && Some(k) !in keys
    ensures Bucket(nodes, keys, k) == []
  {
    if nodes != [] { BucketEmpty(nodes[..|nodes| - 1], keys[..|keys| - 1], k); }
  }

  // nodeids after the first i parents.
  ghost predicate Indexed(nodes: seq<Node>, keys: seq<Option<int>>, i: nat, nodeids: map<int, seq<Node>>)
    requires i <= |nodes| == |keys|
  {
    forall k | k in nodeids :: nodeids[k] == Bucket(nodes[..i], keys[..i], k)
  }

  lemma IndexStep(nodes: seq<Node>, keys: seq<Option<int>>, i: nat, nodeids: map<int, seq<Node>>)
    requires i < |nodes| == |keys| && Indexed(nodes, keys, i, nodeids)
    requires forall k :: k in nodeids <==> Some(k) in keys[..i]
    ensures keys[i].None? ==> Indexed(nodes, keys, i + 1, nodeids)
    ensures keys[i].Some? ==>
      var k := keys[i].value;
      Indexed(nodes, keys, i + 1, nodeids[k := (if k in nodeids then nodeids[k] else []) + [nodes[i]]])
  {
    forall k { BucketStep(nodes, keys, i, k); }
    if keys[i].Some? && keys[i].value !in nodeids { BucketEmpty(nodes[..i], keys[..i], keys[i].value); }
  }

  lemma FirstKeysStep(keys: seq<Option<int>>, i: nat)
    requires i < |keys|
    ensures
      var ids := FirstKeys(keys[..i]);
      FirstKeys(keys[..i + 1])
      == if keys[i].None? || keys[i].value in ids then ids else ids + [keys[i].value]
  {
    assert keys[..i + 1][..i] == keys[..i];
  }

  lemma IndexedAll(nodes: seq<Node>, keys: seq<Option<int>>, nodeids: map<int, seq<Node>>)
    requires |nodes| == |keys| && Indexed(nodes, keys, |nodes|, nodeids)
    ensures forall k | k in nodeids :: nodeids[k] == Bucket(nodes, keys, k)
  {
    assert nodes[..|nodes|] == nodes && keys[..|nodes|] == keys;
  }

  ghost predicate SameKeys(ids: seq<int>, nodeids: map<int, seq<Node>>) {
    forall k :: k in nodeids <==> k in ids
  }

  lemma SameKeysStep(ids: seq<int>, nodeids: map<int, seq<Node>>, k: int, ns: seq<Node>)
    requires SameKeys(ids, nodeids)
    ensures SameKeys(if k in ids then ids else ids + [k], nodeids[k := ns])
    ensures k in ids <==> k in nodeids
  {
  }

  // What the collecting loop has after i parents.
  ghost predicate Collected(nodes: seq<Node>, keys: seq<Option<int>>, i: nat, ids: seq<int>, nodeids: map<int, seq<Node>>)
    requires i <= |nodes| == |keys|
  {
    ids == FirstKeys(keys[..i]) && SameKeys(ids, nodeids) && Indexed(nodes, keys, i, nodeids)
  }

  lemma CollectStep(nodes: seq<Node>, keys: seq<Option<int>>, i: nat, ids: seq<int>, nodeids: map<int, seq<Node>>)
    requires i < |nodes| == |keys| && Collected(nodes, keys, i, ids, nodeids)
    ensures keys[i].None? ==> Collected(nodes, keys, i + 1, ids, nodeids)
    ensures keys[i].Some? ==>
      var k := keys[i].value;
      && (k in ids <==> k in nodeids)
      && Collected(nodes, keys, i + 1, if k in ids then ids else ids + [k],
                   nodeids[k := (if k in nodeids then nodeids[k] else []) + [nodes[i]]])
  {
    hide Indexed; hide FirstKeys; hide Bucket; hide SameKeys;
    FirstKeysStep(keys, i);
    KeysIndexed(keys, i, ids, nodeids);
    IndexStep(nodes, keys, i, nodeids);
    if keys[i].Some? {
      var k := keys[i].value;
      SameKeysStep(ids, nodeids, k, (if k in nodeids then nodeids[k] else []) + [nodes[i]]);
    }
  }

  lemma KeysIndexed(keys: seq<Option<int>>, i: nat, ids: seq<int>, nodeids: map<int, seq<Node>>)
    requires i <= |keys| && SameKeys(ids, nodeids) && ids == FirstKeys(keys[..i])
    ensures forall k :: k in nodeids <==> Some(k) in keys[..i]
  {
  }

  // The collecting loop of a many-to-one loader.
  method Collect(nodes: seq<Node>, e: Edge) returns (ids: seq<int>, nodeids: map<int, seq<Node>>)
    ensures ids == FirstKeys(Keys(nodes, e))
    ensures forall k :: k in nodeids <==> k in ids
    ensures forall k | k in nodeids :: nodeids[k] == Bucket(nodes, Keys(nodes, e), k)
  {
    hide Collected; hide Keys; hide Bucket; hide FirstKeys;
    ids, nodeids := [], map[];
    ghost var keys := Keys(nodes, e);
    CollectNothing(nodes, keys);
    for i := 0 to |nodes|
      invariant Collected(nodes, keys, i, ids, nodeids)
    {
      CollectStep(nodes, keys, i, ids, nodeids);
      var fk := nodes[i].Key(e);
      if fk.Some? {
        if fk.value !in nodeids { ids := ids + [fk.value]; }
        nodeids := nodeids[fk.value := (if fk.value in nodeids then nodeids[fk.value] else []) + [nodes[i]]];
      }
    }
    CollectedAll(nodes, keys, ids, nodeids);
  }

  lemma CollectedAll(nodes: seq<Node>, keys: seq<Option<int>>, ids: seq<int>, nodeids: map<int, seq<Node>>)
    requires |nodes| == |keys| && Collected(nodes, keys, |nodes|, ids, nodeids)
    ensures ids == FirstKeys(keys)
    ensures forall k :: k in nodeids <==> k in ids
    ensures forall k | k in nodeids :: nodeids[k] == Bucket(nodes, keys, k)
  {
    hide Indexed; hide FirstKeys; hide Bucket;
    assert keys[..|nodes|] == keys;
    IndexedAll(nodes, keys, nodeids);
  }

  lemma CollectNothing(nodes: seq<Node>, keys: seq<Option<int>>)
    requires |nodes| == |keys|
    ensures Collected(nodes, keys, 0, [], map[])
  {
  }

  // The last neighbour with the given id.
  function LastWith(nbrs: seq<Node>, id: int): (n: Option<Node>)
    ensures n.Some? ==> n.value in nbrs && n.value.id == id
    ensures n.None? ==> forall m | m in nbrs :: m.id != id
  {
    if nbrs == [] then None
    else if nbrs[|nbrs| - 1].id == id then Some(nbrs[|nbrs| - 1])
    else LastWith(nbrs[..|nbrs| - 1], id)
  }

  function Assigned(one: map<string, Node>, name: string, nbrs: seq<Node>, key: Option<int>): map<string, Node> {
    var n := if key.None? then None else LastWith(nbrs, key.value);
    if n.None? then one else one[name := n.value]
  }

  lemma AssignedKeeps(one: map<string, Node>, name: string, nbrs: seq<Node>, key: Option<int>)
    ensures Assigned(one, name, nbrs, key) - {name} == one - {name}
  {
    hide LastWith;
  }

  lemma AssignedStep(one: map<string, Node>, name: string, nbrs: seq<Node>, j: nat, key: Option<int>)
    requires j < |nbrs|
    ensures
      var before := Assigned(one, name, nbrs[..j], key);
      Assigned(one, name, nbrs[..j + 1], key)
      == if key == Some(nbrs[j].id) then before[name := nbrs[j]] else before
  {
    assert nbrs[..j + 1][..j] == nbrs[..j];
  }

  method AssignAll(bucket: seq<Node>, name: string, n: Node)
    modifies (set b | b in bucket)`one
    ensures forall b | b in bucket :: b.one == old(b.one)[name := n]
  {
    for i := 0 to |bucket|
      invariant forall b | b in bucket[..i] :: b.one == old(b.one)[name := n]
      invariant forall b | b in bucket && b !in bucket[..i] :: b.one == old(b.one)
    {
      bucket[i].one := bucket[i].one[name := n];
    }
    assert bucket[..|bucket|] == bucket;
  }

  lemma InBucket(nodes: seq<Node>, keys: seq<Option<int>>, k: int, i: nat)
    requires i < |nodes| == |keys| && Distinct(nodes)
    ensures nodes[i] in Bucket(nodes, keys, k) <==> keys[i] == Some(k)
  {
  }

  lemma AssignedNone(one: map<string, Node>, name: string, key: Option<int>)
    ensures Assigned(one, name, [], key) == one
  {
  }

  // The scattering loop of a many-to-one loader. It fails exactly when a neighbour's id was
  // not asked for; otherwise every parent holding a key points to the same neighbour, and
  // parents with a nil or unmatched key are untouched.
  method ScatterOne(nodes: seq<Node>, ghost keys: seq<Option<int>>, nodeids: map<int, seq<Node>>,
                    nbrs: seq<Node>, name: string)
    returns (failed: bool)
    requires |nodes| == |keys| && Distinct(nodes)
    requires forall k :: k in nodeids <==> Some(k) in keys
    requires forall k | k in nodeids :: nodeids[k] == Bucket(nodes, keys, k)
    modifies (set n | n in nodes)`one
    ensures failed <==> exists n | n in nbrs :: Some(n.id) !in keys
    ensures !failed ==> forall i | 0 <= i < |nodes| :: nodes[i].one == Assigned(old(nodes[i].one), name, nbrs, keys[i])
  {
    hide Assigned; hide Bucket;
    forall i | 0 <= i < |nodes| ensures nodes[i].one == Assigned(nodes[i].one, name, nbrs[..0], keys[i]) {
      AssignedNone(nodes[i].one, name, keys[i]);
    }
    for j := 0 to |nbrs|
      invariant forall n | n in nbrs[..j] :: Some(n.id) in keys
      invariant forall i | 0 <= i < |nodes| :: nodes[i].one == Assigned(old(nodes[i].one), name, nbrs[..j], keys[i])
    {
      var n := nbrs[j];
      if n.id !in nodeids { return true; }
      label before:
      AssignAll(nodeids[n.id], name, n);
      forall i | 0 <= i < |nodes|
        ensures nodes[i].one == Assigned(old(nodes[i].one), name, nbrs[..j + 1], keys[i])
      {
        AssignedStep(old(nodes[i].one), name, nbrs, j, keys[i]);
        InBucket(nodes, keys, n.id, i);
        assert nodes[i] !in nodeids[n.id] ==> nodes[i].one == old@before(nodes[i].one);
      }
    }
    assert nbrs[..|nbrs|] == nbrs;
    failed := false;
  }

  // ----- One-to-many -----

  function Ids(nodes: seq<Node>): (ids: seq<int>)
    ensures |ids| == |nodes| && forall i | 0 <= i < |nodes| :: ids[i] == nodes[i].id
  {
    seq(|nodes|, i requires 0 <= i < |nodes| => nodes[i].id)
  }

  // The node that receives the children of its id: the last parent with that id.
  predicate Receives(nodes: seq<Node>, n: Node) {
    LastWith(nodes, n.id) == Some(n)
  }

  // The neighbours whose foreign key is id, in order.
  function Matching(nbrs: seq<Node>, e: Edge, id: int): (ms: seq<Node>)
    ensures forall n | n in ms :: n in nbrs && n.Key(e) == Some(id)
    ensures forall n | n in nbrs :: n.Key(e) == Some(id) ==> n in ms
  {
    if nbrs == [] then []
    else
      var last := nbrs[|nbrs| - 1];
      Matching(nbrs[..|nbrs| - 1], e, id) + if last.Key(e) == Some(id) then [last] else []
  }

  // The collecting loop of a one-to-many loader, with its init callback.
  method CollectIds(nodes: seq<Node>, name: string) returns (fks: seq<int>, nodeids: map<int, Node>)
    modifies (set n | n in nodes)`many
    ensures fks == Ids(nodes)
    ensures forall k :: k in nodeids <==> k in fks
    ensures forall k | k in nodeids :: LastWith(nodes, k) == Some(nodeids[k])
    ensures forall n | n in nodes :: n.many == old(n.many)[name := []]
  {
    fks, nodeids := [], map[];
    for i := 0 to |nodes|
      invariant fks == Ids(nodes[..i])
      invariant forall k :: k in nodeids <==> k in fks
      invariant forall k | k in nodeids :: LastWith(nodes[..i], k) == Some(nodeids[k])
      invariant forall n | n in nodes :: n.many == if n in nodes[..i] then old(n.many)[name := []] else old(n.many)
    {
      assert nodes[..i + 1][..i] == nodes[..i];
      fks := fks + [nodes[i].id];
      nodeids := nodeids[nodes[i].id := nodes[i]];
      nodes[i].many := nodes[i].many[name := []];
    }
    assert nodes[..|nodes|] == nodes;
  }

  ghost predicate Expected(e: Edge, n: Node, nodeids: map<int, Node>) {
    n.Key(e).Some? && n.Key(e).value in nodeids
  }

  lemma MatchingStep(nbrs: seq<Node>, e: Edge, j: nat, id: int)
    requires j < |nbrs|
    ensures Matching(nbrs[..j + 1], e, id)
         == Matching(nbrs[..j], e, id) + if nbrs[j].Key(e) == Some(id) then [nbrs[j]] else []
  {
    assert nbrs[..j + 1][..j] == nbrs[..j];
  }

  // The edge list of parent n after the given neighbours.
  function Appended(was: seq<Node>, nodes: seq<Node>, n: Node, nbrs: seq<Node>, e: Edge): seq<Node> {
    if Receives(nodes, n) then was + Matching(nbrs, e, n.id) else was
  }

  // The scattering loop of a one-to-many loader. It fails exactly when a neighbour's key is
  // nil or was not asked for; otherwise every parent's list is extended by the neighbours
  // with its id in the order they came, except that of parents with the same id only the
  // last one receives them.
  method ScatterMany(nodes: seq<Node>, nodeids: map<int, Node>, nbrs: seq<Node>, e: Edge) returns (failed: bool)
    requires forall k :: k in nodeids <==> k in Ids(nodes)
    requires forall k | k in nodeids :: LastWith(nodes, k) == Some(nodeids[k])
    requires forall n | n in nodes :: e.name in n.many
    modifies (set n | n in nodes)`many
    ensures failed <==> exists n | n in nbrs :: !Expected(e, n, nodeids)
    ensures !failed ==> forall n | n in nodes ::
              n.many == old(n.many)[e.name := Appended(old(n.many)[e.name], nodes, n, nbrs, e)]
  {
    hide Matching; hide Appended;
    assert nbrs[..0] == [];
    forall n | n in nodes { AppendedNone(n.many, nodes, n, e); }
    for j := 0 to |nbrs|
      invariant forall n | n in nbrs[..j] :: Expected(e, n, nodeids)
      invariant forall n | n in nodes :: e.name in n.many
      invariant forall n | n in nodes ::
                  n.many == old(n.many)[e.name := Appended(old(n.many)[e.name], nodes, n, nbrs[..j], e)]
    {
      var n := nbrs[j];
      var fk := n.Key(e);
      if fk.None? || fk.value !in nodeids {
        assert n in nbrs && !Expected(e, n, nodeids);
        return true;
      }
      var node := nodeids[fk.value];
      assert LastWith(nodes, fk.value) == Some(node);
      label before:
      node.many := node.many[e.name := node.many[e.name] + [n]];
      forall p | p in nodes
        ensures p.many == old(p.many)[e.name := Appended(old(p.many)[e.name], nodes, p, nbrs[..j + 1], e)]
      {
        AppendedStep(old(p.many)[e.name], nodes, p, nbrs, j, e);
        assert p == node <==> Receives(nodes, p) && p.id == fk.value;
        var was := Appended(old(p.many)[e.name], nodes, p, nbrs[..j], e);
        assert old@before(p.many) == old(p.many)[e.name := was] && was + [] == was;
        assert p.many == old@before(p.many)[e.name := was + if p == node then [n] else []];
      }
    }
    assert nbrs[..|nbrs|] == nbrs;
    failed := false;
  }

  lemma AppendedNone(many: map<string, seq<Node>>, nodes: seq<Node>, n: Node, e: Edge)
    requires e.name in many
    ensures many[e.name := Appended(many[e.name], nodes, n, [], e)] == many
  {
    assert many[e.name] + [] == many[e.name];
  }

  lemma AppendedStep(was: seq<Node>, nodes: seq<Node>, n: Node, nbrs: seq<Node>, j: nat, e: Edge)
    requires j < |nbrs|
    ensures Appended(was, nodes, n, nbrs[..j + 1], e)
         == Appended(was, nodes, n, nbrs[..j], e)
            + if Receives(nodes, n) && nbrs[j].Key(e) == Some(n.id) then [nbrs[j]] else []
  {
    MatchingStep(nbrs, e, j, n.id);
  }
}
