/** A node's store: the frames it holds, and the keys it knows to be held by other nodes. */
module KVStores {
  import opened Bytes
  import opened Frames
  import opened Protocol
  import opened Wrappers

  /** A key and the node it lives on; keys are found by their names alone. */
  datatype Key = Key(name: Str, node: NodeId)

  /** No two keys of a hash set have the same name. */
  ghost predicate Distinct(keys: set<Key>) {
    forall k, l | k in keys && l in keys :: k.name == l.name ==> k == l
  }

  ghost function Names(keys: set<Key>): (names: set<Str>)
    ensures forall name :: name in names <==> exists k :: k in keys && k.name == name
  {
    set k | k in keys :: k.name
  }

  ghost function NodeOf(keys: set<Key>, name: Str): (node: NodeId)
    requires Distinct(keys) && name in Names(keys)
    ensures forall k | k in keys && k.name == name :: k.node == node
  {
    var k :| k in keys && k.name == name;
    k.node
  }

  /** The node recorded for each name. */
  ghost function Index(keys: set<Key>): (index: map<Str, NodeId>)
    requires Distinct(keys)
    ensures index.Keys == Names(keys)
    ensures forall k | k in keys :: index[k.name] == k.node
  {
    map name | name in Names(keys) :: NodeOf(keys, name)
  }

  lemma IndexWith(keys: set<Key>, key: Key)
    requires Distinct(keys) && forall k | k in keys :: k.name != key.name
    ensures Distinct(keys + {key})
    ensures Index(keys + {key}) == Learned(Index(keys), key.name, key.node)
  {
  }

  lemma IndexMoved(keys: set<Key>, known: Key, key: Key)
    requires Distinct(keys) && known in keys && known.name == key.name
    ensures Distinct(keys - {known} + {key})
    ensures Index(keys - {known} + {key}) == Learned(Index(keys), key.name, key.node)
  {
    var less := keys - {known};
    IndexWith(less, key);
    IndexWith(less, known);
    assert less + {known} == keys;
    assert Learned(Index(less), key.name, key.node)
        == Learned(Learned(Index(less), known.name, known.node), key.name, key.node);
  }

  /** Where `get` has to look for a key. */
  datatype Place = Here(value: Frame) | There(node: NodeId) | Nowhere

  class KVStore {
    var localMap: Store
    var otherNodes: set<Key>

    ghost predicate Valid()
      reads this
    {
      Distinct(otherNodes)
    }

    ghost function Others(): map<Str, NodeId>
      requires Valid()
      reads this
    {
      Index(otherNodes)
    }

    constructor ()
      ensures Valid() && localMap == map[] && Others() == map[]
    {
      localMap, otherNodes := map[], {};
    }

    method GetLocal(key: Str) returns (value: Option<Frame>)
      ensures value == Lookup(localMap, key)
    {
      if key in localMap {
        return Some(localMap[key]);
      }
      return None;
    }

    method FindOther(key: Str) returns (found: Option<Key>)
      requires Valid()
      ensures found.Some? <==> key in Others()
      ensures found.Some? ==> found.value in otherNodes && found.value.name == key && Others()[key] == found.value.node
    {
      var rest := otherNodes;
      while rest != {}
        invariant rest <= otherNodes && forall k | k in otherNodes - rest :: k.name != key
        decreases |rest|
      {
        var k :| k in rest;
        if k.name == key {
          return Some(k);
        }
        rest := rest - {k};
      }
      return None;
    }

    /** The first half of `get`: a local value wins over a remote one. */
    method Locate(key: Str) returns (place: Place)
      requires Valid()
      ensures place == if key in localMap then Here(localMap[key])
                       else if key in Others() then There(Others()[key])
                       else Nowhere
    {
      var here := GetLocal(key);
      if here.Some? {
        return Here(here.value);
      }
      var other := FindOther(key);
      return if other.Some? then There(other.value.node) else Nowhere;
    }

    /** The assertion of `set` is its precondition: the key is not known to be remote. */
    method Set(key: Str, value: Frame)
      requires Valid() && key !in Others()
      modifies this`localMap
      ensures localMap == old(localMap)[key := value]
    {
      localMap := localMap[key := value];
    }

    /** Records a remote key, or the new node of one that is recorded. */
    method AddNonlocal(key: Key)
      requires Valid()
      modifies this`otherNodes
      ensures Valid() && Others() == old(Others())[key.name := key.node]
    {
      var found := FindOther(key.name);
      if found.Some? {
        IndexMoved(otherNodes, found.value, key);
        otherNodes := otherNodes - {found.value} + {key};
      } else {
        assert forall k | k in otherNodes :: k.name in Others();
        IndexWith(otherNodes, key);
        otherNodes := otherNodes + {key};
      }
    }

    method GetLocalKeys() returns (keys: set<Str>)
      ensures keys == localMap.Keys
    {
      keys := {};
      var rest := localMap.Keys;
      while rest != {}
        invariant rest <= localMap.Keys && keys == localMap.Keys - rest
        decreases |rest|
      {
        var name :| name in rest;
        keys, rest := keys + {name}, rest - {name};
      }
    }
  }
}
