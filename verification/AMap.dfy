/** `amap`: a map kept as an `alist` of key-value pairs, refining a finite map. */
module Maps {
  import opened Lists

  datatype KeyVal<K, V> = KeyVal(key: K, val: V)

  /** `keyval::operator==` looks at the keys only. */
  predicate SameKey<K(==), V>(a: KeyVal<K, V>, b: KeyVal<K, V>) { a.key == b.key }

  ghost predicate DistinctKeys<K, V>(s: seq<KeyVal<K, V>>) {
    forall i, j :: 0 <= i < j < |s| ==> s[i].key != s[j].key
  }

  /** The map a list of pairs stands for. */
  function MapOf<K, V>(s: seq<KeyVal<K, V>>): map<K, V> {
    if s == [] then map[] else MapOf(s[..|s| - 1])[s[|s| - 1].key := s[|s| - 1].val]
  }

  /** With distinct keys every pair counts, wherever it stands. */
  lemma {:induction false} MapOfPairs<K, V>(s: seq<KeyVal<K, V>>)
    requires DistinctKeys(s)
    ensures forall i :: 0 <= i < |s| ==> s[i].key in MapOf(s) && MapOf(s)[s[i].key] == s[i].val
    ensures forall k :: k in MapOf(s) ==> exists i :: 0 <= i < |s| && s[i].key == k
    ensures |MapOf(s)| == |s|
  {
    if s != [] {
      var init, last := s[..|s| - 1], s[|s| - 1];
      MapOfPairs(init);
      assert last.key !in MapOf(init);
      forall k | k in MapOf(s) ensures exists i :: 0 <= i < |s| && s[i].key == k {
        if k == last.key {
          assert s[|s| - 1].key == k;
        } else {
          var i :| 0 <= i < |init| && init[i].key == k;
          assert s[i].key == k;
        }
      }
      forall i | 0 <= i < |s| ensures s[i].key in MapOf(s) && MapOf(s)[s[i].key] == s[i].val {
        if i < |init| { assert init[i] == s[i]; }
      }
    }
  }

  lemma MapOfAppend<K, V>(s: seq<KeyVal<K, V>>, e: KeyVal<K, V>)
    requires DistinctKeys(s) && forall i :: 0 <= i < |s| ==> s[i].key != e.key
    ensures DistinctKeys(s + [e]) && e.key !in MapOf(s) && MapOf(s + [e]) == MapOf(s)[e.key := e.val]
  {
    MapOfPairs(s);
    assert (s + [e])[..|s|] == s;
  }

  /** Overwriting a value in place updates the map at that key. */
  lemma MapOfUpdate<K, V>(s: seq<KeyVal<K, V>>, s': seq<KeyVal<K, V>>, k: nat)
    requires k < |s| == |s'| && DistinctKeys(s)
    requires s'[k].key == s[k].key && forall i :: 0 <= i < |s| && i != k ==> s'[i] == s[i]
    ensures DistinctKeys(s') && MapOf(s') == MapOf(s)[s[k].key := s'[k].val]
  {
    MapOfPairs(s);
    MapOfPairs(s');
    var m, m' := MapOf(s)[s[k].key := s'[k].val], MapOf(s');
    forall x | x in m ensures x in m' && m'[x] == m[x] {
      var i :| 0 <= i < |s| && s[i].key == x;
      assert s'[i].key == x;
    }
    forall x | x in m' ensures x in m {
      var i :| 0 <= i < |s'| && s'[i].key == x;
      assert s[i].key == x;
    }
  }

  class AMap<K(==), V> {
    const pairs: AList<KeyVal<K, V>>
    const zero: V  // the value type's default

    ghost predicate Valid()
      reads this, pairs, pairs.nodes
    {
      pairs.Valid() && DistinctKeys(pairs.Contents())
    }

    ghost function Model(): map<K, V>
      reads this, pairs, pairs.nodes
    {
      MapOf(pairs.Contents())
    }

    constructor (zero: V)
      ensures Valid() && Model() == map[] && fresh(pairs) && pairs.nodes == [] && this.zero == zero
    {
      this.zero := zero;
      pairs := new AList();
    }

    /** `operator[]`: the place of the key, which is appended with the default value if missing. */
    method Slot(key: K) returns (nd: Node<KeyVal<K, V>>, ghost k: nat)
      requires Valid()
      modifies pairs, pairs.nodes
      ensures Valid() && k < |pairs.nodes| && pairs.nodes[k] == nd && nd.elem.key == key
      ensures Model() == if key in old(Model()) then old(Model()) else old(Model())[key := zero]
      ensures nd.elem.val == Model()[key]
      ensures key in old(Model()) ==> unchanged(pairs) && unchanged(pairs.nodes)
      ensures forall i :: 0 <= i < |pairs.nodes| ==> pairs.nodes[i] in old(pairs.nodes) || fresh(pairs.nodes[i])
    {
      var iter;
      iter, k := pairs.Find(KeyVal(key, zero), SameKey);
      if iter == null {
        MapOfAppend(pairs.Contents(), KeyVal(key, zero));
        nd := pairs.Append(KeyVal(key, zero));
      } else {
        nd := iter;
        MapOfPairs(pairs.Contents());
        assert pairs.Contents()[k] == nd.elem;
      }
    }

    method Contains(key: K) returns (b: bool)
      requires Valid()
      ensures b <==> key in Model()
    {
      MapOfPairs(pairs.Contents());
      var iter, k := pairs.Find(KeyVal(key, zero), SameKey);
      b := iter != null;
      assert b ==> pairs.Contents()[k] == iter.elem;
    }

    /** `m[key] = val`. */
    method Put(key: K, val: V)
      requires Valid()
      modifies pairs, pairs.nodes
      ensures Valid() && Model() == old(Model())[key := val]
      ensures forall i :: 0 <= i < |pairs.nodes| ==> pairs.nodes[i] in old(pairs.nodes) || fresh(pairs.nodes[i])
    {
      var nd, k := Slot(key);
      Overwrite(nd, k, val);
    }

    /** Writes through the reference that `operator[]` returned. */
    method Overwrite(nd: Node<KeyVal<K, V>>, ghost k: nat, val: V)
      requires Valid() && k < |pairs.nodes| && pairs.nodes[k] == nd
      modifies nd`elem
      ensures Valid() && Model() == old(Model())[old(nd.elem.key) := val]
    {
      ghost var was := pairs.Contents();
      nd.elem := KeyVal(nd.elem.key, val);
      assert pairs.Valid();
      MapOfUpdate(was, pairs.Contents(), k);
    }
  }
}
