/**
 * Python's dict with string keys, as the client uses it: an insertion-ordered collection of
 * (key, value) items with distinct keys. Assigning to a present key keeps
 * its position; assigning to a new key appends it; `del` removes the item.
 */
module Dicts {

  import opened Results

  /** The keys of `es`, in item order (Python's list(d.keys())). */
  function Keys<V>(es: seq<(string, V)>): (r: seq<string>)
    ensures |r| == |es|
    ensures forall i {:trigger r[i]} :: 0 <= i < |es| ==> r[i] == es[i].0
  {
    if es == [] then [] else [es[0].0] + Keys(es[1..])
  }

  /** No key occurs twice: what makes a sequence of items a dict. */
  predicate DistinctKeys<V>(es: seq<(string, V)>)
  {
    forall i, j :: 0 <= i < j < |es| ==> es[i].0 != es[j].0
  }

  /** d.get(k): the value stored under `k`, or None. */
  function Lookup<V>(es: seq<(string, V)>, k: string): (r: Option<V>)
    ensures r.Some? <==> k in Keys(es)
    ensures r.Some? ==> (k, r.value) in es
  {
    if es == [] then None
    else if es[0].0 == k then Some(es[0].1)
    else Lookup(es[1..], k)
  }

  /** d[k] = v. */
  function Put<V>(es: seq<(string, V)>, k: string, v: V): seq<(string, V)>
  {
    if es == [] then [(k, v)]
    else if es[0].0 == k then [(k, v)] + es[1..]
    else [es[0]] + Put(es[1..], k, v)
  }

  /** Assigning keeps the key order, appends a new key at the end, and
      stores the value under the key. */
  lemma {:induction false} PutSpec<V>(es: seq<(string, V)>, k: string, v: V)
    ensures Keys(Put(es, k, v)) == if k in Keys(es) then Keys(es) else Keys(es) + [k]
    ensures Lookup(Put(es, k, v), k) == Some(v)
  {
    if es != [] && es[0].0 != k {
      PutSpec(es[1..], k, v);
      assert Keys(es) == [es[0].0] + Keys(es[1..]);
    }
  }

  /** del d[k] (only ever applied to a present key). */
  function Remove<V>(es: seq<(string, V)>, k: string): (r: seq<(string, V)>)
  {
    if es == [] then []
    else if es[0].0 == k then es[1..]
    else [es[0]] + Remove(es[1..], k)
  }

  /** A dict literal {k1: v1, k2: v2, ...}: the items are assigned in order,
      so a repeated key keeps its first position and its last value. */
  function FromPairs<V>(ps: seq<(string, V)>): (r: seq<(string, V)>)
    ensures DistinctKeys(r)
  {
    if ps == [] then [] else
      var init := FromPairs(ps[..|ps| - 1]);
      PutKeepsDistinct(init, ps[|ps| - 1].0, ps[|ps| - 1].1);
      Put(init, ps[|ps| - 1].0, ps[|ps| - 1].1)
  }

  lemma {:induction false} KeysAppend<V>(a: seq<(string, V)>, b: seq<(string, V)>)
    ensures Keys(a + b) == Keys(a) + Keys(b)
  {
  }

  /** Assigning never introduces a repeated key. */
  lemma {:induction false} PutKeepsDistinct<V>(es: seq<(string, V)>, k: string, v: V)
    requires DistinctKeys(es)
    ensures DistinctKeys(Put(es, k, v))
  {
    var r := Put(es, k, v);
    PutSpec(es, k, v);
    forall i, j | 0 <= i < j < |r| ensures r[i].0 != r[j].0 {
      assert Keys(r)[i] == r[i].0 && Keys(r)[j] == r[j].0;
      if k !in Keys(es) && j == |es| {
        assert Keys(r)[i] == Keys(es)[i];
      } else {
        assert Keys(r)[i] == Keys(es)[i] && Keys(r)[j] == Keys(es)[j];
      }
    }
  }

  /** Assigning to a key that is not there appends the item at the end. */
  lemma {:induction false} PutAbsentAppends<V>(es: seq<(string, V)>, k: string, v: V)
    requires k !in Keys(es)
    ensures Put(es, k, v) == es + [(k, v)]
  {
    if es != [] {
      assert Keys(es)[0] == es[0].0;
      assert k !in Keys(es[1..]) by {
        forall i | 0 <= i < |es| - 1 ensures Keys(es[1..])[i] != k { assert Keys(es[1..])[i] == Keys(es)[i + 1]; }
      }
      PutAbsentAppends(es[1..], k, v);
      assert [es[0]] + (es[1..] + [(k, v)]) == es + [(k, v)];
    }
  }

  /** Assigning to one key leaves what every other key maps to. */
  lemma {:induction false} PutOthers<V>(es: seq<(string, V)>, k: string, v: V, k': string)
    requires k' != k
    ensures Lookup(Put(es, k, v), k') == Lookup(es, k')
  {
    if es != [] && es[0].0 != k {
      PutOthers(es[1..], k, v, k');
    }
  }

  /** Deleting the item of a key found nowhere before it leaves the items
      before and after it, in order. */
  lemma {:induction false} RemoveAt<V>(a: seq<(string, V)>, e: (string, V), b: seq<(string, V)>)
    requires e.0 !in Keys(a)
    ensures Remove(a + [e] + b, e.0) == a + b
  {
    if a == [] {
      assert a + [e] + b == [e] + b;
    } else {
      assert Keys(a) == [a[0].0] + Keys(a[1..]);
      RemoveAt(a[1..], e, b);
      assert (a + [e] + b)[1..] == a[1..] + [e] + b;
      assert [a[0]] + (a[1..] + b) == a + b;
    }
  }

  /** Looking up a key found nowhere before its item finds that item's value. */
  lemma {:induction false} LookupAt<V>(a: seq<(string, V)>, e: (string, V), b: seq<(string, V)>)
    requires e.0 !in Keys(a)
    ensures Lookup(a + [e] + b, e.0) == Some(e.1)
  {
    if a == [] {
      assert a + [e] + b == [e] + b;
    } else {
      assert Keys(a) == [a[0].0] + Keys(a[1..]);
      LookupAt(a[1..], e, b);
      assert (a + [e] + b)[1..] == a[1..] + [e] + b;
    }
  }

  /** The first item carrying key `k` splits the items in three. */
  lemma {:induction false} SplitAtKey<V>(es: seq<(string, V)>, k: string)
    returns (a: seq<(string, V)>, e: (string, V), b: seq<(string, V)>)
    requires k in Keys(es)
    ensures es == a + [e] + b && e.0 == k && k !in Keys(a)
  {
    assert Keys(es)[0] == es[0].0;
    if es[0].0 == k {
      a, e, b := [], es[0], es[1..];
    } else {
      assert k in Keys(es[1..]) by {
        var i :| 0 <= i < |es| && Keys(es)[i] == k;
        assert Keys(es[1..])[i - 1] == k;
      }
      var a', e', b' := SplitAtKey(es[1..], k);
      a, e, b := [es[0]] + a', e', b';
      assert Keys(a) == [es[0].0] + Keys(a');
    }
  }

  /** In a dict, every item is what its key looks up. */
  lemma LookupMember<V>(es: seq<(string, V)>, e: (string, V))
    requires DistinctKeys(es) && e in es
    ensures Lookup(es, e.0) == Some(e.1)
  {
    var n :| 0 <= n < |es| && es[n] == e;
    var a, b := es[..n], es[n + 1..];
    assert es == a + [e] + b;
    assert e.0 !in Keys(a) by {
      forall i | 0 <= i < n ensures Keys(a)[i] != e.0 {
        assert a[i] == es[i];
      }
    }
    LookupAt(a, e, b);
  }

  /** Deleting an item keeps the keys distinct. */
  lemma RemoveKeepsDistinct<V>(a: seq<(string, V)>, e: (string, V), b: seq<(string, V)>)
    requires DistinctKeys(a + [e] + b)
    ensures DistinctKeys(a + b)
  {
    var s, r := a + [e] + b, a + b;
    forall p, q | 0 <= p < q < |r| ensures r[p].0 != r[q].0 {
      var p', q' := if p < |a| then p else p + 1, if q < |a| then q else q + 1;
      assert r[p] == s[p'] && r[q] == s[q'];
    }
  }

  /** A literal whose keys are distinct is the dict of its items, in order. */
  lemma {:induction false} FromDistinctPairs<V>(ps: seq<(string, V)>)
    requires DistinctKeys(ps)
    ensures FromPairs(ps) == ps
  {
    if ps != [] {
      var init, last := ps[..|ps| - 1], ps[|ps| - 1];
      assert ps == init + [last];
      FromDistinctPairs(init);
      assert last.0 !in Keys(init) by {
        forall i | 0 <= i < |init| ensures Keys(init)[i] != last.0 {
          assert ps[i].0 != ps[|ps| - 1].0;
        }
      }
      PutAbsentAppends(init, last.0, last.1);
    }
  }

  /** A Python dict object whose items the client changes in place. */
  class Dict<V> {
    var items: seq<(string, V)>

    ghost predicate Valid()
      reads this
    {
      DistinctKeys(items)
    }

    /** Evaluates a dict literal into a new dict object. */
    constructor (literal: seq<(string, V)>)
      ensures Valid() && items == FromPairs(literal)
    {
      items := FromPairs(literal);
    }

    /** list(d.keys()): a snapshot of the keys in their order. */
    method KeyList() returns (ks: seq<string>)
      ensures ks == Keys(items)
    {
      ks := Keys(items);
    }

    /** d[k] for a key that is present (Python raises KeyError otherwise). */
    method Get(k: string) returns (v: V)
      requires k in Keys(items)
      ensures Lookup(items, k) == Some(v)
    {
      v := Lookup(items, k).value;
    }

    /** del d[k] for a key that is present (Python raises KeyError otherwise). */
    method Delete(k: string)
      requires Valid() && k in Keys(items)
      modifies this
      ensures Valid() && items == Remove(old(items), k)
    {
      ghost var a, e, b := SplitAtKey(items, k);
      RemoveAt(a, e, b);
      RemoveKeepsDistinct(a, e, b);
      items := Remove(items, k);
    }

    /** d[k] = v. */
    method Set(k: string, v: V)
      requires Valid()
      modifies this
      ensures Valid() && items == Put(old(items), k, v)
    {
      PutKeepsDistinct(items, k, v);
      items := Put(items, k, v);
    }
  }
}
