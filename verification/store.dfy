/**
 * The two MongoDB collections as maps from id to record, plus a counter that
 * stands in for ObjectId generation: every id minted is `next`, and `next`
 * then moves past it, so a minted id is never one already in use.
 */
module Db {
  import opened Results
  import opened Schema

  datatype Store = Store(cats: map<Id, Category>, txs: map<Id, Transaction>, next: Id)

  /** A handler's answer together with the store it leaves behind. */
  datatype Step<+T> = Step(resp: Response<T>, store: Store)

  /**
   * The store invariant the id generator maintains: each record is filed
   * under its own id, and every id in use, including every category
   * reference held by a transaction, was minted before `next`.
   * Nothing here says that references resolve or that records obey the
   * schema: neither holds in general.
   */
  ghost predicate Valid(s: Store) {
    && (forall k :: k in s.cats ==> k < s.next && s.cats[k].id == k)
    && (forall k :: k in s.txs ==> k < s.next && s.txs[k].id == k && s.txs[k].category < s.next)
  }

  const Empty: Store := Store(map[], map[], 0)

  lemma EmptyIsValid()
    ensures Valid(Empty)
  {
  }

  /** The counter never hands out an id already present in either collection. */
  lemma NextIsFresh(s: Store)
    requires Valid(s)
    ensures s.next !in s.cats && s.next !in s.txs
    ensures forall k :: k in s.txs ==> s.txs[k].category != s.next
  {
  }

  /** Inserting a new key grows a map's key set, and its size, by one. */
  lemma KeysAfterInsert<K, V>(m: map<K, V>, k: K, m': map<K, V>)
    requires k !in m
    requires k in m' && m' == m[k := m'[k]]
    ensures m'.Keys == m.Keys + {k}
    ensures |m'| == |m| + 1
  {
    assert m'.Keys == m.Keys + {k};
    assert |m'.Keys| == |m.Keys| + 1;
  }

  /** A fresh key holding a value not yet stored adds that value to the values once. */
  lemma ValuesAfterInsert<K, V>(m: map<K, V>, k: K, v: V)
    requires k !in m && v !in m.Values
    ensures multiset(m[k := v].Values) == multiset(m.Values) + multiset{v}
  {
    var m' := m[k := v];
    assert m'.Values == m.Values + {v} by {
      forall x | x in m'.Values
        ensures x in m.Values + {v}
      {
        var j :| j in m' && m'[j] == x;
        if j != k {
          assert m[j] == x;
        }
      }
      forall x | x in m.Values
        ensures x in m'.Values
      {
        var j :| j in m && m[j] == x;
        assert m'[j] == x;
      }
      assert m'[k] == v;
    }
  }

  /** Removing a key whose value no other key holds removes that value from the values once. */
  lemma ValuesAfterRemove<K, V>(m: map<K, V>, k: K)
    requires k in m
    requires forall j :: j in m && j != k ==> m[j] != m[k]
    ensures multiset((m - {k}).Values) == multiset(m.Values) - multiset{m[k]}
  {
    var m' := m - {k};
    assert m'.Values == m.Values - {m[k]} by {
      forall x | x in m.Values && x != m[k]
        ensures x in m'.Values
      {
        var j :| j in m && m[j] == x;
        assert m'[j] == x;
      }
    }
  }
}
