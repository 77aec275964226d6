/**
  The size of a string map the way the API server accounts for annotations: keys and values,
  summed over an unordered map.
 */
module Bytes {

  function EntryBytes(k: string, v: string): nat { |k| + |v| }

  ghost function MapBytes(m: map<string, string>): nat
  {
    if m == map[] then 0
    else
      var k :| k in m;
      EntryBytes(k, m[k]) + MapBytes(m - {k})
  }

  /** The sum does not depend on the order in which entries are visited. */
  lemma {:induction false} MapBytesTake(m: map<string, string>, k: string)
    requires k in m
    ensures MapBytes(m) == EntryBytes(k, m[k]) + MapBytes(m - {k})
    decreases |m|
  {
    var c :| c in m && MapBytes(m) == EntryBytes(c, m[c]) + MapBytes(m - {c});
    if c != k {
      MapBytesTake(m - {c}, k);
      MapBytesTake(m - {k}, c);
      assert (m - {c}) - {k} == (m - {k}) - {c};
    }
  }

  /** Writing one entry adds its bytes and gives back those of the entry it replaces. */
  lemma MapBytesSet(m: map<string, string>, k: string, v: string)
    ensures MapBytes(m[k := v]) + (if k in m then EntryBytes(k, m[k]) else 0)
            == MapBytes(m) + EntryBytes(k, v)
  {
    MapBytesTake(m[k := v], k);
    assert m[k := v] - {k} == m - {k};
    if k in m {
      MapBytesTake(m, k);
    } else {
      assert m - {k} == m;
    }
  }

  /** Go's `for k, v := range m` in an arbitrary order. */
  method SumBytes(m: map<string, string>) returns (total: nat)
    ensures total == MapBytes(m)
  {
    total := 0;
    var todo := m;
    while todo != map[]
      invariant total + MapBytes(todo) == MapBytes(m)
      decreases |todo|
    {
      var k :| k in todo;
      MapBytesTake(todo, k);
      total := total + EntryBytes(k, todo[k]);
      todo := todo - {k};
    }
  }
}
