/**
  Listing shims: each kind sorted by name.  An insertion sort stands for `sort.Slice`; with
  distinct names every sort gives the same list.
 */
module Listing {
  import opened Text
  import opened Specs

  predicate SortedByName(s: seq<Shim>)
  {
    forall i, j :: 0 <= i < j < |s| ==> !Less(s[j].id.name, s[i].id.name)
  }

  predicate NamesDistinct(s: seq<Shim>)
  {
    forall i, j :: 0 <= i < j < |s| ==> s[i].id.name != s[j].id.name
  }

  function InsertByName(x: Shim, s: seq<Shim>): seq<Shim>
  {
    if s == [] then [x]
    else if Less(s[0].id.name, x.id.name) then [s[0]] + InsertByName(x, s[1..])
    else [x] + s
  }

  function SortByName(s: seq<Shim>): seq<Shim>
  {
    if s == [] then [] else InsertByName(s[0], SortByName(s[1..]))
  }

  lemma {:induction false} InsertMultiset(x: Shim, s: seq<Shim>)
    ensures multiset(InsertByName(x, s)) == multiset(s) + multiset{x}
  {
    if s != [] && Less(s[0].id.name, x.id.name) {
      InsertMultiset(x, s[1..]);
      assert s == [s[0]] + s[1..];
    }
  }

  lemma {:induction false} SortMultiset(s: seq<Shim>)
    ensures multiset(SortByName(s)) == multiset(s)
  {
    if s != [] {
      SortMultiset(s[1..]);
      InsertMultiset(s[0], SortByName(s[1..]));
      assert s == [s[0]] + s[1..];
    }
  }

  lemma SortedTail(s: seq<Shim>)
    requires s != [] && SortedByName(s)
    ensures SortedByName(s[1..])
  {
  }

  lemma MembersKept(s: seq<Shim>, t: seq<Shim>, y: Shim)
    requires multiset(s) == multiset(t)
    ensures y in s <==> y in t
  {
    assert y in s <==> y in multiset(s);
    assert y in t <==> y in multiset(t);
  }

  lemma {:induction false} InsertSorted(x: Shim, s: seq<Shim>)
    requires SortedByName(s)
    ensures SortedByName(InsertByName(x, s))
  {
    if s == [] {
    } else if Less(s[0].id.name, x.id.name) {
      SortedTail(s);
      InsertSorted(x, s[1..]);
      InsertMultiset(x, s[1..]);
      var t := InsertByName(x, s[1..]);
      forall j | 0 <= j < |t| ensures !Less(t[j].id.name, s[0].id.name) {
        MembersKept(t, s[1..] + [x], t[j]);
        LessTrichotomy(x.id.name, s[0].id.name);
      }
      ConsSorted(s[0], t);
    } else {
      forall j | 0 <= j < |s| ensures !Less(s[j].id.name, x.id.name) {
        NotLessTransitive(s[j].id.name, s[0].id.name, x.id.name);
        assert j > 0 ==> !Less(s[j].id.name, s[0].id.name);
        LessTrichotomy(s[0].id.name, s[0].id.name);
      }
      ConsSorted(x, s);
    }
  }

  lemma {:induction false} NotLessTransitive(a: string, b: string, c: string)
    ensures !Less(a, b) && !Less(b, c) ==> !Less(a, c)
  {
    LessTrichotomy(a, b);
    LessTrichotomy(b, c);
    if Less(b, a) && Less(c, b) {
      LessTransitive(c, b, a);
      LessTrichotomy(a, c);
    } else if Less(a, c) {
      LessTrichotomy(a, c);
    }
  }

  lemma ConsSorted(x: Shim, s: seq<Shim>)
    requires SortedByName(s) && forall j :: 0 <= j < |s| ==> !Less(s[j].id.name, x.id.name)
    ensures SortedByName([x] + s)
  {
    var t := [x] + s;
    forall i, j | 0 <= i < j < |t| ensures !Less(t[j].id.name, t[i].id.name) {
      assert t[j] == s[j - 1];
      assert i > 0 ==> t[i] == s[i - 1];
    }
  }

  lemma {:induction false} SortSorted(s: seq<Shim>)
    ensures SortedByName(SortByName(s))
  {
    if s != [] {
      SortSorted(s[1..]);
      InsertSorted(s[0], SortByName(s[1..]));
    }
  }

  lemma DistinctPermuted(s: seq<Shim>, t: seq<Shim>)
    requires NamesDistinct(s) && multiset(s) == multiset(t)
    ensures NamesDistinct(t)
  {
    forall i, j | 0 <= i < j < |t| ensures t[i].id.name != t[j].id.name {
      if t[i].id.name == t[j].id.name {
        MembersKept(s, t, t[i]);
        MembersKept(s, t, t[j]);
        var a :| 0 <= a < |s| && s[a] == t[i];
        var b :| 0 <= b < |s| && s[b] == t[j];
        assert a == b;
        TwiceInMultiset(t, i, j);
        OnceInMultiset(s, a);
        assert false;
      }
    }
  }

  lemma TwiceInMultiset(t: seq<Shim>, i: nat, j: nat)
    requires i < j < |t| && t[i] == t[j]
    ensures multiset(t)[t[i]] >= 2
  {
    assert t == t[..j] + [t[j]] + t[j + 1..];
    assert t[..j][i] == t[i];
    assert t[i] in multiset(t[..j]);
  }

  lemma OnceInMultiset(s: seq<Shim>, a: nat)
    requires a < |s| && NamesDistinct(s)
    ensures multiset(s)[s[a]] == 1
  {
    assert s == s[..a] + [s[a]] + s[a + 1..];
    forall y | y in s[..a] || y in s[a + 1..] ensures y != s[a] {
      if y in s[..a] {
        var i :| 0 <= i < a && s[i] == y;
      } else {
        var i :| a < i < |s| && s[i] == y by {
          var k :| 0 <= k < |s[a + 1..]| && s[a + 1..][k] == y;
          assert s[a + 1 + k] == y;
        }
      }
    }
    assert s[a] !in multiset(s[..a]) && s[a] !in multiset(s[a + 1..]);
  }

  lemma FirstIsLeast(s: seq<Shim>, j: nat)
    requires SortedByName(s) && j < |s|
    ensures !Less(s[j].id.name, s[0].id.name)
  {
    LessTrichotomy(s[0].id.name, s[0].id.name);
  }

  lemma SameFirst(s: seq<Shim>, t: seq<Shim>)
    requires s != [] && t != [] && SortedByName(s) && SortedByName(t) && NamesDistinct(s) && multiset(s) == multiset(t)
    ensures s[0] == t[0]
  {
    MembersKept(s, t, s[0]);
    MembersKept(s, t, t[0]);
    var i :| 0 <= i < |t| && t[i] == s[0];
    var j :| 0 <= j < |s| && s[j] == t[0];
    FirstIsLeast(t, i);
    FirstIsLeast(s, j);
    LessTrichotomy(s[0].id.name, t[0].id.name);
    assert s[j].id.name == s[0].id.name;
  }

  /** Distinct names leave one sorted arrangement, whatever algorithm produced it. */
  lemma {:induction false} SortedUnique(s: seq<Shim>, t: seq<Shim>)
    requires SortedByName(s) && SortedByName(t) && NamesDistinct(s) && multiset(s) == multiset(t)
    ensures s == t
  {
    assert |s| == |multiset(s)| == |multiset(t)| == |t|;
    if s != [] {
      SameFirst(s, t);
      SortedTail(s);
      SortedTail(t);
      TailMultiset(s);
      TailMultiset(t);
      assert NamesDistinct(s[1..]);
      hide SortedByName, NamesDistinct;
      SortedUnique(s[1..], t[1..]);
      assert s == [s[0]] + s[1..] && t == [t[0]] + t[1..];
    }
  }

  lemma TailMultiset(s: seq<Shim>)
    requires s != []
    ensures multiset(s[1..]) == multiset(s) - multiset{s[0]}
  {
    assert s == [s[0]] + s[1..];
  }

  lemma {:induction false} SortIgnoresOrder(s: seq<Shim>, t: seq<Shim>)
    requires NamesDistinct(s) && multiset(s) == multiset(t)
    ensures SortByName(s) == SortByName(t)
  {
    SortMultiset(s);
    SortMultiset(t);
    SortSorted(s);
    SortSorted(t);
    DistinctPermuted(s, SortByName(s));
    SortedUnique(SortByName(s), SortByName(t));
  }

  function ListShims(namespaced: seq<Shim>, cluster: seq<Shim>): seq<Shim>
  {
    SortByName(namespaced) + SortByName(cluster)
  }
}
