/** Key/value lists of the environment store: lookup, insertion, deletion and
    order. */
module EnvList {
  import opened Bytes

  /** A C string. */
  type CStr = s: seq<Byte> | 0 !in s witness []

  datatype Kv = Kv(key: CStr, value: CStr)

  /** Index of the item with this key, or the length. */
  function Find(kvs: seq<Kv>, key: CStr): (i: nat)
    ensures i <= |kvs| && (i < |kvs| ==> kvs[i].key == key)
    ensures forall j | 0 <= j < i :: kvs[j].key != key
  {
    if |kvs| == 0 then 0 else if kvs[0].key == key then 0 else Find(kvs[1..], key) + 1
  }

  function Insert(kvs: seq<Kv>, key: CStr, value: CStr): (r: seq<Kv>)
    ensures |r| > 0
  {
    var i := Find(kvs, key);
    if i < |kvs| then kvs[i := Kv(key, value)] else kvs + [Kv(key, value)]
  }

  function Delete(kvs: seq<Kv>, key: CStr): seq<Kv> {
    var i := Find(kvs, key);
    if i < |kvs| then kvs[..i] + kvs[i + 1..] else kvs
  }

  predicate Distinct(kvs: seq<Kv>) {
    forall i, j | 0 <= i < j < |kvs| :: kvs[i].key != kvs[j].key
  }

  function KeysOf(kvs: seq<Kv>): set<CStr> { set i | 0 <= i < |kvs| :: kvs[i].key }

  /** The list as a map; with equal keys the first item counts. */
  function MapOf(kvs: seq<Kv>): map<CStr, CStr> {
    map k | k in KeysOf(kvs) :: kvs[Find(kvs, k)].value
  }

  lemma {:induction false} FindAt(kvs: seq<Kv>, i: nat)
    requires Distinct(kvs) && i < |kvs|
    ensures Find(kvs, kvs[i].key) == i
  {}

  lemma {:induction false} InKeys(kvs: seq<Kv>, k: CStr)
    ensures k in KeysOf(kvs) <==> Find(kvs, k) < |kvs|
  {
    if k in KeysOf(kvs) {
      var i :| 0 <= i < |kvs| && kvs[i].key == k;
    }
  }

  /** Insertion is a map update and keeps keys distinct. */
  lemma {:induction false} InsertMap(kvs: seq<Kv>, key: CStr, value: CStr)
    requires Distinct(kvs)
    ensures Distinct(Insert(kvs, key, value)) && MapOf(Insert(kvs, key, value)) == MapOf(kvs)[key := value]
  {
    var r := Insert(kvs, key, value);
    assert Distinct(r);
    forall k: CStr
      ensures k in MapOf(r) <==> k == key || k in MapOf(kvs)
      ensures k in MapOf(r) ==> MapOf(r)[k] == if k == key then value else MapOf(kvs)[k]
    {
      InKeys(kvs, k);
      InKeys(r, k);
      InsertFinds(kvs, key, value, k);
    }
  }

  lemma {:induction false} InsertFinds(kvs: seq<Kv>, key: CStr, value: CStr, k: CStr)
    requires Distinct(kvs)
    ensures var r := Insert(kvs, key, value); var i := Find(r, k);
            && (i < |r| <==> k == key || Find(kvs, k) < |kvs|)
            && (i < |r| ==> r[i].value == if k == key then value else kvs[Find(kvs, k)].value)
  {
    var r, f := Insert(kvs, key, value), Find(kvs, key);
    assert Distinct(r);
    if k == key {
      assert r[f].key == k;
      FindAt(r, f);
    } else if Find(kvs, k) < |kvs| {
      assert r[Find(kvs, k)] == kvs[Find(kvs, k)];
      FindAt(r, Find(kvs, k));
    }
  }

  /** Deletion removes the key from the map and keeps keys distinct. */
  lemma {:induction false} DeleteMap(kvs: seq<Kv>, key: CStr)
    requires Distinct(kvs)
    ensures Distinct(Delete(kvs, key)) && MapOf(Delete(kvs, key)) == MapOf(kvs) - {key}
  {
    var r := Delete(kvs, key);
    forall k: CStr
      ensures k in MapOf(r) <==> k != key && k in MapOf(kvs)
      ensures k in MapOf(r) ==> MapOf(r)[k] == MapOf(kvs)[k]
    {
      InKeys(kvs, k);
      InKeys(r, k);
      DeleteFinds(kvs, key, k);
    }
  }

  lemma {:induction false} DeleteDistinct(kvs: seq<Kv>, key: CStr)
    requires Distinct(kvs)
    ensures Distinct(Delete(kvs, key))
  {}

  lemma {:induction false} DeleteFinds(kvs: seq<Kv>, key: CStr, k: CStr)
    requires Distinct(kvs)
    ensures var r := Delete(kvs, key); var i := Find(r, k);
            && (i < |r| <==> k != key && Find(kvs, k) < |kvs|)
            && (i < |r| ==> r[i] == kvs[Find(kvs, k)])
  {
    var r, f, g := Delete(kvs, key), Find(kvs, key), Find(kvs, k);
    DeleteDistinct(kvs, key);
    if k != key && g < |kvs| {
      var i := if f < g then g - 1 else g;
      assert r[i] == kvs[g];
      FindAt(r, i);
    } else if k == key {
      assert forall i | 0 <= i < |r| :: r[i].key != key;
    }
  }

  // ---- order ----

  /** strcmp(a, b) < 0 */
  predicate Less(a: CStr, b: CStr) {
    if |b| == 0 then false
    else if |a| == 0 then true
    else if a[0] != b[0] then a[0] < b[0]
    else Less(a[1..], b[1..])
  }

  lemma {:induction false} LessTotal(a: CStr, b: CStr)
    ensures Less(a, b) || a == b || Less(b, a)
    ensures !(Less(a, b) && Less(b, a)) && !Less(a, a)
    decreases |a|
  {
    if |a| > 0 {
      LessTotal(a[1..], a[1..]);
      if |b| > 0 && a[0] == b[0] {
        LessTotal(a[1..], b[1..]);
        if a[1..] == b[1..] { assert a == [a[0]] + a[1..] && b == [b[0]] + b[1..]; }
      }
    }
  }

  lemma {:induction false} LessTransitive(a: CStr, b: CStr, c: CStr)
    requires Less(a, b) && Less(b, c)
    ensures Less(a, c)
    decreases |a|
  {
    if |a| > 0 && a[0] == b[0] && b[0] == c[0] {
      LessTransitive(a[1..], b[1..], c[1..]);
    }
  }

  /** Strictly increasing keys. */
  predicate Sorted(kvs: seq<Kv>) {
    forall i, j | 0 <= i < j < |kvs| :: Less(kvs[i].key, kvs[j].key)
  }

  lemma {:induction false} SortedDistinct(kvs: seq<Kv>)
    requires Sorted(kvs)
    ensures Distinct(kvs)
  {
    forall i, j | 0 <= i < j < |kvs|
      ensures kvs[i].key != kvs[j].key
    {
      LessTotal(kvs[i].key, kvs[j].key);
    }
  }

  function InsertSorted(kv: Kv, s: seq<Kv>): seq<Kv> {
    if |s| == 0 then [kv]
    else if Less(s[0].key, kv.key) then [s[0]] + InsertSorted(kv, s[1..])
    else [kv] + s
  }

  function Sort(kvs: seq<Kv>): seq<Kv> {
    if |kvs| == 0 then [] else InsertSorted(kvs[|kvs| - 1], Sort(kvs[..|kvs| - 1]))
  }

  lemma {:induction false} InsertSortedElements(kv: Kv, s: seq<Kv>)
    ensures multiset(InsertSorted(kv, s)) == multiset(s) + multiset{kv}
  {
    if |s| > 0 && Less(s[0].key, kv.key) {
      InsertSortedElements(kv, s[1..]);
      assert s == [s[0]] + s[1..];
    }
  }

  lemma {:induction false} InsertSortedSorted(kv: Kv, s: seq<Kv>)
    requires Sorted(s) && forall i | 0 <= i < |s| :: s[i].key != kv.key
    ensures Sorted(InsertSorted(kv, s))
  {
    var r := InsertSorted(kv, s);
    if |s| > 0 {
      if Less(s[0].key, kv.key) {
        var rest := InsertSorted(kv, s[1..]);
        InsertSortedSorted(kv, s[1..]);
        InsertSortedElements(kv, s[1..]);
        forall x | x in rest
          ensures Less(s[0].key, x.key)
        {
          assert x in multiset(rest);
          assert x == kv || x in s[1..];
        }
      } else {
        LessTotal(kv.key, s[0].key);
        forall i | 0 <= i < |s|
          ensures Less(kv.key, s[i].key)
        {
          if i > 0 { LessTransitive(kv.key, s[0].key, s[i].key); }
        }
      }
    }
  }

  /** Sorting keeps the items and orders their keys. */
  lemma {:induction false} SortCorrect(kvs: seq<Kv>)
    requires Distinct(kvs)
    ensures multiset(Sort(kvs)) == multiset(kvs) && Sorted(Sort(kvs))
  {
    if |kvs| > 0 {
      var init, last := kvs[..|kvs| - 1], kvs[|kvs| - 1];
      assert kvs == init + [last];
      SortCorrect(init);
      InsertSortedElements(last, Sort(init));
      forall i | 0 <= i < |Sort(init)|
        ensures Sort(init)[i].key != last.key
      {
        assert Sort(init)[i] in multiset(init);
        var j :| 0 <= j < |init| && init[j] == Sort(init)[i];
      }
      InsertSortedSorted(last, Sort(init));
    }
  }

  /** Two increasing lists of the same items are the same list. */
  lemma {:induction false} SortedUnique(s: seq<Kv>, t: seq<Kv>)
    requires Sorted(s) && Sorted(t) && multiset(s) == multiset(t)
    ensures s == t
  {
    assert |multiset(s)| == |s| && |multiset(t)| == |t|;
    if |s| > 0 {
      SameHead(s, t);
      assert s == [s[0]] + s[1..] && t == [t[0]] + t[1..];
      assert multiset(s[1..]) == multiset(s) - multiset{s[0]};
      assert multiset(t[1..]) == multiset(t) - multiset{t[0]};
      SortedUnique(s[1..], t[1..]);
    }
  }

  lemma {:induction false} SameHead(s: seq<Kv>, t: seq<Kv>)
    requires Sorted(s) && Sorted(t) && multiset(s) == multiset(t) && |s| > 0 && |t| > 0
    ensures s[0] == t[0]
  {
    assert s[0] in multiset(s) && s[0] in multiset(t);
    var i :| 0 <= i < |t| && t[i] == s[0];
    assert t[0] in multiset(t) && t[0] in multiset(s);
    var j :| 0 <= j < |s| && s[j] == t[0];
    LessTotal(s[0].key, t[0].key);
  }

  /** Whatever sorting algorithm qsort is, it gives Sort. */
  lemma {:induction false} AnySort(kvs: seq<Kv>, t: seq<Kv>)
    requires Distinct(kvs) && Sorted(t) && multiset(t) == multiset(kvs)
    ensures t == Sort(kvs)
  {
    SortCorrect(kvs);
    SortedUnique(t, Sort(kvs));
  }

  lemma {:induction false} SortOfSorted(kvs: seq<Kv>)
    requires Sorted(kvs)
    ensures Sort(kvs) == kvs
  {
    SortedDistinct(kvs);
    AnySort(kvs, kvs);
  }

  // ---- lists with the same map ----

  lemma {:induction false} ItemInMap(kvs: seq<Kv>, kv: Kv)
    requires Distinct(kvs)
    ensures kv in kvs <==> kv.key in MapOf(kvs) && MapOf(kvs)[kv.key] == kv.value
  {
    InKeys(kvs, kv.key);
    if kv in kvs {
      var i :| 0 <= i < |kvs| && kvs[i] == kv;
      FindAt(kvs, i);
    }
  }

  lemma {:induction false} AtMostOnce(kvs: seq<Kv>, kv: Kv)
    requires Distinct(kvs)
    ensures multiset(kvs)[kv] == if kv in kvs then 1 else 0
  {
    if |kvs| > 0 {
      var init, last := kvs[..|kvs| - 1], kvs[|kvs| - 1];
      assert kvs == init + [last];
      AtMostOnce(init, kv);
    }
  }

  /** The map decides the sorted list. */
  lemma {:induction false} SortOfMap(s: seq<Kv>, t: seq<Kv>)
    requires Distinct(s) && Distinct(t) && MapOf(s) == MapOf(t)
    ensures Sort(s) == Sort(t)
  {
    forall kv: Kv
      ensures multiset(s)[kv] == multiset(t)[kv]
    {
      ItemInMap(s, kv);
      ItemInMap(t, kv);
      AtMostOnce(s, kv);
      AtMostOnce(t, kv);
    }
    assert multiset(s) == multiset(t);
    SortCorrect(s);
    SortCorrect(t);
    SortedUnique(Sort(s), Sort(t));
  }

  lemma {:induction false} MapOfSort(kvs: seq<Kv>)
    requires Distinct(kvs)
    ensures Distinct(Sort(kvs)) && MapOf(Sort(kvs)) == MapOf(kvs) && |Sort(kvs)| == |kvs|
  {
    var t := Sort(kvs);
    SortCorrect(kvs);
    SortedDistinct(t);
    assert |multiset(t)| == |t| && |multiset(kvs)| == |kvs|;
    forall k: CStr, v: CStr
      ensures Maps(MapOf(t), k, v) <==> Maps(MapOf(kvs), k, v)
    {
      ItemInMap(t, Kv(k, v));
      ItemInMap(kvs, Kv(k, v));
      assert Kv(k, v) in t <==> Kv(k, v) in multiset(t);
      assert Kv(k, v) in kvs <==> Kv(k, v) in multiset(kvs);
    }
    SameMap(MapOf(t), MapOf(kvs));
  }

  predicate Maps(m: map<CStr, CStr>, k: CStr, v: CStr) { k in m && m[k] == v }

  lemma {:induction false} SameMap(m: map<CStr, CStr>, n: map<CStr, CStr>)
    requires forall k: CStr, v: CStr :: Maps(m, k, v) <==> Maps(n, k, v)
    ensures m == n
  {
    forall k: CStr | k in m ensures k in n && n[k] == m[k] { assert Maps(m, k, m[k]); }
    forall k: CStr | k in n ensures k in m { assert Maps(n, k, n[k]); }
  }
}
