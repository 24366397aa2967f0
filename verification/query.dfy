/** What the database's query operators mean, stated over a collection modelled as a map
    from id to document: `$match` (a filter), `$sort`, `findOne` (the first match in natural
    order), `$skip`/`$limit` and the cursor's `skip`/`limit`, and `countDocuments`. */
module Query {
  import opened Common

  /** No id occurs twice. */
  predicate Distinct(s: seq<Id>)
  {
    forall i, j :: 0 <= i < j < |s| ==> s[i] != s[j]
  }

  /** `s` is in the order a `$sort` on `key` gives: non-increasing when `descending`,
      non-decreasing otherwise. */
  ghost predicate Ordered(s: seq<Id>, key: Id -> int, descending: bool)
  {
    forall i, j :: 0 <= i < j < |s| ==>
      if descending then key(s[i]) >= key(s[j]) else key(s[i]) <= key(s[j])
  }

  /** `x` is a member of `ids` that a `$sort` on `key` may put first. */
  ghost predicate IsExtreme(x: Id, ids: set<Id>, key: Id -> int, descending: bool)
  {
    x in ids && forall y :: y in ids ==> if descending then key(y) <= key(x) else key(x) <= key(y)
  }

  /** Every non-empty finite set of documents has one that sorts first. */
  lemma {:induction false} ExtremeExists(ids: set<Id>, key: Id -> int, descending: bool)
    requires ids != {}
    ensures exists x :: IsExtreme(x, ids, key, descending)
    decreases ids
  {
    var y :| y in ids;
    if ids - {y} == {} {
      assert ids == {y};
      assert IsExtreme(y, ids, key, descending);
    } else {
      ExtremeExists(ids - {y}, key, descending);
      var z :| IsExtreme(z, ids - {y}, key, descending);
      if descending {
        if key(y) >= key(z) {
          assert IsExtreme(y, ids, key, descending);
        } else {
          assert IsExtreme(z, ids, key, descending);
        }
      } else {
        if key(y) <= key(z) {
          assert IsExtreme(y, ids, key, descending);
        } else {
          assert IsExtreme(z, ids, key, descending);
        }
      }
    }
  }

  /** The documents `ids` in the order a `$sort` stage on `key` returns them; documents with
      equal keys come in an order the model leaves open. */
  ghost function SortBy(ids: set<Id>, key: Id -> int, descending: bool): (r: seq<Id>)
    ensures Distinct(r) && |r| == |ids|
    ensures forall i :: 0 <= i < |r| ==> r[i] in ids
    ensures forall x :: x in ids ==> x in r
    ensures Ordered(r, key, descending)
    decreases ids
  {
    if ids == {} then []
    else
      ExtremeExists(ids, key, descending);
      var x :| IsExtreme(x, ids, key, descending);
      var rest := SortBy(ids - {x}, key, descending);
      PrependExtreme(x, ids, rest, key, descending);
      [x] + rest
  }

  /** Putting a document that sorts first in front of a sorted listing of the others gives a
      sorted listing. */
  lemma PrependExtreme(x: Id, ids: set<Id>, rest: seq<Id>, key: Id -> int, descending: bool)
    requires IsExtreme(x, ids, key, descending)
    requires Distinct(rest) && Ordered(rest, key, descending)
    requires forall i :: 0 <= i < |rest| ==> rest[i] in ids - {x}
    ensures Distinct([x] + rest) && Ordered([x] + rest, key, descending)
  {
    var r := [x] + rest;
    assert forall i :: 0 < i < |r| ==> r[i] == rest[i - 1];
  }

  /** `x` is the member of `ids` earliest in natural (creation) order. */
  predicate IsFirst(x: Id, ids: set<Id>)
  {
    x in ids && forall y :: y in ids ==> x <= y
  }

  lemma {:induction false} FirstExists(ids: set<Id>)
    requires ids != {}
    ensures exists x :: IsFirst(x, ids)
    decreases ids
  {
    var y :| y in ids;
    if ids - {y} == {} {
      assert ids == {y};
      assert IsFirst(y, ids);
    } else {
      FirstExists(ids - {y});
      var z :| IsFirst(z, ids - {y});
      var x := if y <= z then y else z;
      forall w | w in ids ensures x <= w {
        if w != y {
          assert w in ids - {y};
        }
      }
      assert IsFirst(x, ids);
    }
  }

  /** `findOne`: the matching document earliest in natural (creation) order, if any. */
  ghost function First(ids: set<Id>): (r: Option<Id>)
    ensures r.None? <==> ids == {}
    ensures r.Some? ==> IsFirst(r.value, ids)
    ensures forall x: Id :: IsFirst(x, ids) ==> r == Some(x)
  {
    if ids == {} then None
    else
      FirstExists(ids);
      var x :| IsFirst(x, ids);
      Some(x)
  }

  /** How many documents a `$skip: skip` / `$limit: limit` pair keeps out of `n`. */
  function Kept(n: nat, skip: nat, limit: nat): nat
  {
    if skip >= n then 0 else if n - skip < limit then n - skip else limit
  }

  /** `$skip: skip` followed by `$limit: limit` in an aggregation pipeline. The server rejects a
      negative skip and a limit that is not positive, which fails the whole request. */
  function Window<T>(s: seq<T>, skip: int, limit: int): (r: Option<seq<T>>)
    ensures r.Some? <==> skip >= 0 && limit > 0
    ensures r.Some? ==> |r.value| == Kept(|s|, skip, limit) && |r.value| <= limit
    ensures r.Some? ==> forall i :: 0 <= i < |r.value| ==> skip + i < |s| && r.value[i] == s[skip + i]
  {
    if skip < 0 || limit <= 0 then None
    else if skip >= |s| then Some([])
    else if |s| - skip < limit then Some(s[skip..])
    else Some(s[skip..skip + limit])
  }

  /** A run of consecutive documents cut out of a sorted listing is itself duplicate-free and
      in order, and holds only documents of the listing. */
  lemma SliceOfListing(s: seq<Id>, w: seq<Id>, skip: int, key: Id -> int, descending: bool)
    requires forall i :: 0 <= i < |w| ==> 0 <= skip + i < |s| && w[i] == s[skip + i]
    ensures forall i :: 0 <= i < |w| ==> w[i] in s
    ensures Distinct(s) ==> Distinct(w)
    ensures Ordered(s, key, descending) ==> Ordered(w, key, descending)
  {
    if Distinct(s) {
      forall i, j | 0 <= i < j < |w| ensures w[i] != w[j] {
        var a, b := w[i], w[j];
        assert a == s[skip + i] && b == s[skip + j];
      }
    }
    if Ordered(s, key, descending) {
      forall i, j | 0 <= i < j < |w|
        ensures if descending then key(w[i]) >= key(w[j]) else key(w[i]) <= key(w[j])
      {
        var a, b := w[i], w[j];
        assert a == s[skip + i] && b == s[skip + j];
      }
    }
  }

  /** `$sort` on `key`, then `$skip: skip` and `$limit: limit`: one page of the documents `ids`
      in sorted order, or a failed request. */
  ghost function SortedPage(ids: set<Id>, key: Id -> int, descending: bool, skip: int, limit: int)
    : (r: Option<seq<Id>>)
    ensures r.Some? <==> skip >= 0 && limit > 0
    ensures r.Some? ==>
      var (items, all) := (r.value, SortBy(ids, key, descending));
      && Distinct(items) && Ordered(items, key, descending)
      && |items| <= limit && |items| == Kept(|ids|, skip, limit)
      && (forall k :: 0 <= k < |items| ==> items[k] in ids && items[k] == all[skip + k])
  {
    var all := SortBy(ids, key, descending);
    var w := Window(all, skip, limit);
    if w.Some? then SliceOfListing(all, w.value, skip, key, descending); w else w
  }

  /** `find(...).skip(skip).limit(limit)` on a cursor: a negative skip fails the request,
      a limit of 0 means no limit, and a negative limit keeps at most its absolute value. */
  function CursorWindow<T>(s: seq<T>, skip: int, limit: int): (r: Option<seq<T>>)
    ensures r.Some? <==> skip >= 0
    ensures r.Some? && limit == 0 ==> r.value == s[if skip <= |s| then skip else |s|..]
    ensures r.Some? && limit != 0 ==>
      |r.value| == Kept(|s|, skip, if limit > 0 then limit else -limit)
    ensures r.Some? ==> forall i :: 0 <= i < |r.value| ==> skip + i < |s| && r.value[i] == s[skip + i]
  {
    if skip < 0 then None
    else if limit == 0 then Some(s[if skip <= |s| then skip else |s|..])
    else Window(s, skip, if limit > 0 then limit else -limit)
  }

  /** `find(...).sort({ <key>: ... }).skip(skip).limit(limit)`: one page of the documents
      `ids` in sorted order, or a failed request. */
  ghost function SortedCursorPage(ids: set<Id>, key: Id -> int, descending: bool, skip: int, limit: int)
    : (r: Option<seq<Id>>)
    ensures r.Some? <==> skip >= 0
    ensures r.Some? ==>
      var (items, all) := (r.value, SortBy(ids, key, descending));
      && r.value == CursorWindow(all, skip, limit).value
      && Distinct(items) && Ordered(items, key, descending)
      && (limit != 0 ==> |items| <= if limit > 0 then limit else -limit)
      && (forall k :: 0 <= k < |items| ==> items[k] in ids)
  {
    var all := SortBy(ids, key, descending);
    var w := CursorWindow(all, skip, limit);
    if w.Some? then SliceOfListing(all, w.value, skip, key, descending); w else w
  }

  /** `$match` / `countDocuments` with a predicate on the document. */
  ghost function Where<T>(m: map<Id, T>, p: T -> bool): set<Id>
  {
    set i | i in m && p(m[i])
  }

  /** The values of `key` over a collection: for likes, the (target, user) pairs liked. */
  ghost function Image<T, K>(m: map<Id, T>, key: T -> K): set<K>
  {
    set i | i in m :: key(m[i])
  }

  /** At most one document of the collection per value of `key`. */
  ghost predicate UniqueBy<T, K>(m: map<Id, T>, key: T -> K)
  {
    forall i, j :: i in m && j in m && key(m[i]) == key(m[j]) ==> i == j
  }

  /** Creating a document under a fresh id adds it to a filter iff it matches. */
  lemma WhereInsert<T>(m: map<Id, T>, p: T -> bool, n: Id, v: T)
    requires n !in m
    ensures Where(m[n := v], p) == if p(v) then Where(m, p) + {n} else Where(m, p)
    ensures |Where(m[n := v], p)| == |Where(m, p)| + if p(v) then 1 else 0
  {
    assert n !in Where(m, p);
  }

  /** The documents whose `key` is `k`: what `findOne` on those fields can return. */
  function WithKey<T, K(==)>(m: map<Id, T>, key: T -> K, k: K): set<Id>
  {
    set i | i in m && key(m[i]) == k
  }

  /** A key value occurs in the collection exactly when some document carries it, and with
      unique keys that document is the only one. */
  lemma WithKeyImage<T, K>(m: map<Id, T>, key: T -> K, k: K)
    ensures k in Image(m, key) <==> WithKey(m, key, k) != {}
    ensures UniqueBy(m, key) && k in Image(m, key) ==> |WithKey(m, key, k)| == 1
  {
    if k in Image(m, key) {
      var i :| i in m && key(m[i]) == k;
      assert i in WithKey(m, key, k);
      if UniqueBy(m, key) {
        assert WithKey(m, key, k) == {i};
      }
    }
  }

  /** Deleting a document removes it from every filter and changes nothing else. */
  lemma WhereRemove<T>(m: map<Id, T>, p: T -> bool, n: Id)
    requires n in m
    ensures Where(m - {n}, p) == if p(m[n]) then Where(m, p) - {n} else Where(m, p)
    ensures |Where(m - {n}, p)| == |Where(m, p)| - if p(m[n]) then 1 else 0
  {
  }

  /** Deleting the one document with a given key removes exactly that key. */
  lemma ImageRemove<T, K>(m: map<Id, T>, key: T -> K, n: Id)
    requires UniqueBy(m, key) && n in m
    ensures Image(m - {n}, key) == Image(m, key) - {key(m[n])}
    ensures UniqueBy(m - {n}, key)
  {
    var lhs, rhs := Image(m - {n}, key), Image(m, key) - {key(m[n])};
    forall k | k in rhs ensures k in lhs {
      var i :| i in m && key(m[i]) == k;
      assert i != n;
      assert (m - {n})[i] == m[i];
    }
  }

  /** Creating a document under a fresh id adds its key, and keeps keys unique when the key
      was absent. */
  lemma ImageInsert<T, K>(m: map<Id, T>, key: T -> K, n: Id, v: T)
    requires n !in m
    ensures Image(m[n := v], key) == Image(m, key) + {key(v)}
    ensures UniqueBy(m, key) && key(v) !in Image(m, key) ==> UniqueBy(m[n := v], key)
  {
    var lhs, rhs := Image(m[n := v], key), Image(m, key) + {key(v)};
    forall k | k in rhs ensures k in lhs {
      if k == key(v) {
        assert m[n := v][n] == v;
      } else {
        var i :| i in m && key(m[i]) == k;
        assert m[n := v][i] == m[i];
      }
    }
    var mm := m[n := v];
    if UniqueBy(m, key) && key(v) !in Image(m, key) {
      forall i, j | i in mm && j in mm && key(mm[i]) == key(mm[j])
        ensures i == j
      {
        if i != n {
          assert key(m[i]) in Image(m, key);
        }
      }
    }
  }
}
