/**
 * A MongoDB collection as the route handlers use it: documents keyed by
 * `_id`, kept in natural (insertion) order, with `insertOne`, `findOne`,
 * `updateOne` with `$set`, `deleteOne`, `find(query)`, and `sort` by
 * ordering keys.
 */
module Collection {

  import opened Js
  import opened Pagination

  // ---------------------------------------------------------------------
  // Filtering

  /** `find(query)` in natural order: the documents the query matches. */
  function Filter(s: seq<Doc>, matches: Doc -> bool): (r: seq<Doc>)
    ensures |r| <= |s|
    ensures forall i :: 0 <= i < |r| ==> matches(r[i])
  {
    if s == [] then []
    else
      var rest := Filter(s[1..], matches);
      assert s == [s[0]] + s[1..];
      if matches(s[0]) then [s[0]] + rest else rest
  }

  /**
   * `find` keeps the natural order: filtering a concatenation filters each
   * part in turn (and `FilterOne` says what one document contributes).
   */
  lemma {:induction false} FilterAppend(s: seq<Doc>, t: seq<Doc>, matches: Doc -> bool)
    ensures Filter(s + t, matches) == Filter(s, matches) + Filter(t, matches)
    decreases |s|
  {
    if s == [] {
      assert s + t == t;
    } else {
      var h, tail := s[0], s[1..];
      assert s == [h] + tail;
      assert s + t == [h] + (tail + t);
      FilterCons(h, tail + t, matches);
      FilterCons(h, tail, matches);
      FilterAppend(tail, t, matches);
      var x := if matches(h) then [h] else [];
      var ft, fu := Filter(tail, matches), Filter(t, matches);
      assert x + (ft + fu) == (x + ft) + fu;
    }
  }

  /** Filtering a document in front: it is kept exactly when it matches. */
  lemma FilterCons(h: Doc, t: seq<Doc>, matches: Doc -> bool)
    ensures Filter([h] + t, matches) == (if matches(h) then [h] else []) + Filter(t, matches)
  {
    assert ([h] + t)[0] == h && ([h] + t)[1..] == t;
  }

  /** The result takes each document at most as often as the collection holds it. */
  lemma {:induction false} FilterSubMultiset(s: seq<Doc>, matches: Doc -> bool)
    ensures multiset(Filter(s, matches)) <= multiset(s)
  {
    if s != [] {
      FilterSubMultiset(s[1..], matches);
      assert s == [s[0]] + s[1..];
    }
  }

  /** Every document the query matches is in the result. */
  lemma {:induction false} FilterKeepsMatches(s: seq<Doc>, matches: Doc -> bool)
    ensures forall d :: d in s && matches(d) ==> d in Filter(s, matches)
  {
    if s != [] {
      FilterKeepsMatches(s[1..], matches);
      assert forall d :: d in s ==> d == s[0] || d in s[1..];
    }
  }

  /** One document is kept exactly when the query matches it. */
  lemma FilterOne(d: Doc, matches: Doc -> bool)
    ensures Filter([d], matches) == if matches(d) then [d] else []
  {
    assert [d][1..] == [];
  }

  /** Filtering with a query that matches everything changes nothing. */
  lemma {:induction false} FilterAll(s: seq<Doc>, matches: Doc -> bool)
    requires forall i :: 0 <= i < |s| ==> matches(s[i])
    ensures Filter(s, matches) == s
  {
    if s != [] {
      assert forall i :: 0 <= i < |s[1..]| ==> s[1..][i] == s[i + 1];
      FilterAll(s[1..], matches);
    }
  }

  // ---------------------------------------------------------------------
  // Sorting by a key, compared lexicographically

  /** Lexicographic order on sort keys: `sort({ a: 1, b: 1 })` compares `a`, then `b`. */
  predicate LexLe(a: seq<int>, b: seq<int>) {
    a == [] || (b != [] && (a[0] < b[0] || (a[0] == b[0] && LexLe(a[1..], b[1..]))))
  }

  lemma {:induction false} LexTotal(a: seq<int>, b: seq<int>)
    ensures LexLe(a, b) || LexLe(b, a)
  {
    if a != [] && b != [] && a[0] == b[0] {
      LexTotal(a[1..], b[1..]);
    }
  }

  lemma {:induction false} LexTransitive(a: seq<int>, b: seq<int>, c: seq<int>)
    requires LexLe(a, b) && LexLe(b, c)
    ensures LexLe(a, c)
  {
    if a != [] && b != [] && c != [] && a[0] == b[0] && b[0] == c[0] {
      LexTransitive(a[1..], b[1..], c[1..]);
    }
  }

  predicate SortedBy(s: seq<Doc>, key: Doc -> seq<int>) {
    forall i, j :: 0 <= i < j < |s| ==> LexLe(key(s[i]), key(s[j]))
  }

  /** Insert `x` before the first document whose key is greater. */
  function InsertBy(x: Doc, s: seq<Doc>, key: Doc -> seq<int>): (r: seq<Doc>)
    ensures multiset(r) == multiset(s) + multiset{x}
    ensures |r| == |s| + 1
  {
    if s == [] then [x]
    else if LexLe(key(x), key(s[0])) then [x] + s
    else
      assert s == [s[0]] + s[1..];
      [s[0]] + InsertBy(x, s[1..], key)
  }

  /** A document no greater than every document of a sorted sequence can go in front of it. */
  lemma ConsSorted(h: Doc, t: seq<Doc>, key: Doc -> seq<int>)
    requires SortedBy(t, key)
    requires forall k :: 0 <= k < |t| ==> LexLe(key(h), key(t[k]))
    ensures SortedBy([h] + t, key)
  {
    var r := [h] + t;
    assert forall i :: 1 <= i < |r| ==> r[i] == t[i - 1];
  }

  /** Every document of the insertion is the inserted one or one of the sequence. */
  lemma InsertByFrom(x: Doc, s: seq<Doc>, key: Doc -> seq<int>, k: int)
    requires 0 <= k < |InsertBy(x, s, key)|
    ensures InsertBy(x, s, key)[k] == x || InsertBy(x, s, key)[k] in s
  {
    var y := InsertBy(x, s, key)[k];
    assert y in multiset(InsertBy(x, s, key));
  }

  lemma {:induction false} InsertBySorted(x: Doc, s: seq<Doc>, key: Doc -> seq<int>)
    requires SortedBy(s, key)
    ensures SortedBy(InsertBy(x, s, key), key)
  {
    if s == [] {
    } else if LexLe(key(x), key(s[0])) {
      forall k | 0 <= k < |s| ensures LexLe(key(x), key(s[k])) {
        if k > 0 {
          LexTransitive(key(x), key(s[0]), key(s[k]));
        }
      }
      ConsSorted(x, s, key);
    } else {
      LexTotal(key(x), key(s[0]));
      var rest := s[1..];
      assert SortedBy(rest, key);
      InsertBySorted(x, rest, key);
      var t := InsertBy(x, rest, key);
      forall k | 0 <= k < |t| ensures LexLe(key(s[0]), key(t[k])) {
        InsertByFrom(x, rest, key, k);
        if t[k] != x {
          var m :| 0 <= m < |rest| && rest[m] == t[k];
          assert s[m + 1] == t[k];
        }
      }
      ConsSorted(s[0], t, key);
    }
  }

  /** `sort(key)`: an insertion sort by the key; the order it leaves among equal keys is one the database may return, not the only one. */
  function SortBy(s: seq<Doc>, key: Doc -> seq<int>): (r: seq<Doc>)
    ensures multiset(r) == multiset(s)
    ensures |r| == |s|
  {
    if s == [] then []
    else
      assert s == [s[0]] + s[1..];
      InsertBy(s[0], SortBy(s[1..], key), key)
  }

  lemma {:induction false} SortBySorted(s: seq<Doc>, key: Doc -> seq<int>)
    ensures SortedBy(SortBy(s, key), key)
  {
    if s != [] {
      SortBySorted(s[1..], key);
      InsertBySorted(s[0], SortBy(s[1..], key), key);
    }
  }

  /** `find(query).sort(key)`: the matching documents, ordered by the key. */
  function FindSorted(rows: seq<Doc>, matches: Doc -> bool, key: Doc -> seq<int>): (r: seq<Doc>)
    ensures multiset(r) == multiset(Filter(rows, matches))
    ensures forall i :: 0 <= i < |r| ==> matches(r[i])
  {
    var m := Filter(rows, matches);
    var r := SortBy(m, key);
    assert forall i :: 0 <= i < |r| ==> r[i] in multiset(m);
    r
  }

  /** Every page of a sorted result is in key order. */
  lemma PageSorted(rows: seq<Doc>, matches: Doc -> bool, key: Doc -> seq<int>, p: Params)
    requires p.skip >= 0 && p.limit >= 1
    ensures SortedBy(ListPage(FindSorted(rows, matches, key), p).data, key)
  {
    var s := FindSorted(rows, matches, key);
    SortBySorted(Filter(rows, matches), key);
    assert ListPage(s, p).data == Paginate(s, p.skip, p.limit);
    PageOfSorted(s, key, p.skip, p.limit);
  }

  /** A window of a sorted sequence is sorted. */
  lemma PageOfSorted(s: seq<Doc>, key: Doc -> seq<int>, skip: int, limit: int)
    requires SortedBy(s, key) && skip >= 0 && limit >= 0
    ensures SortedBy(Paginate(s, skip, limit), key)
  {
    var d := Paginate(s, skip, limit);
    forall i, j | 0 <= i < j < |d| ensures LexLe(key(d[i]), key(d[j])) {
      assert d[i] == s[skip + i] && d[j] == s[skip + j];
    }
  }

  // ---------------------------------------------------------------------
  // Ordering keys of field values

  /**
   * The sort key of one field: dates after everything else (MongoDB orders
   * Date values after numbers, strings and missing fields), by their time.
   */
  function DateKey(v: Value): (k: seq<int>)
    ensures |k| == 2
  {
    match v
    case Date(ms) => [1, ms]
    case _ => [0, 0]
  }

  /** Dates sort by their time, after every value that is not a date; the others tie. */
  lemma DateOrder(u: Value, v: Value)
    ensures u.Date? && v.Date? ==> (LexLe(DateKey(u), DateKey(v)) <==> u.ms <= v.ms)
    ensures !u.Date? && v.Date? ==> LexLe(DateKey(u), DateKey(v)) && !LexLe(DateKey(v), DateKey(u))
    ensures !u.Date? && !v.Date? ==> DateKey(u) == DateKey(v)
  {
    if u.Date? && v.Date? {
      var a, b := DateKey(u), DateKey(v);
      assert a[1..] == [u.ms] && b[1..] == [v.ms];
      assert LexLe([u.ms], [v.ms]) <==> u.ms <= v.ms by {
        assert [u.ms][1..] == [] && [v.ms][1..] == [];
      }
    }
  }

  /** The same key, for a descending sort (`-1`). */
  function Descending(k: seq<int>): (r: seq<int>)
    ensures |r| == |k| && forall i :: 0 <= i < |k| ==> r[i] == -k[i]
  {
    seq(|k|, i requires 0 <= i < |k| => -k[i])
  }

  lemma {:induction false} DescendingReverses(a: seq<int>, b: seq<int>)
    requires |a| == |b|
    ensures LexLe(Descending(a), Descending(b)) <==> LexLe(b, a)
  {
    if a != [] {
      assert Descending(a)[1..] == Descending(a[1..]);
      assert Descending(b)[1..] == Descending(b[1..]);
      DescendingReverses(a[1..], b[1..]);
    }
  }

  // ---------------------------------------------------------------------
  // `$set`

  /** `{ $set: fields }`: every given field is written, every other field kept. */
  function SetFields(d: Doc, fields: Doc): (r: Doc)
    ensures r.Keys == d.Keys + fields.Keys
    ensures forall k :: k in fields ==> r[k] == fields[k]
    ensures forall k :: k in d && k !in fields ==> r[k] == d[k]
  {
    d + fields
  }

  // ---------------------------------------------------------------------
  // `$inc`

  /**
   * `{ $inc: { k: 1 } }`: a missing field becomes 1, a number grows by one,
   * and any other value makes the update fail.
   */
  function Inc(d: Doc, k: string): (r: Option<Doc>)
    ensures r.Some? <==> Field(d, k).Undefined? || Field(d, k).Num?
    ensures r.Some? ==> r.value.Keys == d.Keys + {k}
    ensures r.Some? ==> Field(r.value, k) == Num(if Field(d, k).Num? then Field(d, k).n + 1 else 1)
    ensures r.Some? ==> forall f :: f in d && f != k ==> r.value[f] == d[f]
  {
    match Field(d, k)
    case Undefined => Some(d[k := Num(1)])
    case Num(n) => Some(d[k := Num(n + 1)])
    case _ => None
  }

  /** The stored document as a handler sends it: with `_id` as a string. */
  function WithId(id: string, d: Doc): (r: Doc)
    ensures Field(r, "_id") == Str(id)
  {
    d["_id" := Str(id)]
  }

  // ---------------------------------------------------------------------
  // The collection

  predicate Distinct(ids: seq<string>) {
    forall i, j :: 0 <= i < j < |ids| ==> ids[i] != ids[j]
  }

  /** Removing one position of a list of distinct ids removes exactly that id. */
  lemma RemoveAt(ids: seq<string>, i: int)
    requires 0 <= i < |ids| && Distinct(ids)
    ensures Distinct(ids[..i] + ids[i + 1..])
    ensures forall k :: k in ids[..i] + ids[i + 1..] <==> k in ids && k != ids[i]
  {
    var r := ids[..i] + ids[i + 1..];
    assert forall j :: 0 <= j < |r| ==> r[j] == if j < i then ids[j] else ids[j + 1];
    forall k | k in ids && k != ids[i] ensures k in r {
      var j :| 0 <= j < |ids| && ids[j] == k;
      assert r[if j < i then j else j - 1] == k;
    }
  }

  class Store {
    /** `_id`s in natural order. */
    var ids: seq<string>
    /** The document stored under each `_id`. */
    var docs: map<string, Doc>

    predicate Valid()
      reads this
    {
      Distinct(ids) &&
      (forall i :: 0 <= i < |ids| ==> ids[i] in docs) &&
      (forall k :: k in docs ==> k in ids)
    }

    constructor()
      ensures Valid() && ids == [] && docs == map[]
    {
      ids := [];
      docs := map[];
    }

    /** All documents in natural order, each with its `_id`. */
    function Rows(): (r: seq<Doc>)
      reads this
      requires Valid()
      ensures |r| == |ids|
      ensures forall i :: 0 <= i < |ids| ==> r[i] == WithId(ids[i], docs[ids[i]])
    {
      seq(|ids|, i requires 0 <= i < |ids| && Valid() reads this => WithId(ids[i], docs[ids[i]]))
    }

    /** `insertOne(doc)` under a new `_id`; an `_id` in use is a duplicate-key error. */
    method InsertOne(id: string, doc: Doc) returns (inserted: bool)
      requires Valid()
      modifies this
      ensures Valid()
      ensures inserted <==> id !in old(docs)
      ensures inserted ==> docs == old(docs)[id := doc] && ids == old(ids) + [id]
      ensures !inserted ==> docs == old(docs) && ids == old(ids)
    {
      if id in docs {
        return false;
      }
      ids := ids + [id];
      docs := docs[id := doc];
      inserted := true;
    }

    /** `updateOne({ _id: id }, { $set: fields })`; the result says whether a document matched. */
    method UpdateOne(id: string, fields: Doc) returns (matched: bool)
      requires Valid()
      modifies this
      ensures Valid()
      ensures matched <==> id in old(docs)
      ensures matched ==> docs == old(docs)[id := SetFields(old(docs)[id], fields)]
      ensures !matched ==> docs == old(docs)
      ensures ids == old(ids)
    {
      if id !in docs {
        return false;
      }
      docs := docs[id := SetFields(docs[id], fields)];
      matched := true;
    }

    /** `updateOne({ _id: id }, { $inc: { k: 1 } })`: whether a document matched, and whether the update failed. */
    method IncOne(id: string, k: string) returns (matched: bool, failed: bool)
      requires Valid()
      modifies this
      ensures Valid() && ids == old(ids)
      ensures matched <==> id in old(docs)
      ensures failed <==> matched && Inc(old(docs)[id], k).None?
      ensures matched && !failed ==> docs == old(docs)[id := Inc(old(docs)[id], k).value]
      ensures !(matched && !failed) ==> docs == old(docs)
    {
      if id !in docs {
        return false, false;
      }
      match Inc(docs[id], k)
      case None =>
        return true, true;
      case Some(d) =>
        docs := docs[id := d];
        return true, false;
    }

    /** `deleteOne({ _id: id })`; the result says whether a document was deleted. */
    method DeleteOne(id: string) returns (deleted: bool)
      requires Valid()
      modifies this
      ensures Valid()
      ensures deleted <==> id in old(docs)
      ensures docs == old(docs) - {id}
      ensures forall k :: k in ids <==> k in old(ids) && k != id
      ensures !deleted ==> ids == old(ids)
      ensures deleted ==> exists i :: 0 <= i < |old(ids)| && old(ids)[i] == id && ids == old(ids)[..i] + old(ids)[i + 1..]
    {
      if id !in docs {
        return false;
      }
      var i :| 0 <= i < |ids| && ids[i] == id;
      RemoveAt(ids, i);
      ids := ids[..i] + ids[i + 1..];
      docs := docs - {id};
      deleted := true;
    }
  }
}
