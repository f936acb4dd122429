/**
 * The document-store calls the controllers make, modelled on a collection
 * held as a sequence of documents. Sequence order stands for the store's
 * iteration order; a query is a predicate on documents; "the first match"
 * of `findOne`, `updateOne` and `deleteOne` is the match at the lowest index.
 */
module Collection {
  import opened Types

  /** `find(query).toArray()`: the matching documents, in iteration order. */
  function Find<T(!new)>(s: seq<T>, query: T -> bool): (r: seq<T>)
    ensures |r| <= |s|
    ensures forall x :: x in r <==> x in s && query(x)
  {
    if s == [] then []
    else if query(s[0]) then [s[0]] + Find(s[1..], query)
    else Find(s[1..], query)
  }

  /** `deleteMany(query)`: the collection left after every match is removed. */
  function DeleteMany<T(!new)>(s: seq<T>, query: T -> bool): (r: seq<T>)
    ensures |r| <= |s|
    ensures forall x :: x in r <==> x in s && !query(x)
    ensures r == [] <==> forall x :: x in s ==> query(x)
  {
    if s == [] then []
    else if query(s[0]) then DeleteMany(s[1..], query)
    else [s[0]] + DeleteMany(s[1..], query)
  }

  /** `deleteMany` loses nothing but the matches: what is left and what `find` returns partition the collection. */
  lemma {:induction false} DeleteManyPartition<T(!new)>(s: seq<T>, query: T -> bool)
    ensures multiset(DeleteMany(s, query)) + multiset(Find(s, query)) == multiset(s)
  {
    if s != [] {
      DeleteManyPartition(s[1..], query);
      assert multiset(s) == multiset{s[0]} + multiset(s[1..]) by {
        assert s == [s[0]] + s[1..];
      }
      if query(s[0]) {
        assert Find(s, query) == [s[0]] + Find(s[1..], query);
        assert DeleteMany(s, query) == DeleteMany(s[1..], query);
      } else {
        assert Find(s, query) == Find(s[1..], query);
        assert DeleteMany(s, query) == [s[0]] + DeleteMany(s[1..], query);
      }
    }
  }

  /**
   * Narrowing a `find` result by a stricter query gives what the stricter
   * query finds on the whole collection, in the same order.
   */
  lemma {:induction false} FindNarrowed<T(!new)>(s: seq<T>, wide: T -> bool, narrow: T -> bool)
    requires forall x :: x in s && narrow(x) ==> wide(x)
    ensures Find(Find(s, wide), narrow) == Find(s, narrow)
  {
    if s != [] {
      assert forall x :: x in s[1..] ==> x in s;
      FindNarrowed(s[1..], wide, narrow);
      if wide(s[0]) {
        assert Find(s, wide) == [s[0]] + Find(s[1..], wide);
        assert Find(s, wide)[1..] == Find(s[1..], wide);
      } else {
        assert s[0] in s;
      }
    }
  }

  /** The index of the first document matching `query`, if any. */
  function FindIndex<T(!new)>(s: seq<T>, query: T -> bool): (r: Option<nat>)
    ensures r.Some? ==> r.value < |s| && query(s[r.value])
    ensures r.Some? ==> forall j :: 0 <= j < r.value ==> !query(s[j])
    ensures r.None? <==> forall x :: x in s ==> !query(x)
  {
    if s == [] then None
    else if query(s[0]) then Some(0)
    else match FindIndex(s[1..], query)
      case None => None
      case Some(i) => Some(i + 1)
  }

  /** `findOne(query)`: the first matching document, or none. */
  function FindOne<T(!new)>(s: seq<T>, query: T -> bool): (r: Option<T>)
    ensures r.Some? ==> r.value in s && query(r.value)
    ensures r.Some? ==> FindIndex(s, query).Some? && r.value == s[FindIndex(s, query).value]
    ensures r.None? <==> forall x :: x in s ==> !query(x)
  {
    match FindIndex(s, query)
    case None => None
    case Some(i) => Some(s[i])
  }

  /** Whether at most one document matches `query` (what a unique index would guarantee). */
  ghost predicate AtMostOneMatch<T(!new)>(s: seq<T>, query: T -> bool)
  {
    forall i, j :: 0 <= i < j < |s| && query(s[i]) ==> !query(s[j])
  }

  datatype DeleteResult<T> = DeleteResult(docs: seq<T>, deletedCount: nat)

  /** `deleteOne(query)`: removes the first match; `deletedCount` says whether one was removed. */
  function DeleteOne<T(!new)>(s: seq<T>, query: T -> bool): (r: DeleteResult<T>)
    ensures r.deletedCount <= 1 && |r.docs| + r.deletedCount == |s|
    ensures r.deletedCount == 1 <==> exists x :: x in s && query(x)
    ensures r.deletedCount == 0 ==> r.docs == s
    ensures multiset(r.docs) <= multiset(s)
    ensures forall x :: x in s && !query(x) ==> x in r.docs
    ensures AtMostOneMatch(s, query) ==> forall x :: x in r.docs ==> !query(x)
    ensures r.deletedCount == 1 ==>
      var i := FindIndex(s, query).value;
      r.docs == s[..i] + s[i + 1..]
  {
    match FindIndex(s, query)
    case None => DeleteResult(s, 0)
    case Some(i) =>
      assert s == s[..i] + [s[i]] + s[i + 1..];
      var rest := s[..i] + s[i + 1..];
      assert forall x :: x in s && x != s[i] ==> x in rest;
      assert forall k :: 0 <= k < |rest| ==> rest[k] == if k < i then s[k] else s[k + 1];
      DeleteResult(rest, 1)
  }

  datatype UpdateResult<T> = UpdateResult(docs: seq<T>, matchedCount: nat, modifiedCount: nat)

  /**
   * `updateOne(query, update)`: applies `update` to the first match.
   * The store counts the document as modified only when the update changed it.
   */
  function UpdateOne<T(==,!new)>(s: seq<T>, query: T -> bool, update: T -> T): (r: UpdateResult<T>)
    ensures |r.docs| == |s| && r.modifiedCount <= r.matchedCount <= 1
    ensures r.matchedCount == 0 <==> forall x :: x in s ==> !query(x)
    ensures r.matchedCount == 0 ==> r.docs == s
    ensures r.matchedCount == 1 ==>
      var i := FindIndex(s, query).value;
      r.docs == s[i := update(s[i])]
    ensures r.modifiedCount == 0 <==> r.docs == s
  {
    match FindIndex(s, query)
    case None => UpdateResult(s, 0, 0)
    case Some(i) =>
      var doc := update(s[i]);
      assert doc == s[i] ==> s[i := doc] == s;
      assert doc != s[i] ==> s[i := doc][i] != s[i];
      UpdateResult(s[i := doc], 1, if doc == s[i] then 0 else 1)
  }

  /** The documents of an ordered bulk insert that reached the store. */
  function Landed<T>(docs: seq<T>, outcome: BatchOutcome): (r: seq<T>)
    ensures outcome.Written? ==> r == docs
    ensures outcome.Aborted? ==> |r| == if outcome.written < |docs| then outcome.written else |docs|
    ensures r == docs[..|r|]
  {
    match outcome
    case Written => docs
    case Aborted(_, k) => if k < |docs| then docs[..k] else docs
  }

  /** `list.map(f)`. */
  function Map<T(!new), U>(s: seq<T>, f: T -> U): (r: seq<U>)
    ensures |r| == |s|
    ensures forall i :: 0 <= i < |s| ==> r[i] == f(s[i])
    ensures forall x :: x in s ==> f(x) in r
  {
    seq(|s|, i requires 0 <= i < |s| => f(s[i]))
  }
}
