/** The in-memory collection semantics that stand in for the document store's
    queries: `Find` with an exact-match filter returns the matching records in
    store order (Filter), `FindOne` returns the first one (FirstIndex). */
module Queries {
  import opened Models

  /** The records of `s` that satisfy `p`, in the order of `s`. */
  function Filter<T>(s: seq<T>, p: T -> bool): (r: seq<T>)
    ensures |r| <= |s|
  {
    if s == [] then []
    else Filter(s[..|s| - 1], p) + (if p(s[|s| - 1]) then [s[|s| - 1]] else [])
  }

  /** The position of the first record of `s` that satisfies `p`, if any. */
  function FirstIndex<T>(s: seq<T>, p: T -> bool): (r: Option<nat>)
    ensures r.None? <==> forall i :: 0 <= i < |s| ==> !p(s[i])
    ensures r.Some? ==> r.value < |s| && p(s[r.value])
    ensures r.Some? ==> forall i :: 0 <= i < r.value ==> !p(s[i])
  {
    if s == [] then None
    else if p(s[0]) then Some(0)
    else match FirstIndex(s[1..], p)
      case None => None
      case Some(i) => Some(i + 1)
  }

  /** Filter keeps exactly the records that satisfy `p`, in their original
      order: `idx` lists their positions in `s`, strictly increasing, and every
      satisfying position is listed. */
  lemma {:induction false} FilterPositions<T>(s: seq<T>, p: T -> bool) returns (idx: seq<nat>)
    ensures |idx| == |Filter(s, p)|
    ensures forall j :: 0 <= j < |idx| ==> idx[j] < |s| && Filter(s, p)[j] == s[idx[j]] && p(s[idx[j]])
    ensures forall j, k :: 0 <= j < k < |idx| ==> idx[j] < idx[k]
    ensures forall i :: 0 <= i < |s| && p(s[i]) ==> i in idx
  {
    if s == [] {
      idx := [];
    } else {
      var n := |s| - 1;
      var front := FilterPositions(s[..n], p);
      assert forall i :: 0 <= i < n ==> s[..n][i] == s[i];
      if p(s[n]) {
        idx := front + [n];
      } else {
        idx := front;
      }
    }
  }

  /** Membership in a filter is membership in the source plus the predicate. */
  lemma FilterMembers<T>(s: seq<T>, p: T -> bool, x: T)
    ensures x in Filter(s, p) <==> x in s && p(x)
  {
    var idx := FilterPositions(s, p);
    if x in s && p(x) {
      var i :| 0 <= i < |s| && s[i] == x;
      assert i in idx;
      var j :| 0 <= j < |idx| && idx[j] == i;
      assert Filter(s, p)[j] == x;
    }
  }

  /** Filtering by `q` and then by `p` is filtering by their conjunction. */
  lemma {:induction false} FilterOfFilter<T>(s: seq<T>, q: T -> bool, p: T -> bool, r: T -> bool)
    requires forall x :: q(x) && p(x) <==> r(x)
    ensures Filter(Filter(s, q), p) == Filter(s, r)
  {
    if s != [] {
      var n := |s| - 1;
      var front := Filter(s[..n], q);
      FilterOfFilter(s[..n], q, p, r);
      if q(s[n]) {
        assert Filter(s, q) == front + [s[n]];
        assert (front + [s[n]])[..|front|] == front;
      } else {
        assert Filter(s, q) == front;
      }
    }
  }

  /** Filter selector for `{"authorId": id}`. */
  function HasAuthor(id: ObjectId): AuthorTodo -> bool {
    (t: AuthorTodo) => t.authorId == id
  }

  /** Filter selector for `{"_id": id}` on the todo collection. */
  function HasTodoId(id: ObjectId): AuthorTodo -> bool {
    (t: AuthorTodo) => t.id == id
  }

  /** Filter selector for `{"_id": id}` on the author collection. */
  function HasAuthorId(id: ObjectId): Author -> bool {
    (a: Author) => a.id == id
  }

  /** Filter selector for `{"name": name}` on the author collection. */
  function HasName(name: string): Author -> bool {
    (a: Author) => a.name == name
  }

  /** The todos a `{"authorId": id}` find returns. */
  function TodosOfAuthor(todos: seq<AuthorTodo>, id: ObjectId): seq<AuthorTodo> {
    Filter(todos, HasAuthor(id))
  }
}
