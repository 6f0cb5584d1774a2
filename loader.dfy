/** The batch function behind the todos loader (todoql/authorResolvers.go,
    batchLoadTodosByAuthorIDs and fetchTodosByAuthorIDs): one store fetch for
    all requested author keys, grouped by the todo's hex author identifier and
    handed back one result per key, in key order. */
module Loader {
  import opened Models
  import opened Queries

  /** One loader result: the data for a key and its error (always absent here). */
  datatype LoadResult = LoadResult(data: seq<AuthorTodo>, error: Option<Error>)

  /** The identifiers of the keys that parse, in key order; keys that do not
      parse are skipped. */
  function ParsedIds(codec: HexCodec, keys: seq<string>): seq<ObjectId> {
    if keys == [] then []
    else
      var n := |keys| - 1;
      ParsedIds(codec, keys[..n]) + (match codec.parse(keys[n]) case Some(id) => [id] case None => [])
  }

  /** Filter selector for "the key parses". */
  function Parses(codec: HexCodec): string -> bool {
    (k: string) => codec.parse(k).Some?
  }

  /** Filter selector for "the todo's author identifier prints as `key`". */
  function HasAuthorHex(hex: ObjectId -> string, key: string): AuthorTodo -> bool {
    (t: AuthorTodo) => hex(t.authorId) == key
  }

  /** The todos of `fetched` grouped under `key`, in fetch order. */
  function TodosWithAuthorHex(hex: ObjectId -> string, fetched: seq<AuthorTodo>, key: string): seq<AuthorTodo> {
    Filter(fetched, HasAuthorHex(hex, key))
  }

  /** Filter selector for `{"authorId": {"$in": ids}}`. */
  function AuthorIn(ids: seq<ObjectId>): AuthorTodo -> bool {
    (t: AuthorTodo) => t.authorId in ids
  }

  /** What the batched store fetch returns when it succeeds: the todos whose
      author is one of `ids`, in store order. */
  function FetchByAuthorIds(todos: seq<AuthorTodo>, ids: seq<ObjectId>): seq<AuthorTodo> {
    Filter(todos, AuthorIn(ids))
  }

  /** The todos the grouping pass sees: a failed fetch leaves none. */
  function FetchedOrEmpty(fetched: Result<seq<AuthorTodo>>): seq<AuthorTodo> {
    match fetched
    case Ok(todos) => todos
    case Err(_) => []
  }

  /** Map lookup with the empty group for an absent key. */
  function Lookup(m: map<string, seq<AuthorTodo>>, key: string): seq<AuthorTodo> {
    if key in m then m[key] else []
  }

  /** The key-parsing pass: the identifiers of the keys that parse, in key
      order; a key that does not parse is logged and skipped. */
  method ParseKeys(codec: HexCodec, keys: seq<string>) returns (authorIds: seq<ObjectId>)
    ensures authorIds == ParsedIds(codec, keys)
  {
    authorIds := [];
    for j := 0 to |keys|
      invariant authorIds == ParsedIds(codec, keys[..j])
    {
      assert keys[..j + 1][..j] == keys[..j];
      match codec.parse(keys[j]) {
        case None =>
        case Some(id) => authorIds := authorIds + [id];
      }
    }
    assert keys[..|keys|] == keys;
  }

  /** The grouping pass: a map from printed author identifier to the fetched
      todos of that author, in fetch order; an absent key stands for the empty
      group. */
  method GroupByAuthorHex(hex: ObjectId -> string, todos: seq<AuthorTodo>)
    returns (todosByAuthor: map<string, seq<AuthorTodo>>)
    ensures forall key :: Lookup(todosByAuthor, key) == TodosWithAuthorHex(hex, todos, key)
  {
    todosByAuthor := map[];
    for j := 0 to |todos|
      invariant forall key :: Lookup(todosByAuthor, key) == TodosWithAuthorHex(hex, todos[..j], key)
    {
      var key := hex(todos[j].authorId);
      GroupStep(hex, todosByAuthor, todos[..j], todos[j]);
      assert todos[..j] + [todos[j]] == todos[..j + 1];
      todosByAuthor := todosByAuthor[key := Lookup(todosByAuthor, key) + [todos[j]]];
    }
    assert todos[..|todos|] == todos;
  }

  /** The result pass: one result per key, in key order, holding the key's
      group and no error. */
  method ResultsInKeyOrder(keys: seq<string>, todosByAuthor: map<string, seq<AuthorTodo>>)
    returns (results: seq<LoadResult>)
    ensures |results| == |keys|
    ensures forall i :: 0 <= i < |keys| ==> results[i] == LoadResult(Lookup(todosByAuthor, keys[i]), None)
  {
    results := [];
    for j := 0 to |keys|
      invariant |results| == j
      invariant forall i :: 0 <= i < j ==> results[i] == LoadResult(Lookup(todosByAuthor, keys[i]), None)
    {
      results := results + [LoadResult(Lookup(todosByAuthor, keys[j]), None)];
    }
  }

  /** The batch function. `fetch` is the single store round trip; it is given
      the identifiers of the keys that parse, in key order. Result i holds the
      fetched todos whose author identifier prints as key i, in fetch order,
      and never an error; a failed fetch leaves every key empty. */
  method BatchLoadTodosByAuthorIds(codec: HexCodec, fetch: seq<ObjectId> -> Result<seq<AuthorTodo>>, keys: seq<string>)
    returns (results: seq<LoadResult>)
    ensures |results| == |keys|
    ensures forall i :: 0 <= i < |keys| ==>
      results[i] == LoadResult(TodosWithAuthorHex(codec.hex, FetchedOrEmpty(fetch(ParsedIds(codec, keys))), keys[i]), None)
    ensures fetch(ParsedIds(codec, keys)).Err? ==> forall i :: 0 <= i < |keys| ==> results[i] == LoadResult([], None)
  {
    var authorIds := ParseKeys(codec, keys);
    var todos := FetchedOrEmpty(fetch(authorIds));
    var todosByAuthor := GroupByAuthorHex(codec.hex, todos);
    results := ResultsInKeyOrder(keys, todosByAuthor);
  }

  /** One step of the grouping pass: appending `t` to the group of its author's
      printed identifier keeps every group equal to the filter of the todos
      seen so far. */
  lemma GroupStep(hex: ObjectId -> string, m: map<string, seq<AuthorTodo>>, seen: seq<AuthorTodo>, t: AuthorTodo)
    requires forall key :: Lookup(m, key) == TodosWithAuthorHex(hex, seen, key)
    ensures forall key :: Lookup(m[hex(t.authorId) := Lookup(m, hex(t.authorId)) + [t]], key)
                       == TodosWithAuthorHex(hex, seen + [t], key)
  {
    forall key
      ensures Lookup(m[hex(t.authorId) := Lookup(m, hex(t.authorId)) + [t]], key)
           == TodosWithAuthorHex(hex, seen + [t], key)
    {
      assert (seen + [t])[..|seen|] == seen;
      assert TodosWithAuthorHex(hex, seen + [t], key)
          == TodosWithAuthorHex(hex, seen, key) + (if hex(t.authorId) == key then [t] else []);
    }
  }

  /** The identifiers sent to the fetch are exactly the parsed keys, in key
      order: entry j is the parse of the j-th key that parses. */
  lemma {:induction false} ParsedIdsAreParsedKeys(codec: HexCodec, keys: seq<string>)
    ensures |ParsedIds(codec, keys)| == |Filter(keys, Parses(codec))|
    ensures forall j :: 0 <= j < |ParsedIds(codec, keys)| ==>
      codec.parse(Filter(keys, Parses(codec))[j]) == Some(ParsedIds(codec, keys)[j])
  {
    if keys != [] {
      var n := |keys| - 1;
      ParsedIdsAreParsedKeys(codec, keys[..n]);
    }
  }

  /** Every key that parses contributes its identifier to the fetch. */
  lemma {:induction false} ParsedIdsContain(codec: HexCodec, keys: seq<string>, i: nat)
    requires i < |keys| && codec.parse(keys[i]).Some?
    ensures codec.parse(keys[i]).value in ParsedIds(codec, keys)
  {
    var n := |keys| - 1;
    if i < n {
      assert keys[..n][i] == keys[i];
      ParsedIdsContain(codec, keys[..n], i);
    }
  }

  /** A key that is not the printed form of any identifier (one that does not
      parse, or parses to an identifier printed differently, such as an
      upper-case spelling) is never a group key: its slot is empty whatever
      was fetched. */
  lemma {:induction false} NonCanonicalKeyGetsNothing(codec: HexCodec, fetched: seq<AuthorTodo>, key: string)
    requires Lawful(codec)
    requires codec.parse(key).None? || codec.hex(codec.parse(key).value) != key
    ensures TodosWithAuthorHex(codec.hex, fetched, key) == []
  {
    if fetched != [] {
      var n := |fetched| - 1;
      NonCanonicalKeyGetsNothing(codec, fetched[..n], key);
      var id := fetched[n].authorId;
      assert codec.parse(codec.hex(id)) == Some(id);
    }
  }

  /** A key with no matching fetched todo gets the empty group. */
  lemma {:induction false} UnmatchedKeyGetsNothing(hex: ObjectId -> string, fetched: seq<AuthorTodo>, key: string)
    requires forall t :: t in fetched ==> hex(t.authorId) != key
    ensures TodosWithAuthorHex(hex, fetched, key) == []
  {
    if fetched != [] {
      var n := |fetched| - 1;
      assert forall t :: t in fetched[..n] ==> t in fetched;
      UnmatchedKeyGetsNothing(hex, fetched[..n], key);
    }
  }

  /** When the store answers the fetch faithfully, the slot of a key in
      canonical form holds exactly the todos a direct `{"authorId": id}` find
      returns for that author, in store order. */
  lemma LoadedTodosMatchDirectFind(codec: HexCodec, todos: seq<AuthorTodo>, keys: seq<string>, i: nat)
    requires Lawful(codec)
    requires i < |keys|
    requires codec.parse(keys[i]).Some? && codec.hex(codec.parse(keys[i]).value) == keys[i]
    ensures TodosWithAuthorHex(codec.hex, FetchByAuthorIds(todos, ParsedIds(codec, keys)), keys[i])
         == TodosOfAuthor(todos, codec.parse(keys[i]).value)
  {
    var id := codec.parse(keys[i]).value;
    var ids := ParsedIds(codec, keys);
    ParsedIdsContain(codec, keys, i);
    forall t: AuthorTodo
      ensures AuthorIn(ids)(t) && HasAuthorHex(codec.hex, keys[i])(t) <==> HasAuthor(id)(t)
    {
      if codec.hex(t.authorId) == keys[i] {
        HexInjective(codec, t.authorId, id);
      }
    }
    FilterOfFilter(todos, AuthorIn(ids), HasAuthorHex(codec.hex, keys[i]), HasAuthor(id));
  }
}
