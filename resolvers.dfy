/** The resolvers of todoql/authorResolvers.go over an in-memory store holding
    the author and todo collections. */
module Resolvers {
  import opened Models
  import opened Queries
  import opened Loader

  /** The composite result of the get-author-and-todos queries. */
  datatype AuthorAndTodos = AuthorAndTodos(author: Author, todos: seq<AuthorTodo>)

  /** The field document of a `$set` update operator. */
  datatype SetFields = SetText(text: string) | SetDone(done: bool)

  const SetOperator := "$set"

  /** Builds the update document of the update resolver, operator by operator.
      Both optional fields are written under the same `$set` key, so when both
      are given the `done` document replaces the `text` one. */
  method BuildUpdate(text: Option<string>, done: Option<bool>) returns (update: map<string, SetFields>)
    ensures SetOperator in update <==> text.Some? || done.Some?
    ensures update.Keys <= {SetOperator}
    ensures done.Some? ==> update[SetOperator] == SetDone(done.value)
    ensures done.None? && text.Some? ==> update[SetOperator] == SetText(text.value)
  {
    update := map[];
    if text.Some? {
      update := update[SetOperator := SetText(text.value)];
    }
    if done.Some? {
      update := update[SetOperator := SetDone(done.value)];
    }
  }

  /** A `$set` update applied to one stored todo. */
  function ApplyUpdate(t: AuthorTodo, update: map<string, SetFields>): AuthorTodo {
    if SetOperator !in update then t
    else match update[SetOperator]
      case SetText(x) => t.(text := x)
      case SetDone(d) => t.(done := d)
  }

  /** Stored identifiers are generated by the store: never nil, never shared. */
  ghost predicate DistinctTodoIds(todos: seq<AuthorTodo>) {
    && (forall i :: 0 <= i < |todos| ==> todos[i].id != NilObjectId)
    && (forall i, j :: 0 <= i < j < |todos| ==> todos[i].id != todos[j].id)
  }

  ghost predicate DistinctAuthorIds(authors: seq<Author>) {
    && (forall i :: 0 <= i < |authors| ==> authors[i].id != NilObjectId)
    && (forall i, j :: 0 <= i < j < |authors| ==> authors[i].id != authors[j].id)
  }

  /** Removing the todo at `i` removes exactly the records with its identifier,
      keeps the identifiers distinct, and leaves nothing a second delete of the
      same identifier could find. */
  lemma DeleteRemovesOnlyTarget(todos: seq<AuthorTodo>, i: nat)
    requires DistinctTodoIds(todos) && i < |todos|
    ensures DistinctTodoIds(todos[..i] + todos[i + 1..])
    ensures forall t :: t in todos[..i] + todos[i + 1..] <==> t in todos && t.id != todos[i].id
    ensures FirstIndex(todos[..i] + todos[i + 1..], HasTodoId(todos[i].id)) == None
  {
    var rest := todos[..i] + todos[i + 1..];
    assert forall k :: 0 <= k < |rest| ==> rest[k] == todos[if k < i then k else k + 1];
    forall t | t in todos && t.id != todos[i].id
      ensures t in rest
    {
      var k :| 0 <= k < |todos| && todos[k] == t;
      assert k != i;
      assert rest[if k < i then k else k - 1] == t;
    }
  }

  /** The store: the author collection and the todo collection, in insertion
      order, and the driver's identifier conversion. */
  class TodoStore {
    const codec: HexCodec
    var authors: seq<Author>
    var todos: seq<AuthorTodo>

    ghost predicate Valid()
      reads this
    {
      DistinctAuthorIds(authors) && DistinctTodoIds(todos)
    }

    constructor (codec: HexCodec)
      ensures Valid()
      ensures this.codec == codec && authors == [] && todos == []
    {
      this.codec := codec;
      authors := [];
      todos := [];
    }

    /** createAuthor: inserts the author under the identifier the store
        generates (`newId`) and returns the local record, whose identifier is
        still nil. */
    method CreateAuthor(name: string, newId: ObjectId) returns (r: Author)
      requires Valid()
      requires newId != NilObjectId && forall a :: a in authors ==> a.id != newId
      modifies this
      ensures Valid()
      ensures authors == old(authors) + [Author(newId, name)] && todos == old(todos)
      ensures r == Author(NilObjectId, name)
    {
      authors := authors + [Author(newId, name)];
      r := Author(NilObjectId, name);
    }

    /** authorList: every stored author, in store order. */
    method AuthorList() returns (r: seq<Author>)
      ensures r == authors
    {
      r := authors;
    }

    /** getAuthorAndTodos: a missing argument yields nothing, a malformed
        identifier an error, an unknown author the no-documents error;
        otherwise the author and exactly that author's todos, in store order. */
    method GetAuthorAndTodos(authorId: Option<string>) returns (r: Result<Option<AuthorAndTodos>>)
      ensures authorId.None? ==> r == Ok(None)
      ensures authorId.Some? && codec.parse(authorId.value).None? ==> r == Err(InvalidHex(authorId.value))
      ensures authorId.Some? && codec.parse(authorId.value).Some? ==>
        match FirstIndex(authors, HasAuthorId(codec.parse(authorId.value).value))
        case None => r == Err(NoDocuments)
        case Some(k) => r == Ok(Some(AuthorAndTodos(authors[k], TodosOfAuthor(todos, authors[k].id))))
      ensures r.Ok? && r.value.Some? ==>
        && authorId.Some?
        && r.value.value.author in authors
        && Some(r.value.value.author.id) == codec.parse(authorId.value)
        && forall t :: t in r.value.value.todos <==> t in todos && t.authorId == r.value.value.author.id
    {
      if authorId.None? {
        return Ok(None);
      }
      var parsed := codec.parse(authorId.value);
      if parsed.None? {
        return Err(InvalidHex(authorId.value));
      }
      var id := parsed.value;
      var found := FirstIndex(authors, HasAuthorId(id));
      if found.None? {
        return Err(NoDocuments);
      }
      var author := authors[found.value];
      var authorTodos := TodosOfAuthor(todos, id);
      forall t ensures t in authorTodos <==> t in todos && t.authorId == id {
        FilterMembers(todos, HasAuthor(id), t);
      }
      r := Ok(Some(AuthorAndTodos(author, authorTodos)));
    }

    /** createAuthorTodo: stores a todo that is not done, under the generated
        identifier `newId`. A malformed author identifier is not rejected: the
        nil identifier is stored in its place. The returned record carries the
        nil identifier. */
    method CreateAuthorTodo(text: string, authorId: string, newId: ObjectId) returns (r: AuthorTodo)
      requires Valid()
      requires newId != NilObjectId && forall t :: t in todos ==> t.id != newId
      modifies this
      ensures Valid()
      ensures todos == old(todos) + [AuthorTodo(newId, text, false, codec.ParseOrNil(authorId))]
      ensures authors == old(authors)
      ensures r == AuthorTodo(NilObjectId, text, false, codec.ParseOrNil(authorId))
      ensures !r.done && r.text == text
      ensures codec.parse(authorId).None? ==> todos[|todos| - 1].authorId == NilObjectId
    {
      var authorHexId := codec.ParseOrNil(authorId);
      todos := todos + [AuthorTodo(newId, text, false, authorHexId)];
      r := AuthorTodo(NilObjectId, text, false, authorHexId);
    }

    /** updateAuthorTodo: with neither field given, nothing happens and nothing
        is returned. Otherwise the first todo with the (parsed, or nil)
        identifier gets the update, where `done` wins over `text`, and is
        returned; when no todo has that identifier the store is unchanged and
        the re-fetch reports no documents. */
    method UpdateAuthorTodo(text: Option<string>, done: Option<bool>, id: string)
      returns (r: Result<Option<AuthorTodo>>)
      requires Valid()
      modifies this
      ensures Valid()
      ensures authors == old(authors)
      ensures text.None? && done.None? ==> r == Ok(None) && todos == old(todos)
      ensures text.Some? || done.Some? ==>
        match FirstIndex(old(todos), HasTodoId(codec.ParseOrNil(id)))
        case None => r == Err(NoDocuments) && todos == old(todos)
        case Some(i) =>
          && todos == old(todos)[i := if done.Some? then old(todos)[i].(done := done.value)
                                       else old(todos)[i].(text := text.value)]
          && r == Ok(Some(todos[i]))
      ensures (text.Some? || done.Some?) && codec.parse(id).None? ==> r == Err(NoDocuments) && todos == old(todos)
    {
      var idHex := codec.ParseOrNil(id);
      if text.None? && done.None? {
        return Ok(None);
      }
      var update := BuildUpdate(text, done);
      var target := FirstIndex(todos, HasTodoId(idHex));
      if target.Some? {
        todos := todos[target.value := ApplyUpdate(todos[target.value], update)];
      }
      var found := FirstIndex(todos, HasTodoId(idHex));
      if found.None? {
        r := Err(NoDocuments);
      } else {
        assert found == target;
        r := Ok(Some(todos[found.value]));
      }
    }

    /** deleteAuthorTodo: a malformed identifier is an error and changes
        nothing; an identifier no todo has is the not-found error; otherwise
        exactly that todo is removed. */
    method DeleteAuthorTodo(id: string) returns (r: Result<()>)
      requires Valid()
      modifies this
      ensures Valid()
      ensures authors == old(authors)
      ensures codec.parse(id).None? ==> r == Err(InvalidHex(id)) && todos == old(todos)
      ensures codec.parse(id).Some? ==>
        match FirstIndex(old(todos), HasTodoId(codec.parse(id).value))
        case None => r == Err(TodoNotFound(id)) && todos == old(todos)
        case Some(i) => r == Ok(()) && todos == old(todos)[..i] + old(todos)[i + 1..]
      ensures r.Ok? ==> forall t :: t in todos <==> t in old(todos) && Some(t.id) != codec.parse(id)
      ensures r.Ok? ==> FirstIndex(todos, HasTodoId(codec.parse(id).value)) == None
    {
      var parsed := codec.parse(id);
      if parsed.None? {
        return Err(InvalidHex(id));
      }
      var found := FirstIndex(todos, HasTodoId(parsed.value));
      if found.None? {
        return Err(TodoNotFound(id));
      }
      DeleteRemovesOnlyTarget(todos, found.value);
      todos := todos[..found.value] + todos[found.value + 1..];
      r := Ok(());
    }

    /** findTodosByAuthorName: a missing name yields nothing; a name no author
        has is the no-documents error; otherwise exactly the todos of the first
        author with that name, in store order. */
    method FindTodosByAuthorName(name: Option<string>) returns (r: Result<Option<seq<AuthorTodo>>>)
      ensures name.None? ==> r == Ok(None)
      ensures name.Some? ==>
        match FirstIndex(authors, HasName(name.value))
        case None => r == Err(NoDocuments)
        case Some(k) => r == Ok(Some(TodosOfAuthor(todos, authors[k].id)))
      ensures r.Ok? && r.value.Some? ==>
        exists a :: a in authors && a.name == name.value &&
          (forall t :: t in r.value.value <==> t in todos && t.authorId == a.id)
    {
      if name.None? {
        return Ok(None);
      }
      var found := FirstIndex(authors, HasName(name.value));
      if found.None? {
        return Err(NoDocuments);
      }
      var author := authors[found.value];
      var authorTodos := TodosOfAuthor(todos, author.id);
      forall t ensures t in authorTodos <==> t in todos && t.authorId == author.id {
        FilterMembers(todos, HasAuthor(author.id), t);
      }
      r := Ok(Some(authorTodos));
    }

    /** The loader-backed variant of getAuthorAndTodos. `loaded` is what the
        loader resolved for the key. The load's error is checked before the
        identifier is parsed; the todos returned are the loaded ones. */
    method GetAuthorAndTodosBatched(authorId: Option<string>, loaded: LoadResult)
      returns (r: Result<Option<AuthorAndTodos>>)
      ensures authorId.None? ==> r == Ok(None)
      ensures authorId.Some? && loaded.error.Some? ==> r == Err(loaded.error.value)
      ensures authorId.Some? && loaded.error.None? && codec.parse(authorId.value).None? ==>
        r == Err(InvalidHex(authorId.value))
      ensures authorId.Some? && loaded.error.None? && codec.parse(authorId.value).Some? ==>
        match FirstIndex(authors, HasAuthorId(codec.parse(authorId.value).value))
        case None => r == Err(NoDocuments)
        case Some(k) => r == Ok(Some(AuthorAndTodos(authors[k], loaded.data)))
    {
      if authorId.None? {
        return Ok(None);
      }
      if loaded.error.Some? {
        return Err(loaded.error.value);
      }
      var parsed := codec.parse(authorId.value);
      if parsed.None? {
        return Err(InvalidHex(authorId.value));
      }
      var found := FirstIndex(authors, HasAuthorId(parsed.value));
      if found.None? {
        return Err(NoDocuments);
      }
      r := Ok(Some(AuthorAndTodos(authors[found.value], loaded.data)));
    }
  }
}
