/** Properties that relate several resolver calls on one store. */
module Scenarios {
  import opened Models
  import opened Loader
  import opened Resolvers

  /** The loader-backed and the direct get-author-and-todos resolvers agree on a
      key in canonical form, when the batch is answered by the store itself and
      the key is one of the batch's keys. This describes a load the batch
      function answers (the first load of the key); a later load served from
      the shared loader's cache is not modelled. */
  method BatchedAgreesWithDirect(store: TodoStore, keys: seq<string>, i: nat)
    returns (direct: Result<Option<AuthorAndTodos>>, batched: Result<Option<AuthorAndTodos>>)
    requires Lawful(store.codec)
    requires i < |keys|
    requires store.codec.parse(keys[i]).Some?
    requires store.codec.hex(store.codec.parse(keys[i]).value) == keys[i]
    ensures direct == batched
    ensures direct.Ok? || direct == Err(NoDocuments)
  {
    var all := store.todos;
    var results := BatchLoadTodosByAuthorIds(store.codec, ids => Ok(FetchByAuthorIds(all, ids)), keys);
    LoadedTodosMatchDirectFind(store.codec, all, keys, i);
    direct := store.GetAuthorAndTodos(Some(keys[i]));
    batched := store.GetAuthorAndTodosBatched(Some(keys[i]), results[i]);
  }

  /** A todo created for an existing author is among the todos the
      get-author-and-todos resolver returns for that author afterwards. */
  method CreateThenGet(store: TodoStore, text: string, authorId: string, newId: ObjectId)
    returns (created: AuthorTodo, got: Result<Option<AuthorAndTodos>>)
    requires store.Valid()
    requires newId != NilObjectId && forall t :: t in store.todos ==> t.id != newId
    requires store.codec.parse(authorId).Some?
    requires exists a :: a in store.authors && a.id == store.codec.parse(authorId).value
    modifies store
    ensures got.Ok? && got.value.Some?
    ensures AuthorTodo(newId, text, false, store.codec.parse(authorId).value) in got.value.value.todos
    ensures created == AuthorTodo(NilObjectId, text, false, store.codec.parse(authorId).value)
  {
    created := store.CreateAuthorTodo(text, authorId, newId);
    got := store.GetAuthorAndTodos(Some(authorId));
    assert store.todos[|store.todos| - 1] == AuthorTodo(newId, text, false, store.codec.parse(authorId).value);
  }

  /** Deleting the same todo twice succeeds and then reports not found. */
  method DeleteTwice(store: TodoStore, id: string) returns (first: Result<()>, second: Result<()>)
    requires store.Valid()
    requires store.codec.parse(id).Some?
    requires exists t :: t in store.todos && t.id == store.codec.parse(id).value
    modifies store
    ensures first == Ok(())
    ensures second == Err(TodoNotFound(id))
  {
    first := store.DeleteAuthorTodo(id);
    second := store.DeleteAuthorTodo(id);
  }
}
