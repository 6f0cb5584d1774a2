# AuthorTodo graph query backend — verified model of the resolver core

This project models the core of a small graph query backend that manages
authors and their todo items over a document store. It covers
`todoql/authorResolvers.go`, which has two parts:

- **The batch function behind the todos loader** (`batchLoadTodosByAuthorIDs`).
  It receives a list of author-key strings. It parses each key to a store
  identifier and skips the keys that do not parse. It fetches the matching
  todos in one store round trip. It groups the fetched todos by the hex form of
  their author identifier. It returns one result per key, in key order.
- **The resolvers** (create author, list authors, get author and todos, create,
  update and delete a todo, find todos by author name, and the loader-backed
  get author and todos). They run against an in-memory store: a `TodoStore`
  class that holds the author collection and the todo collection as sequences
  in insertion order.

Modules:

- `Models` (`models.dfy`): the `Author` and `AuthorTodo` records, the 12-byte
  `ObjectId`, the error and result types, and `HexCodec`. `HexCodec` is the
  driver's hex parse/print pair, kept abstract. Its one law, `Lawful`, says
  that parsing the printed form of an identifier gives that identifier back.
- `Queries` (`queries.dfy`): the in-memory meaning of the store's queries. A
  find returns the matching records in store order (`Filter`). A find-one
  returns the first match (`FirstIndex`).
- `Loader` (`loader.dfy`): the batch function, with its specification and the
  lemmas about it.
- `Resolvers` (`resolvers.dfy`): the update document builder and the
  `TodoStore` class with one method per resolver.
- `Scenarios` (`scenarios.dfy`): properties that relate several calls.

In these places the code does something its names or schema do not suggest; the model follows the code:

- A created todo or author is returned with the nil identifier. The resolver
  returns its local record, and the store's generated identifier is dropped.
- Creating a todo with a malformed author identifier is not an error. The nil
  identifier is stored as the author.
- Updating a todo with a malformed identifier is not a parse error. The update
  filters on the nil identifier, matches nothing, and the re-fetch then reports
  "no documents".
- When both `text` and `done` are given, only `done` is written. The second
  `$set` entry replaces the first.
- A failed batched fetch is only logged. Every key gets empty data and no
  error; the failure is not passed on to the callers.
- The loader groups by the printed form of the author identifier and looks up
  the raw key. A key that parses but is not in printed form, such as an
  upper-case spelling, therefore gets an empty result even when its author has
  todos (`Loader.NonCanonicalKeyGetsNothing`).

## Model

| member | source | states |
|---|---|---|
| `Queries.FirstIndex` | todoql/authorResolvers.go:74-76 | A find-one by filter returns the first record that matches, and none when no record matches. |
| `Queries.FilterPositions` | todoql/authorResolvers.go:85-101 | A filtered find returns exactly the matching records: all of them, in store order, and nothing else. |
| `Queries.FilterMembers` | todoql/authorResolvers.go:213-226 | A record is in a filtered find's result if and only if it is stored and matches the filter. |
| `Queries.FilterOfFilter` | todoql/authorResolvers.go:325-328 | Filtering the `$in` fetch again by a second condition equals one filter by both conditions together. |
| `Loader.BatchLoadTodosByAuthorIds` | todoql/authorResolvers.go:236-271 | Returns one result per key, in key order. Result i holds exactly the fetched todos whose author identifier prints as key i, in fetch order, with no error. The fetch receives the parsed keys. A failed fetch gives every key empty data. |
| `Loader.ParseKeys` | todoql/authorResolvers.go:240-249 | The key-parsing loop collects the identifiers of the keys that parse, in key order, skipping the rest. |
| `Loader.GroupStep` | todoql/authorResolvers.go:259 | Appending one fetched todo to the group of its printed author identifier keeps every group equal to the matching todos seen so far, in order. |
| `Loader.GroupByAuthorHex` | todoql/authorResolvers.go:257-260 | After the grouping loop, the group of every key is exactly the fetched todos whose author identifier prints as that key, in fetch order; an absent key stands for the empty group. |
| `Loader.ResultsInKeyOrder` | todoql/authorResolvers.go:262-268 | The result loop returns one result per key, in key order, holding that key's group (empty when absent) and no error. |
| `Loader.ParsedIdsAreParsedKeys` | todoql/authorResolvers.go:240-249 | The identifier list sent to the fetch holds one entry per key that parses, in key order; entry j is the parse of the j-th parsing key. |
| `Loader.ParsedIdsContain` | todoql/authorResolvers.go:241-248 | Every key that parses puts its identifier into the fetched list. |
| `Loader.UnmatchedKeyGetsNothing` | todoql/authorResolvers.go:264-267 | A key that no fetched todo's author prints as gets empty data. |
| `Loader.NonCanonicalKeyGetsNothing` | todoql/authorResolvers.go:258-266 | A key that is not the printed form of its own parse (it fails to parse, or prints differently) gets empty data, whatever was fetched. |
| `Loader.LoadedTodosMatchDirectFind` | todoql/authorResolvers.go:321-340 | `FetchByAuthorIds` is what the `$in` fetch returns when it succeeds: the stored todos whose author is one of the identifiers, in store order. When the store answers the fetch that way, a key in printed form gets exactly the todos a direct find by that author returns, in store order. |
| `Resolvers.BuildUpdate` | todoql/authorResolvers.go:143-151 | The update has a `$set` entry if and only if a field is given. It sets `done` when `done` is given, even if `text` is given too, and sets `text` only when `text` alone is given. |
| `Resolvers.DeleteRemovesOnlyTarget` | todoql/authorResolvers.go:180-194 | Removing one todo removes exactly the records with its identifier, keeps identifiers distinct, and leaves nothing a second delete could find. |
| `Resolvers.TodoStore.CreateAuthor` | todoql/authorResolvers.go:31-44 | Appends the author under the generated identifier. Returns the record with the nil identifier. |
| `Resolvers.TodoStore.AuthorList` | todoql/authorResolvers.go:46-60 | Returns every stored author in store order. |
| `Resolvers.TodoStore.GetAuthorAndTodos` | todoql/authorResolvers.go:61-108 | A missing argument gives nothing. A malformed identifier gives an invalid-hex error. An unknown author gives the no-documents error. Otherwise returns the first author with that identifier and exactly its todos, in store order. |
| `Resolvers.TodoStore.CreateAuthorTodo` | todoql/authorResolvers.go:110-126 | Appends a todo with the given text and `done` false. A malformed author identifier is stored as the nil identifier. The returned record carries the nil identifier. |
| `Resolvers.TodoStore.UpdateAuthorTodo` | todoql/authorResolvers.go:128-167 | With neither field given, the store is unchanged and nothing is returned. Otherwise the first todo with the identifier is updated (only `done` when both are given) and returned. No match means the store is unchanged and the result is the no-documents error, which is always the case for a malformed identifier. |
| `Resolvers.TodoStore.DeleteAuthorTodo` | todoql/authorResolvers.go:169-195 | A malformed identifier gives an invalid-hex error and no change. An identifier that matches no todo gives a not-found error and no change. Otherwise exactly that todo is removed, and all other records stay. |
| `Resolvers.TodoStore.FindTodosByAuthorName` | todoql/authorResolvers.go:197-227 | A missing name gives nothing. A name no author has gives the no-documents error. Otherwise returns exactly the todos of the first author with that name, in store order. |
| `Resolvers.TodoStore.GetAuthorAndTodosBatched` | todoql/authorResolvers.go:274-318 | A missing argument gives nothing. A load error is returned before the identifier is parsed. Then parse and author lookup fail as in the direct variant. Otherwise returns the author with the loaded todos. |
| `Scenarios.BatchedAgreesWithDirect` | todoql/authorResolvers.go:274-318 | For a key in printed form, when the store answers the batch, the loader-backed and direct get-author-and-todos resolvers return the same result. |
| `Scenarios.CreateThenGet` | todoql/authorResolvers.go:110-126 | A todo created for an existing author is among that author's todos when fetched afterwards. |
| `Scenarios.DeleteTwice` | todoql/authorResolvers.go:169-195 | Deleting an existing todo twice succeeds, then reports not found. |

## Left out

- The dataloader library (`NewBatchedLoader`, `Load`, thunks). Its key coalescing, caching and dispatch timing live in a library whose source is not part of this model. `GetAuthorAndTodosBatched` takes the loaded result as a parameter instead.
- The loader is one package-level object shared by all requests (todoql/authorResolvers.go:234, used at :281); it is not created per request. Its cache therefore outlives a request, and after a create, update or delete a later load of the same key can be served stale todos from that cache. The model does not capture this cache. `GetAuthorAndTodosBatched` and `Scenarios.BatchedAgreesWithDirect` describe only a load that the batch function actually answers, that is, the first load of a key.
- Interleaving between store calls. Several resolvers make two separate store calls: `UpdateAuthorTodo` writes (:154) and then re-reads (:161); `GetAuthorAndTodos` finds the author (:76) and then the todos (:88); `GetAuthorAndTodosBatched` loads (:281) and then finds the author (:306); `FindTodosByAuthorName` finds the author (:207) and then the todos (:215). Other requests run concurrently on the same package-level collections (:17-20) and can change the store between those calls (for example, a delete between the update's write and its re-read gives the no-documents error after a successful write). The model runs each of these four methods as one atomic step and does not capture that interleaving.
- The type assertion on the loaded data (todoql/authorResolvers.go:291-295) cannot fail in the typed model, so that error path is not modelled.
- The real hex decoding and printing of identifiers. They are library code and are kept as the abstract `HexCodec` pair.
- Store failures on insert, find, update, delete and cursor decoding. The in-memory collections cannot fail, so the create resolvers return their record with no error branch. Only the batched fetch is an abstract function that may fail.
- Identifier generation by the store. It is a parameter `newId`, and the caller must pass an identifier not yet in the collection.
- Document store query semantics in general. Only the exact-match, `$in` and single-field `$set` forms used here are modelled.
- The arguments that the schema declares non-null and the code reads with the check discarded (`name` of createAuthor, `text` and `authorId` of create, `id` of update and delete) are plain strings. The arguments whose presence the code checks are `Option` values.
- Logging, the HTTP and schema wiring, configuration and client bootstrap.
