# Referential integrity of the users / posts / comments data-access layer

This project models the data-access layer of a small HTTP service that keeps
accounts ("users"), posts and comments in three document collections. A post
names its account through `userId` and a comment names its post through
`postId`. The document store enforces neither link, so the controllers are
the only place where referential integrity lives. The model replaces the
store with an in-memory object holding three sequences. Sequence order stands
for the store's iteration order, and "the first match" of `findOne`,
`updateOne` and `deleteOne` is the match at the lowest index.

Modules:

- `Types` (`types.dfy`): the `User`, `Post` and `Comment` records without the
  store's `_id`, the account patch, the nested read's result, the error
  outcomes, a fetched seed list and the store's verdict on one bulk insert.
- `Collection` (`collection.dfy`): the store calls the controllers make
  (`find`, `findOne`, `deleteMany`, `deleteOne`, `updateOne`, ordered bulk
  insert, `Array.map`) as functions on sequences.
- `Decimal` (`decimal.dfy`): the `^\d+$` id pattern, `Number(...)` of a digit
  string, and the decimal text of a whole number.
- `Database` (`database.dfy`): the `Store` class with three sequence fields,
  the query documents, and the integrity predicates. `UniqueUserIds` says no
  two accounts share an id. `Consistent` says every post names a stored
  account and every comment names a stored post.
- `UserController` (`user_controller.dfy`) and `PostController`
  (`post_controller.dfy`): the controllers. Each one is a method that takes
  the store as an explicit parameter `db` and updates its collections in
  place. The nested read only reads, so it is a function that `reads db`.

Each store call is one atomic step. Errors thrown by the controllers are
`Err(...)` results.

Two behaviours of the code are worth stating up front, because a reader
might expect otherwise:

- The nested read returns `null` (`Ok(None)`) for a missing account
  (src/controllers/user.ts:133-135). It does not fail with `NOT_FOUND`.
- The seed import has no duplicate-key check and no error of its own when an account id is already stored
  (src/controllers/user.ts:174-185).
  Loading the same feed twice stores every selected account twice
  (`RepeatedLoadDuplicatesAccounts`). No unique index is created anywhere, so
  duplicate account ids can exist. For that reason the cascade's "no account
  with that id remains" holds only under `UniqueUserIds`.
- Post ids are not unique either, and the cascade selects comments by post
  id alone (src/controllers/user.ts:60). A comment on another account's post
  that shares an id with one of the deleted account's posts is deleted too.

## Model

| member | source | states |
|---|---|---|
| `Collection.Find` | src/controllers/user.ts:56 | `find(...).toArray()` returns at most the collection's documents: exactly the stored documents that match the query. |
| `Collection.DeleteMany` | src/controllers/user.ts:60-63 | After `deleteMany` a document remains exactly when it was stored and does not match. The result is empty exactly when every document matched. |
| `Collection.DeleteManyPartition` | src/controllers/user.ts:60-63 | `deleteMany` loses nothing but the matches: the remaining documents and the matched ones together are the old collection as a multiset. |
| `Collection.FindNarrowed` | src/controllers/user.ts:140-147 | Filtering a `find` result with a stricter predicate gives what the stricter predicate finds on the whole collection, in the same order. |
| `Collection.FindIndex` | src/controllers/user.ts:11 | The first match: it matches, no earlier document matches, and there is none exactly when nothing matches. |
| `Collection.FindOne` | src/controllers/user.ts:11-15 | `findOne` returns a stored matching document, the one at the first match, and returns nothing exactly when no document matches. |
| `Collection.DeleteOne` | src/controllers/user.ts:66-68 | `deleteOne` removes at most one document. `deletedCount` is 1 exactly when something matched, and then the removed document is the first match: the rest keeps its order. Non-matching documents stay. If at most one document matches, none is left afterwards. |
| `Collection.UpdateOne` | src/controllers/post.ts:20-22 | `updateOne` rewrites only the first match. `modifiedCount` is 0 exactly when the collection is unchanged. |
| `Decimal.Show` | src/controllers/user.ts:38 | The decimal text of an id matches `^\d+$` and has no leading zero unless it is `"0"`. |
| `Decimal.ValueOfShow` | src/controllers/user.ts:122-132 | Every id's decimal text passes the id pattern, and `Number` of that text is the id again. |
| `Decimal.ValueIgnoresLeadingZero` | src/controllers/user.ts:132 | `Number` ignores leading zeros, so `"007"` and `"7"` name the same account. |
| `Database.UserIds` | src/controllers/user.ts:163 | The mapped account ids are exactly the ids of the given accounts. |
| `Database.PostIds` | src/controllers/user.ts:168 | The mapped post ids are exactly the ids of the given posts. |
| `Database.FindUserIffHasUser` | src/controllers/user.ts:11-15 | An account lookup by id succeeds exactly when an account with that id is stored, and returns an account with that id. |
| `Database.UniqueIdsMatchOnce` | src/controllers/user.ts:66 | With unique account ids, a `{ id }` query has at most one match. |
| `UserController.MergeIsShallow` | src/controllers/user.ts:17-20 | For each of the eight fields, a field the patch names takes the patch's value and every other field keeps the stored value. An empty patch changes nothing. Applying a patch twice equals applying it once. |
| `UserController.FullPatchReplaces` | src/controllers/user.ts:17-20 | A patch that names every field gives the same account whatever was stored. |
| `UserController.PostUserById` | src/controllers/user.ts:7-21 | `NOT_FOUND` when no account has the id, with the store unchanged. Otherwise the first account with that id is replaced by the merge. The returned account is exactly the stored one. Posts and comments are untouched. |
| `UserController.MergeUpdateKeepsIntegrity` | src/controllers/user.ts:18 | A patch with no id, or with the target's own id, keeps account ids unique and every post attached to an account. |
| `UserController.InsertUser` | src/controllers/user.ts:23-39 | A falsy id gives `INVALID_USER_DATA` and leaves the store unchanged. A stored id gives `USER_EXISTS` and leaves the store unchanged. Otherwise exactly that account is appended, with the confirmation message. |
| `UserController.InsertKeepsIntegrity` | src/controllers/user.ts:31-37 | An insert that passed the duplicate check keeps account ids unique and all links intact. |
| `UserController.PostIdsOf` | src/controllers/user.ts:56-57 | The collected post ids are exactly the ids of the posts the account owns. |
| `UserController.CascadeDelete` | src/controllers/user.ts:55-66 | Afterwards no post of the account remains, and exactly the other posts stay. No comment whose post id is one of the account's post ids remains; every other comment stays, with the same number of copies. Only the account's posts are lost. Other accounts stay. When an account has the id, exactly the first such account is removed and the rest keep their order. With unique ids, no account with that id remains. |
| `UserController.DeleteUserById` | src/controllers/user.ts:41-69 | `NOT_FOUND` with all three collections unchanged when no account has the id. Otherwise the cascade runs in order and the result is `true`. The result is true exactly when one account record was removed. |
| `UserController.CascadeKeepsIntegrity` | src/controllers/user.ts:55-66 | A store without dangling references has none after the cascade. |
| `UserController.SecondDeleteNotFound` | src/controllers/user.ts:49-53 | With unique ids, a second delete of the same id finds no account, so it reports `NOT_FOUND` instead of mutating again. Ids stay unique. |
| `UserController.DeleteAllUsers` | src/controllers/user.ts:71-85 | Comments, posts and users all end up empty. On an empty store nothing changes. |
| `UserController.CommentsOfEachPost` | src/controllers/user.ts:140-147 | Narrowing the comments fetched for all of an account's posts to one of those posts gives exactly that post's stored comments, in store order. |
| `UserController.GetUserWithPostsAndComments` | src/controllers/user.ts:121-150 | An id failing `^\d+$` gives `INVALID_ID` whatever the store holds. A valid id gives a result, never an error: `null` when no account has it, and otherwise the first account with that id and exactly its posts in store order, possibly none. Each post carries exactly the stored comments with its id, in store order. |
| `UserController.EveryAccountIsReachable` | src/controllers/user.ts:122-135 | Every stored account is found through its decimal id. With unique ids the read returns that very account. |
| `UserController.Seed` | src/controllers/user.ts:160-172 | The selected accounts are the first ten fetched ones, or all of them when fewer were fetched. The selected posts are every fetched post of a selected account, each copy kept, and no other. The selected comments are every fetched comment on a selected post, each copy kept, and no other. The selected subset is referentially closed. |
| `UserController.Reported` | src/controllers/user.ts:189-192 | The rethrown message is the original one, or `Unknown error occurred` when that is empty. It is never empty. |
| `UserController.OrderedLoadKeepsIntegrity` | src/controllers/user.ts:174-185 | Inserting a closed subset parents first keeps a consistent store consistent, whichever prefix of each batch landed. |
| `UserController.InsertUserData` | src/controllers/user.ts:152-193 | A failed fetch rethrows its message and leaves the store unchanged. Otherwise the accounts, posts and comments batches run in that order. A batch after an aborted one is never sent, and nothing is rolled back. The store stays consistent whatever the outcome. |
| `UserController.RepeatedLoadDuplicatesAccounts` | src/controllers/user.ts:174-177 | There is no duplicate check: loading the same non-empty feed twice breaks account-id uniqueness. |
| `PostController.UpdatePost` | src/controllers/post.ts:4-25 | `POST_NOT_FOUND` when no post has the id. Not-found is checked before ownership. `UNAUTHORIZED_USER` when the stored owner differs. Otherwise the first post with the id becomes the submitted post. `UPDATE_FAILED` exactly when that write changed nothing. Posts with another id are never changed. Every error leaves the store unchanged. |
| `PostController.FindPostIffHasPost` | src/controllers/post.ts:9-13 | A post lookup by id succeeds exactly when a post with that id is stored. |
| `PostController.OwnedUpdateKeepsIntegrity` | src/controllers/post.ts:15-20 | An owner-checked overwrite changes no post with another id and keeps every link intact. |

## Left out

- The external seed feed (`fetchJson`) is not modelled. It performs network I/O. The three fetched lists come in as `Feed` parameters: a list, or the message of the fetch's failure.
- The outcome of each `bulkWrite` is a parameter. The model does not derive which batches the store or its driver rejects; for example, the driver refuses an empty batch. It covers only what the controller does with each outcome.
- The non-bulk store calls (`find`, `findOne`, `insertOne`, `updateOne`, `deleteOne`, `deleteMany`) always succeed in the model. Connection failures belong to the store client, which is not part of this model.
- HTTP dispatch, request-body parsing and the mapping of errors to status codes (`src/router.ts`) are not modelled. They are I/O plumbing. The dispatcher's check that the URL id and body id match is not a precondition of `PostUserById`. `MergeUpdateKeepsIntegrity` states what that check buys.
- Store connection setup and server start-up (`src/db.ts`, `src/index.ts`) are not modelled. They are lifecycle code around a foreign library.
- Concurrency between requests is not modelled. Every operation runs sequentially.
- Ids are naturals. An absent or falsy account id is represented as 0, which takes the same branch in `insertUser`.
- JavaScript's `Number` coercion of non-numeric text (NaN) is not modelled. `deleteUserById` and `postUserById` take a numeric id.
- Floating-point rounding of ids above 2^53 is not modelled. `Number` of a digit string is its exact value.
- The bodies of `insertUser` and `updatePost` are full records. The body of `postUserById` is a patch whose present fields carry typed values; a `null` field is not modelled. Extra JSON fields are not modelled.
- The store's `_id` field is not modelled, and neither are indexes.
- The type `UserWithPostsAndComments` (src/models/types/User.ts:30-32) omits `userId` from posts and `postId` from comments, but the nested read is not annotated with it. The code spreads the full records, and so does the model.
