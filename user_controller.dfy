/**
 * The account controller: merge-update, create, cascade delete, delete
 * everything, the nested account/posts/comments read, and the seed import.
 * The process-wide store handle is the explicit parameter `db`.
 */
module UserController {
  import opened Types
  import opened Collection
  import opened Database
  import Decimal

  // ---------------------------------------------------------------------
  // postUserById: shallow merge of the submitted fields over the account.

  function Pick<T>(submitted: Option<T>, stored: T): T
  {
    if submitted.Some? then submitted.value else stored
  }

  /** `{ ...user, ...updatedUser }`, which is also what `$set: updatedUser` stores. */
  function Merge(u: User, patch: UserPatch): User
  {
    User(
      Pick(patch.id, u.id),
      Pick(patch.name, u.name),
      Pick(patch.username, u.username),
      Pick(patch.email, u.email),
      Pick(patch.address, u.address),
      Pick(patch.phone, u.phone),
      Pick(patch.website, u.website),
      Pick(patch.company, u.company))
  }

  const EmptyPatch := UserPatch(None, None, None, None, None, None, None, None)

  /**
   * The merge is shallow and field by field: a field the patch names takes
   * the patch's value, every other field keeps the stored one. An empty patch
   * changes nothing, and merging a patch twice is merging it once.
   */
  lemma MergeIsShallow(u: User, patch: UserPatch)
    ensures var m := Merge(u, patch);
      && m.id == (if patch.id.Some? then patch.id.value else u.id)
      && m.name == (if patch.name.Some? then patch.name.value else u.name)
      && m.username == (if patch.username.Some? then patch.username.value else u.username)
      && m.email == (if patch.email.Some? then patch.email.value else u.email)
      && m.address == (if patch.address.Some? then patch.address.value else u.address)
      && m.phone == (if patch.phone.Some? then patch.phone.value else u.phone)
      && m.website == (if patch.website.Some? then patch.website.value else u.website)
      && m.company == (if patch.company.Some? then patch.company.value else u.company)
    ensures Merge(u, EmptyPatch) == u
    ensures Merge(Merge(u, patch), patch) == Merge(u, patch)
  {
  }

  /** A patch naming every field replaces the account entirely: the stored fields do not show through. */
  lemma FullPatchReplaces(u: User, v: User, patch: UserPatch)
    requires patch.id.Some? && patch.name.Some? && patch.username.Some? && patch.email.Some?
    requires patch.address.Some? && patch.phone.Some? && patch.website.Some? && patch.company.Some?
    ensures Merge(u, patch) == Merge(v, patch)
  {
  }

  /**
   * `postUserById`: looks the account up by id (`NOT_FOUND` when absent),
   * sets the submitted fields on the first account with that id and returns
   * the merged account, which is exactly what was stored.
   */
  method PostUserById(db: Store, userId: nat, updatedUser: UserPatch) returns (r: Result<User>)
    modifies db
    ensures db.posts == old(db.posts) && db.comments == old(db.comments)
    ensures !HasUser(old(db.users), userId) ==> r == Err(NotFound) && db.users == old(db.users)
    ensures HasUser(old(db.users), userId) ==>
      var i := FindIndex(old(db.users), UserIdIs(userId)).value;
      && r == Ok(Merge(old(db.users)[i], updatedUser))
      && db.users == old(db.users)[i := r.value]
  {
    var user := FindOne(db.users, UserIdIs(userId));
    FindUserIffHasUser(db.users, userId);
    if user.None? {
      return Err(NotFound);
    }
    var result := UpdateOne(db.users, UserIdIs(userId), (u: User) => Merge(u, updatedUser));
    db.users := result.docs;
    r := Ok(Merge(user.value, updatedUser));
  }

  /**
   * An update whose body carries no id, or the id of the account it targets
   * (what the dispatcher checks before calling), keeps ids unique and
   * every post attached to an account.
   */
  lemma {:induction false} MergeUpdateKeepsIntegrity(s: Snapshot, i: nat, patch: UserPatch)
    requires i < |s.users|
    requires patch.id.None? || patch.id == Some(s.users[i].id)
    ensures UniqueUserIds(s.users) ==> UniqueUserIds(s.users[i := Merge(s.users[i], patch)])
    ensures Consistent(s) ==> Consistent(s.(users := s.users[i := Merge(s.users[i], patch)]))
  {
    var users := s.users[i := Merge(s.users[i], patch)];
    assert forall k :: 0 <= k < |users| ==> users[k].id == s.users[k].id;
    forall id | HasUser(s.users, id) ensures HasUser(users, id) {
      var u :| u in s.users && u.id == id;
      var k :| 0 <= k < |s.users| && s.users[k] == u;
      assert users[k] in users;
    }
  }

  // ---------------------------------------------------------------------
  // insertUser

  /** The confirmation text `User with id ${user.id} created successfully.` */
  function CreatedMessage(id: nat): string
  {
    "User with id " + Decimal.Show(id) + " created successfully."
  }

  /**
   * `insertUser`: a falsy id is `INVALID_USER_DATA` before the store is
   * touched; an id already stored is `USER_EXISTS`; otherwise the account is
   * appended.
   */
  method InsertUser(db: Store, user: User) returns (r: Result<string>)
    modifies db
    ensures db.posts == old(db.posts) && db.comments == old(db.comments)
    ensures user.id == 0 ==> r == Err(InvalidUserData) && db.users == old(db.users)
    ensures user.id != 0 && HasUser(old(db.users), user.id) ==>
      r == Err(UserExists) && db.users == old(db.users)
    ensures user.id != 0 && !HasUser(old(db.users), user.id) ==>
      r == Ok(CreatedMessage(user.id)) && db.users == old(db.users) + [user]
  {
    if user.id == 0 {
      return Err(InvalidUserData);
    }
    var existingUser := FindOne(db.users, UserIdIs(user.id));
    FindUserIffHasUser(db.users, user.id);
    if existingUser.Some? {
      return Err(UserExists);
    }
    db.users := db.users + [user];
    r := Ok(CreatedMessage(user.id));
  }

  /** Creating an account through `insertUser` keeps ids unique and all links intact. */
  lemma {:induction false} InsertKeepsIntegrity(s: Snapshot, user: User)
    requires !HasUser(s.users, user.id)
    ensures UniqueUserIds(s.users) ==> UniqueUserIds(s.users + [user])
    ensures Consistent(s) ==> Consistent(s.(users := s.users + [user]))
  {
    var users := s.users + [user];
    forall k | 0 <= k < |s.users| ensures s.users[k].id != user.id {
      assert s.users[k] in s.users;
    }
    forall id | HasUser(s.users, id) ensures HasUser(users, id) {
      var u :| u in s.users && u.id == id;
      assert u in users;
    }
  }

  // ---------------------------------------------------------------------
  // deleteUserById

  ghost predicate OwnsPost(posts: seq<Post>, userId: nat, postId: nat)
  {
    exists p :: p in posts && p.userId == userId && p.id == postId
  }

  /** `userPosts.map(post => post.id)` for the posts of `userId`. */
  function PostIdsOf(posts: seq<Post>, userId: nat): (ids: seq<nat>)
    ensures forall id :: id in ids <==> OwnsPost(posts, userId, id)
  {
    var owned := Find(posts, OwnerIs(userId));
    var ids := PostIds(owned);
    assert forall id :: HasPost(owned, id) <==> OwnsPost(posts, userId, id) by {
      forall id ensures HasPost(owned, id) <==> OwnsPost(posts, userId, id) {
        if OwnsPost(posts, userId, id) {
          var p :| p in posts && p.userId == userId && p.id == id;
          assert p in owned;
        }
      }
    }
    ids
  }

  /**
   * Steps 2 to 5 of the cascade: delete the comments on the account's posts,
   * then its posts, then the first account with that id.
   */
  function CascadeDelete(s: Snapshot, userId: nat): (r: Snapshot)
    ensures forall p :: p in r.posts <==> p in s.posts && p.userId != userId
    ensures forall c :: c in r.comments <==> c in s.comments && !OwnsPost(s.posts, userId, c.postId)
    ensures multiset(r.comments) + multiset(Find(s.comments, ParentIn(PostIdsOf(s.posts, userId)))) == multiset(s.comments)
    ensures multiset(r.posts) + multiset(Find(s.posts, OwnerIs(userId))) == multiset(s.posts)
    ensures multiset(r.users) <= multiset(s.users)
    ensures forall u :: u in s.users && u.id != userId ==> u in r.users
    ensures |r.users| == if HasUser(s.users, userId) then |s.users| - 1 else |s.users|
    ensures UniqueUserIds(s.users) ==> !HasUser(r.users, userId)
    ensures HasUser(s.users, userId) ==>
      var i := FindIndex(s.users, UserIdIs(userId)).value;
      r.users == s.users[..i] + s.users[i + 1..]
  {
    var postIds := PostIdsOf(s.posts, userId);
    var comments := DeleteMany(s.comments, ParentIn(postIds));
    var posts := DeleteMany(s.posts, OwnerIs(userId));
    var users := DeleteOne(s.users, UserIdIs(userId)).docs;
    assert multiset(posts) + multiset(Find(s.posts, OwnerIs(userId))) == multiset(s.posts) by {
      DeleteManyPartition(s.posts, OwnerIs(userId));
    }
    assert multiset(comments) + multiset(Find(s.comments, ParentIn(postIds))) == multiset(s.comments) by {
      DeleteManyPartition(s.comments, ParentIn(postIds));
    }
    assert UniqueUserIds(s.users) ==> !HasUser(users, userId) by {
      UniqueIdsMatchOnce(s.users, userId);
    }
    assert HasUser(s.users, userId) <==> FindIndex(s.users, UserIdIs(userId)).Some? by {
      FindUserIffHasUser(s.users, userId);
    }
    Snapshot(users, posts, comments)
  }

  /**
   * `deleteUserById`: `NOT_FOUND` with nothing changed when no account has
   * the id; otherwise the cascade, answering whether one account was removed.
   */
  method DeleteUserById(db: Store, userId: nat) returns (r: Result<bool>)
    modifies db
    ensures !HasUser(old(db.users), userId) ==> r == Err(NotFound) && db.State() == old(db.State())
    ensures HasUser(old(db.users), userId) ==>
      r == Ok(true) && db.State() == CascadeDelete(old(db.State()), userId)
    ensures r.Ok? ==> (r.value <==> |db.users| == |old(db.users)| - 1)
  {
    var user := FindOne(db.users, UserIdIs(userId));
    FindUserIffHasUser(db.users, userId);
    if user.None? {
      return Err(NotFound);
    }
    var postIds := PostIdsOf(db.posts, userId);
    db.comments := DeleteMany(db.comments, ParentIn(postIds));
    db.posts := DeleteMany(db.posts, OwnerIs(userId));
    var result := DeleteOne(db.users, UserIdIs(userId));
    db.users := result.docs;
    r := Ok(result.deletedCount == 1);
  }

  /** The cascade leaves no dangling reference behind in a store that had none. */
  lemma {:induction false} CascadeKeepsIntegrity(s: Snapshot, userId: nat)
    requires Consistent(s)
    ensures Consistent(CascadeDelete(s, userId))
  {
    var r := CascadeDelete(s, userId);
    forall p | p in r.posts ensures HasUser(r.users, p.userId) {
      var u :| u in s.users && u.id == p.userId;
      assert u in r.users;
    }
    forall c | c in r.comments ensures HasPost(r.posts, c.postId) {
      var p :| p in s.posts && p.id == c.postId;
      assert p in r.posts;
    }
  }

  /**
   * With unique account ids the cascade is final: a second delete of the
   * same id finds nothing and reports `NOT_FOUND`, and ids stay unique.
   */
  lemma {:induction false} SecondDeleteNotFound(s: Snapshot, userId: nat)
    requires UniqueUserIds(s.users)
    ensures FindOne(CascadeDelete(s, userId).users, UserIdIs(userId)).None?
    ensures UniqueUserIds(CascadeDelete(s, userId).users)
  {
    var r := CascadeDelete(s, userId);
    FindUserIffHasUser(r.users, userId);
    UniqueIdsStayUnique(s.users, r.users);
  }

  /** Removing accounts cannot create a duplicate id. */
  lemma {:induction false} UniqueIdsStayUnique(before: seq<User>, after: seq<User>)
    requires UniqueUserIds(before)
    requires multiset(after) <= multiset(before)
    ensures UniqueUserIds(after)
  {
    forall i, j | 0 <= i < j < |after| ensures after[i].id != after[j].id {
      if after[i].id == after[j].id {
        var a, b := after[i], after[j];
        assert a in multiset(after) && b in multiset(after);
        if a == b {
          var m := multiset(after);
          assert after == after[..j] + [after[j]] + after[j + 1..];
          assert after[..j] == after[..i] + [after[i]] + after[i + 1..j];
          assert m[a] >= 2 by {
            assert multiset(after) == multiset(after[..i]) + multiset{a} + multiset(after[i + 1..j]) + multiset{b} + multiset(after[j + 1..]);
          }
          assert multiset(before)[a] >= 2;
          DuplicateEntry(before, a);
        }
      }
    }
  }

  /** An element that occurs twice in a sequence occurs at two distinct indices. */
  lemma {:induction false} DuplicateEntry(s: seq<User>, x: User)
    requires multiset(s)[x] >= 2
    ensures exists i, j :: 0 <= i < j < |s| && s[i] == x && s[j] == x
  {
    var i :| 0 <= i < |s| && s[i] == x by {
      assert x in multiset(s);
    }
    var rest := s[..i] + s[i + 1..];
    assert s == s[..i] + [s[i]] + s[i + 1..];
    assert multiset(rest)[x] >= 1;
    var k :| 0 <= k < |rest| && rest[k] == x by {
      assert x in multiset(rest);
    }
    if k < i {
      assert s[k] == x;
    } else {
      assert s[k + 1] == x;
    }
  }

  // ---------------------------------------------------------------------
  // deleteAllUsers

  /** `{}`: the query every document matches. */
  function MatchAll<T>(): T -> bool
  {
    (x: T) => true
  }

  /** `deleteAllUsers`: empties comments, then posts, then users. */
  method DeleteAllUsers(db: Store)
    modifies db
    ensures db.users == [] && db.posts == [] && db.comments == []
  {
    db.comments := DeleteMany(db.comments, MatchAll());
    db.posts := DeleteMany(db.posts, MatchAll());
    db.users := DeleteMany(db.users, MatchAll());
  }

  // ---------------------------------------------------------------------
  // getUserWithPostsAndComments

  /**
   * Narrowing the comments fetched for all of an account's posts to one of
   * those posts gives exactly the stored comments on that post.
   */
  lemma {:induction false} CommentsOfEachPost(comments: seq<Comment>, posts: seq<Post>, p: Post)
    requires p in posts
    ensures Find(Find(comments, ParentIn(PostIds(posts))), ParentIs(p.id)) == Find(comments, ParentIs(p.id))
  {
    assert p.id in PostIds(posts);
    FindNarrowed(comments, ParentIn(PostIds(posts)), ParentIs(p.id));
  }

  /**
   * `getUserWithPostsAndComments`: an id not matching `^\d+$` is
   * `INVALID_ID` whatever the store holds; a missing account is `null`;
   * otherwise the account, its posts in store order, and for each post the
   * stored comments on it in store order.
   */
  function GetUserWithPostsAndComments(db: Store, userId: string): (r: Result<Option<UserView>>)
    reads db
    ensures r == Err(InvalidId) <==> !Decimal.IsDigits(userId)
    ensures Decimal.IsDigits(userId) ==>
      r.Ok? && (r.value.None? <==> !HasUser(db.users, Decimal.Value(userId)))
    ensures r.Ok? && r.value.Some? ==>
      var id := Decimal.Value(userId);
      var view := r.value.value;
      var owned := Find(db.posts, OwnerIs(id));
      && view.user.id == id
      && view.user == db.users[FindIndex(db.users, UserIdIs(id)).value]
      && |view.posts| == |owned|
      && forall i :: 0 <= i < |owned| ==>
           && view.posts[i].post == owned[i]
           && view.posts[i].comments == Find(db.comments, ParentIs(owned[i].id))
  {
    if !Decimal.IsDigits(userId) then Err(InvalidId)
    else
      var id := Decimal.Value(userId);
      FindUserIffHasUser(db.users, id);
      match FindOne(db.users, UserIdIs(id))
      case None => Ok(None)
      case Some(user) =>
        var posts := Find(db.posts, OwnerIs(id));
        var postIds := PostIds(posts);
        var comments := Find(db.comments, ParentIn(postIds));
        var views := Map(posts, (p: Post) => PostView(p, Find(comments, ParentIs(p.id))));
        assert forall i :: 0 <= i < |posts| ==> views[i].comments == Find(db.comments, ParentIs(posts[i].id)) by {
          forall i | 0 <= i < |posts| ensures views[i].comments == Find(db.comments, ParentIs(posts[i].id)) {
            CommentsOfEachPost(db.comments, posts, posts[i]);
          }
        }
        Ok(Some(UserView(user, views)))
  }

  /**
   * Every stored account is reachable through its decimal id; when ids are
   * unique the read returns that very account.
   */
  lemma {:induction false} EveryAccountIsReachable(db: Store, u: User)
    requires u in db.users
    ensures
      var r := GetUserWithPostsAndComments(db, Decimal.Show(u.id));
      && r.Ok? && r.value.Some? && r.value.value.user.id == u.id
      && (UniqueUserIds(db.users) ==> r.value.value.user == u)
  {
    Decimal.ValueOfShow(u.id);
    assert HasUser(db.users, u.id);
    var r := GetUserWithPostsAndComments(db, Decimal.Show(u.id));
    var v := r.value.value.user;
    if UniqueUserIds(db.users) {
      var k :| 0 <= k < |db.users| && db.users[k] == u;
      var l :| 0 <= l < |db.users| && db.users[l] == v;
      assert k == l;
    }
  }

  // ---------------------------------------------------------------------
  // insertUserData

  /** How many fetched accounts the import keeps (`users.slice(0, 10)`). */
  const SeedUserLimit: nat := 10

  /** `users.slice(0, 10)`. */
  function SelectUsers(users: seq<User>): (r: seq<User>)
    ensures |r| == if |users| < SeedUserLimit then |users| else SeedUserLimit
    ensures r == users[..|r|]
  {
    if |users| < SeedUserLimit then users else users[..SeedUserLimit]
  }

  /**
   * The subset the import selects from the three fetched lists: the first
   * accounts, the posts of those accounts, the comments on those posts,
   * each in feed order. The subset is referentially closed.
   */
  function Seed(users: seq<User>, posts: seq<Post>, comments: seq<Comment>): (s: Snapshot)
    ensures s.users == SelectUsers(users)
    ensures forall p :: p in s.posts <==> p in posts && HasUser(s.users, p.userId)
    ensures forall c :: c in s.comments <==> c in comments && HasPost(s.posts, c.postId)
    ensures Consistent(s)
    ensures multiset(s.posts) + multiset(DeleteMany(posts, OwnerIn(UserIds(s.users)))) == multiset(posts)
    ensures multiset(s.comments) + multiset(DeleteMany(comments, ParentIn(PostIds(s.posts)))) == multiset(comments)
  {
    var selectedUsers := SelectUsers(users);
    var userIds := UserIds(selectedUsers);
    var filteredPosts := Find(posts, OwnerIn(userIds));
    var postIds := PostIds(filteredPosts);
    var filteredComments := Find(comments, ParentIn(postIds));
    DeleteManyPartition(posts, OwnerIn(userIds));
    DeleteManyPartition(comments, ParentIn(postIds));
    Snapshot(selectedUsers, filteredPosts, filteredComments)
  }

  /** The message rethrown by the import: `error.message || 'Unknown error occurred'`. */
  function Reported(message: string): (r: string)
    ensures r != ""
    ensures message != "" ==> r == message
    ensures message == "" ==> r == "Unknown error occurred"
  {
    if message == "" then "Unknown error occurred" else message
  }

  /**
   * Inserting a referentially closed subset parents first keeps a
   * consistent store consistent at every point: each batch may stop after
   * any prefix, and a child batch is only sent once its parent batch was
   * written in full.
   */
  lemma {:induction false} OrderedLoadKeepsIntegrity(
    s: Snapshot, seed: Snapshot, users: seq<User>, posts: seq<Post>, comments: seq<Comment>)
    requires Consistent(s) && Consistent(seed)
    requires |users| <= |seed.users| && users == seed.users[..|users|]
    requires |posts| <= |seed.posts| && posts == seed.posts[..|posts|]
    requires |comments| <= |seed.comments| && comments == seed.comments[..|comments|]
    requires posts != [] ==> users == seed.users
    requires comments != [] ==> posts == seed.posts
    ensures Consistent(Snapshot(s.users + users, s.posts + posts, s.comments + comments))
  {
    var r := Snapshot(s.users + users, s.posts + posts, s.comments + comments);
    forall p | p in r.posts ensures HasUser(r.users, p.userId) {
      if p in s.posts {
        var u :| u in s.users && u.id == p.userId;
        assert u in r.users;
      } else {
        assert p in seed.posts;
        var u :| u in seed.users && u.id == p.userId;
        assert u in r.users;
      }
    }
    forall c | c in r.comments ensures HasPost(r.posts, c.postId) {
      if c in s.comments {
        var p :| p in s.posts && p.id == c.postId;
        assert p in r.posts;
      } else {
        assert c in seed.comments;
        var p :| p in seed.posts && p.id == c.postId;
        assert p in r.posts;
      }
    }
  }

  /**
   * `insertUserData`: fetch the three lists (a failed fetch changes
   * nothing), select the seed subset, then bulk-insert accounts, posts and
   * comments in that order. The first aborted batch ends the import with its
   * message; batches after it are not sent and nothing is rolled back.
   * There is no duplicate check.
   */
  method InsertUserData(
    db: Store,
    usersFeed: Feed<User>, postsFeed: Feed<Post>, commentsFeed: Feed<Comment>,
    usersBatch: BatchOutcome, postsBatch: BatchOutcome, commentsBatch: BatchOutcome)
    returns (r: Result<()>)
    modifies db
    ensures usersFeed.FetchFailed? ==>
      r == Err(Failed(Reported(usersFeed.message))) && db.State() == old(db.State())
    ensures usersFeed.Received? && postsFeed.FetchFailed? ==>
      r == Err(Failed(Reported(postsFeed.message))) && db.State() == old(db.State())
    ensures usersFeed.Received? && postsFeed.Received? && commentsFeed.FetchFailed? ==>
      r == Err(Failed(Reported(commentsFeed.message))) && db.State() == old(db.State())
    ensures usersFeed.Received? && postsFeed.Received? && commentsFeed.Received? ==>
      var seed := Seed(usersFeed.items, postsFeed.items, commentsFeed.items);
      && db.users == old(db.users) + Landed(seed.users, usersBatch)
      && db.posts == old(db.posts) + (if usersBatch.Written? then Landed(seed.posts, postsBatch) else [])
      && db.comments == old(db.comments) +
           (if usersBatch.Written? && postsBatch.Written? then Landed(seed.comments, commentsBatch) else [])
      && (usersBatch.Aborted? ==> r == Err(Failed(Reported(usersBatch.message))))
      && (usersBatch.Written? && postsBatch.Aborted? ==> r == Err(Failed(Reported(postsBatch.message))))
      && (usersBatch.Written? && postsBatch.Written? && commentsBatch.Aborted? ==>
            r == Err(Failed(Reported(commentsBatch.message))))
      && (r.Ok? <==> usersBatch.Written? && postsBatch.Written? && commentsBatch.Written?)
    ensures old(Consistent(db.State())) ==> Consistent(db.State())
  {
    if usersFeed.FetchFailed? {
      return Err(Failed(Reported(usersFeed.message)));
    }
    var selectedUsers := SelectUsers(usersFeed.items);
    var userIds := UserIds(selectedUsers);
    if postsFeed.FetchFailed? {
      return Err(Failed(Reported(postsFeed.message)));
    }
    var filteredPosts := Find(postsFeed.items, OwnerIn(userIds));
    var postIds := PostIds(filteredPosts);
    if commentsFeed.FetchFailed? {
      return Err(Failed(Reported(commentsFeed.message)));
    }
    var filteredComments := Find(commentsFeed.items, ParentIn(postIds));
    ghost var seed := Seed(usersFeed.items, postsFeed.items, commentsFeed.items);
    assert seed == Snapshot(selectedUsers, filteredPosts, filteredComments);

    var insertedPosts: seq<Post> := [];
    var insertedComments: seq<Comment> := [];
    var insertedUsers := Landed(selectedUsers, usersBatch);
    db.users := db.users + insertedUsers;
    if usersBatch.Aborted? {
      r := Err(Failed(Reported(usersBatch.message)));
    } else {
      insertedPosts := Landed(filteredPosts, postsBatch);
      db.posts := db.posts + insertedPosts;
      if postsBatch.Aborted? {
        r := Err(Failed(Reported(postsBatch.message)));
      } else {
        insertedComments := Landed(filteredComments, commentsBatch);
        db.comments := db.comments + insertedComments;
        if commentsBatch.Aborted? {
          r := Err(Failed(Reported(commentsBatch.message)));
        } else {
          r := Ok(());
        }
      }
    }
    if Consistent(old(db.State())) {
      OrderedLoadKeepsIntegrity(old(db.State()), seed, insertedUsers, insertedPosts, insertedComments);
    }
  }

  /**
   * The import has no duplicate check: running it twice with the same
   * non-empty feed stores every selected account twice.
   */
  lemma {:induction false} RepeatedLoadDuplicatesAccounts(
    s: Snapshot, users: seq<User>, posts: seq<Post>, comments: seq<Comment>)
    requires users != []
    ensures
      var seed := Seed(users, posts, comments);
      !UniqueUserIds(s.users + seed.users + seed.users)
  {
    var seed := Seed(users, posts, comments);
    var all := s.users + seed.users + seed.users;
    assert all[|s.users|] == seed.users[0];
    assert all[|s.users| + |seed.users|] == seed.users[0];
  }
}
