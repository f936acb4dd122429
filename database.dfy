/**
 * The three collections of the `swift-assess` database as one store object,
 * the query documents the controllers pass to it, and the referential
 * integrity the controllers are responsible for (the store enforces none).
 */
module Database {
  import opened Types
  import opened Collection

  /** The contents of the three collections at one moment. */
  datatype Snapshot = Snapshot(users: seq<User>, posts: seq<Post>, comments: seq<Comment>)

  /** The store handle: three collections, updated in place by the controllers. */
  class Store {
    var users: seq<User>
    var posts: seq<Post>
    var comments: seq<Comment>

    constructor ()
      ensures users == [] && posts == [] && comments == []
    {
      users, posts, comments := [], [], [];
    }

    function State(): Snapshot
      reads this
    {
      Snapshot(users, posts, comments)
    }
  }

  // Query documents.

  /** `{ id: id }` on users. */
  function UserIdIs(id: nat): User -> bool
  {
    (u: User) => u.id == id
  }

  /** `{ userId: userId }` on posts. */
  function OwnerIs(userId: nat): Post -> bool
  {
    (p: Post) => p.userId == userId
  }

  /** `{ id: id }` on posts. */
  function PostIdIs(id: nat): Post -> bool
  {
    (p: Post) => p.id == id
  }

  /** `{ postId: { $in: postIds } }` on comments, and `postIds.includes(comment.postId)`. */
  function ParentIn(postIds: seq<nat>): Comment -> bool
  {
    (c: Comment) => c.postId in postIds
  }

  /** `userIds.includes(post.userId)`. */
  function OwnerIn(userIds: seq<nat>): Post -> bool
  {
    (p: Post) => p.userId in userIds
  }

  /** `comment.postId === postId`. */
  function ParentIs(postId: nat): Comment -> bool
  {
    (c: Comment) => c.postId == postId
  }

  /** `users.map(user => user.id)`. */
  function UserIds(users: seq<User>): (ids: seq<nat>)
    ensures |ids| == |users|
    ensures forall id :: id in ids <==> HasUser(users, id)
  {
    var ids := Map(users, (u: User) => u.id);
    assert forall id :: id in ids ==> HasUser(users, id) by {
      forall id | id in ids ensures HasUser(users, id) {
        var k :| 0 <= k < |ids| && ids[k] == id;
        assert users[k] in users;
      }
    }
    ids
  }

  /** `posts.map(post => post.id)`. */
  function PostIds(posts: seq<Post>): (ids: seq<nat>)
    ensures |ids| == |posts|
    ensures forall id :: id in ids <==> HasPost(posts, id)
  {
    var ids := Map(posts, (p: Post) => p.id);
    assert forall id :: id in ids ==> HasPost(posts, id) by {
      forall id | id in ids ensures HasPost(posts, id) {
        var k :| 0 <= k < |ids| && ids[k] == id;
        assert posts[k] in posts;
      }
    }
    ids
  }

  // Referential integrity.

  ghost predicate HasUser(users: seq<User>, id: nat)
  {
    exists u :: u in users && u.id == id
  }

  ghost predicate HasPost(posts: seq<Post>, id: nat)
  {
    exists p :: p in posts && p.id == id
  }

  /** No two accounts share an id (nothing in the store enforces this). */
  ghost predicate UniqueUserIds(users: seq<User>)
  {
    forall i, j :: 0 <= i < j < |users| ==> users[i].id != users[j].id
  }

  /** Every post names an existing account and every comment an existing post. */
  ghost predicate Consistent(s: Snapshot)
  {
    && (forall p :: p in s.posts ==> HasUser(s.users, p.userId))
    && (forall c :: c in s.comments ==> HasPost(s.posts, c.postId))
  }

  /** With unique account ids, a lookup by id has at most one match. */
  lemma UniqueIdsMatchOnce(users: seq<User>, id: nat)
    ensures UniqueUserIds(users) ==> AtMostOneMatch(users, UserIdIs(id))
  {
  }

  /** A lookup by id finds an account exactly when one with that id is stored. */
  lemma FindUserIffHasUser(users: seq<User>, id: nat)
    ensures FindOne(users, UserIdIs(id)).Some? <==> HasUser(users, id)
    ensures FindOne(users, UserIdIs(id)).Some? ==> FindOne(users, UserIdIs(id)).value.id == id
  {
    if HasUser(users, id) {
      var u :| u in users && u.id == id;
      assert UserIdIs(id)(u);
    }
  }
}
