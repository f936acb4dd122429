/**
 * The post controller: an owner-checked overwrite of one post.
 */
module PostController {
  import opened Types
  import opened Collection
  import opened Database

  /** `$set: post`: every field of the submitted post is written over the stored one. */
  function SetPost(post: Post): Post -> Post
  {
    (stored: Post) => stored.(id := post.id, userId := post.userId, title := post.title, body := post.body)
  }

  /**
   * `updatePost`: `POST_NOT_FOUND` when no post has the id, then
   * `UNAUTHORIZED_USER` when the stored owner differs from the submitted one;
   * otherwise the first post with the id is overwritten, and a write that
   * changed nothing is `UPDATE_FAILED`. On every error the store is as before.
   */
  method UpdatePost(db: Store, post: Post) returns (r: Result<()>)
    modifies db
    ensures db.users == old(db.users) && db.comments == old(db.comments)
    ensures !HasPost(old(db.posts), post.id) ==> r == Err(PostNotFound)
    ensures HasPost(old(db.posts), post.id) ==>
      var i := FindIndex(old(db.posts), PostIdIs(post.id)).value;
      && (old(db.posts)[i].userId != post.userId ==> r == Err(UnauthorizedUser))
      && (old(db.posts)[i].userId == post.userId ==>
            && db.posts == old(db.posts)[i := post]
            && (r == Err(UpdateFailed) <==> old(db.posts)[i] == post)
            && (r.Ok? <==> old(db.posts)[i] != post))
    ensures r.Err? ==> db.posts == old(db.posts)
    ensures |db.posts| == |old(db.posts)|
    ensures forall j :: 0 <= j < |db.posts| && old(db.posts)[j].id != post.id ==> db.posts[j] == old(db.posts)[j]
  {
    var existingPost := FindOne(db.posts, PostIdIs(post.id));
    FindPostIffHasPost(db.posts, post.id);
    if existingPost.None? {
      return Err(PostNotFound);
    }
    if existingPost.value.userId != post.userId {
      return Err(UnauthorizedUser);
    }
    var result := UpdateOne(db.posts, PostIdIs(post.id), SetPost(post));
    db.posts := result.docs;
    if result.modifiedCount == 0 {
      return Err(UpdateFailed);
    }
    r := Ok(());
  }

  /** A lookup by id finds a post exactly when one with that id is stored. */
  lemma FindPostIffHasPost(posts: seq<Post>, id: nat)
    ensures FindOne(posts, PostIdIs(id)).Some? <==> HasPost(posts, id)
  {
    if HasPost(posts, id) {
      var p :| p in posts && p.id == id;
      assert PostIdIs(id)(p);
    }
  }

  /**
   * A successful update changes one post, keeps its id and owner, and so
   * leaves every other post and every link between collections as it was.
   */
  lemma {:induction false} OwnedUpdateKeepsIntegrity(s: Snapshot, i: nat, post: Post)
    requires i < |s.posts| && s.posts[i].id == post.id && s.posts[i].userId == post.userId
    ensures forall j :: 0 <= j < |s.posts| && s.posts[j].id != post.id ==> s.posts[i := post][j] == s.posts[j]
    ensures Consistent(s) ==> Consistent(s.(posts := s.posts[i := post]))
  {
    var posts := s.posts[i := post];
    if Consistent(s) {
      forall p | p in posts ensures HasUser(s.users, p.userId) {
        var k :| 0 <= k < |posts| && posts[k] == p;
        assert s.posts[k] in s.posts;
      }
      forall id | HasPost(s.posts, id) ensures HasPost(posts, id) {
        var p :| p in s.posts && p.id == id;
        var k :| 0 <= k < |s.posts| && s.posts[k] == p;
        assert posts[k] in posts;
      }
    }
  }
}
