/** The ES-module backend's comment controller: appending a comment to a
    post, and listing a post's comments. */
module CommentController {
  import opened Web
  import opened Text
  import opened BackendStore

  /** `!content || !content.trim()`. */
  predicate ContentMissing(content: Option<string>) {
    content.None? || Trim(content.value) == ""
  }

  /** `!userId`: absent or the empty string. */
  predicate UserMissing(userId: Option<Id>) {
    userId.None? || userId.value == ""
  }

  /** `addComment`: the content guard (400) comes before the user guard
      (401), and both before the store is touched; an unknown post gives 404;
      otherwise the comment, with its content exactly as sent, is pushed onto
      the end of the post's comments and the last element is returned. */
  method AddComment(store: Store, postId: Id, userId: Option<Id>, content: Option<string>)
    returns (reply: Reply<StoredComment>)
    modifies store
    ensures store.categories == old(store.categories)
    ensures ContentMissing(content) ==>
      reply == Failure(BAD_REQUEST, "Comment content is required") && store.posts == old(store.posts)
    ensures !ContentMissing(content) && UserMissing(userId) ==>
      reply == Failure(UNAUTHORIZED, "User Id is missing or unauthorized") && store.posts == old(store.posts)
    ensures !ContentMissing(content) && !UserMissing(userId) && FindStoredPost(old(store.posts), postId).None? ==>
      reply == Failure(NOT_FOUND, "Post not found") && store.posts == old(store.posts)
    ensures !ContentMissing(content) && !UserMissing(userId) && FindStoredPost(old(store.posts), postId).Some? ==>
      var i := FindStoredPost(old(store.posts), postId).value;
      var c := StoredComment(userId.value, content.value);
      && store.posts == old(store.posts)[i := old(store.posts)[i].(comments := old(store.posts)[i].comments + [c])]
      && reply == Success(CREATED, c)
  {
    if ContentMissing(content) {
      return Failure(BAD_REQUEST, "Comment content is required");
    }
    if UserMissing(userId) {
      return Failure(UNAUTHORIZED, "User Id is missing or unauthorized");
    }
    var newComment := StoredComment(userId.value, content.value);
    var found := FindStoredPost(store.posts, postId);
    if found.None? {
      return Failure(NOT_FOUND, "Post not found");
    }
    var i := found.value;
    var updated := store.posts[i].(comments := store.posts[i].comments + [newComment]);
    store.posts := store.posts[i := updated];
    var comments := store.posts[i].comments;
    reply := Success(CREATED, comments[|comments| - 1]);
  }

  datatype CommentListing = CommentListing(count: nat, comments: seq<StoredComment>)

  /** `getPostComments`: a missing post gives 404; otherwise its comments in
      stored order with their count. */
  function GetPostComments(posts: seq<StoredPost>, postId: Id): (r: Reply<CommentListing>)
    ensures FindStoredPost(posts, postId).None? <==> r == Failure(NOT_FOUND, "The post doesnt exist")
    ensures FindStoredPost(posts, postId).Some? ==> r.Success?
    ensures r.Success? ==> var i := FindStoredPost(posts, postId).value;
      r.status == OK && r.data.comments == posts[i].comments && r.data.count == |posts[i].comments|
  {
    match FindStoredPost(posts, postId)
    case None => Failure(NOT_FOUND, "The post doesnt exist")
    case Some(i) => Success(OK, CommentListing(|posts[i].comments|, posts[i].comments))
  }

  /** The route parameters the comment router hands on: it is mounted at
      `/:postId/comments` and merges its parent's parameters. */
  function MountedParams(postId: Id): (params: map<string, Id>)
    ensures "postId" in params && params["postId"] == postId
    ensures "PostId" !in params
  {
    map["postId" := postId]
  }

  /** `getPostComments` as written: it reads `req.params.PostId`; when that
      parameter is absent, `findById(undefined)` finds no post. */
  function GetPostCommentsAsWritten(posts: seq<StoredPost>, params: map<string, Id>): (r: Reply<CommentListing>)
    ensures "PostId" !in params ==> r == Failure(NOT_FOUND, "The post doesnt exist")
    ensures "PostId" in params ==> r == GetPostComments(posts, params["PostId"])
  {
    if "PostId" in params then GetPostComments(posts, params["PostId"])
    else Failure(NOT_FOUND, "The post doesnt exist")
  }

  /** As mounted, listing comments answers 404 for every post, even one that exists. */
  lemma ListingAsWiredAlwaysMissing(posts: seq<StoredPost>, postId: Id)
    ensures GetPostCommentsAsWritten(posts, MountedParams(postId)) == Failure(NOT_FOUND, "The post doesnt exist")
  {
  }

  /** With the parameter read under the name it is mounted with, an existing
      post's comments are listed. */
  lemma ListingByMountedName(posts: seq<StoredPost>, postId: Id)
    requires FindStoredPost(posts, postId).Some?
    ensures GetPostComments(posts, MountedParams(postId)["postId"]).Success?
  {
  }

  /** After a successful add, listing the post's comments shows one more
      comment, the new one last, and the earlier ones unchanged and in order. */
  lemma AddThenList(posts: seq<StoredPost>, postId: Id, user: Id, content: string)
    requires FindStoredPost(posts, postId).Some?
    ensures var i := FindStoredPost(posts, postId).value;
      var after := posts[i := posts[i].(comments := posts[i].comments + [StoredComment(user, content)])];
      var before := GetPostComments(posts, postId);
      var listed := GetPostComments(after, postId);
      && listed.Success? && before.Success?
      && listed.data.count == before.data.count + 1
      && listed.data.comments[..before.data.count] == before.data.comments
      && listed.data.comments[before.data.count] == StoredComment(user, content)
  {
    var i := FindStoredPost(posts, postId).value;
    var after := posts[i := posts[i].(comments := posts[i].comments + [StoredComment(user, content)])];
    FindStoredPostAfterUpdate(posts, i, after);
  }

  /** Replacing a post by one with the same id keeps every lookup where it was. */
  lemma {:induction false} FindStoredPostAfterUpdate(posts: seq<StoredPost>, i: nat, after: seq<StoredPost>)
    requires i < |posts| && |after| == |posts| && after[i].id == posts[i].id
    requires forall j :: 0 <= j < |posts| && j != i ==> after[j] == posts[j]
    ensures forall id :: FindStoredPost(after, id) == FindStoredPost(posts, id)
  {
    forall id ensures FindStoredPost(after, id) == FindStoredPost(posts, id) {
      if posts != [] && posts[0].id != id {
        if i == 0 {
          assert after[1..] == posts[1..];
        } else {
          FindStoredPostAfterUpdate(posts[1..], i - 1, after[1..]);
        }
      }
    }
  }
}
