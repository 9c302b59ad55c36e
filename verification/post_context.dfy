/** The client's post cache (`PostProvider`): the state it holds, and how
    each operation changes it once the API call has answered. The API call
    itself is a parameter: the response it resolved with, or the error text
    the server sent when it was rejected. */
module PostContext {
  import opened Web
  import opened ServerModel
  import opened ServerPosts

  /** How an API call settled. */
  datatype ApiResult<+T> = Resolved(value: T) | Rejected(serverMessage: Option<string>)

  /** How an operation ends for its caller: a value, or the API error rethrown. */
  datatype Outcome<+T> = Returned(value: T) | Rethrown(serverMessage: Option<string>)

  const INITIAL_PAGINATION := Pagination(1, 10, 0, 0)

  /** `prev.map(post => post._id === id ? updated : post)`. */
  function ReplaceById(posts: seq<Post>, id: Id, updated: Post): (r: seq<Post>)
    ensures |r| == |posts|
    ensures forall i :: 0 <= i < |posts| && posts[i].id == id ==> r[i] == updated
    ensures forall i :: 0 <= i < |posts| && posts[i].id != id ==> r[i] == posts[i]
  {
    seq(|posts|, i requires 0 <= i < |posts| => if posts[i].id == id then updated else posts[i])
  }

  /** `prev.filter(post => post._id !== id)`. */
  function RemoveById(posts: seq<Post>, id: Id): (r: seq<Post>)
    ensures |r| <= |posts|
    ensures forall p :: p in r <==> p in posts && p.id != id
  {
    if posts == [] then []
    else
      assert forall p :: p in posts <==> p == posts[0] || p in posts[1..];
      if posts[0].id == id then RemoveById(posts[1..], id) else [posts[0]] + RemoveById(posts[1..], id)
  }

  /** Replacing twice with the same post is replacing once. */
  lemma ReplaceByIdIdempotent(posts: seq<Post>, id: Id, updated: Post)
    ensures ReplaceById(ReplaceById(posts, id, updated), id, updated) == ReplaceById(posts, id, updated)
  {
  }

  /** Removing keeps the order of what remains: it works piece by piece. */
  lemma {:induction false} RemoveByIdAppend(a: seq<Post>, b: seq<Post>, id: Id)
    ensures RemoveById(a + b, id) == RemoveById(a, id) + RemoveById(b, id)
  {
    if a != [] {
      assert (a + b)[0] == a[0] && (a + b)[1..] == a[1..] + b;
      RemoveByIdAppend(a[1..], b, id);
    } else {
      assert a + b == b;
    }
  }

  /** A list without the id is left exactly as it is. */
  lemma {:induction false} RemoveByIdAbsent(posts: seq<Post>, id: Id)
    requires forall i :: 0 <= i < |posts| ==> posts[i].id != id
    ensures RemoveById(posts, id) == posts
  {
    if posts != [] {
      assert forall i :: 0 <= i < |posts[1..]| ==> posts[1..][i] == posts[i + 1];
      RemoveByIdAbsent(posts[1..], id);
    }
  }

  /** Removing twice is removing once. */
  lemma RemoveByIdIdempotent(posts: seq<Post>, id: Id)
    ensures RemoveById(RemoveById(posts, id), id) == RemoveById(posts, id)
  {
    var once := RemoveById(posts, id);
    forall i | 0 <= i < |once| ensures once[i].id != id {
      assert once[i] in once;
    }
    RemoveByIdAbsent(once, id);
  }

  /** Deleting a post just created takes the list back to what it was
      before, when the list did not already hold that id. */
  lemma DeleteAfterCreate(posts: seq<Post>, created: Post)
    requires forall i :: 0 <= i < |posts| ==> posts[i].id != created.id
    ensures RemoveById([created] + posts, created.id) == posts
  {
    RemoveByIdAppend([created], posts, created.id);
    assert RemoveById([created], created.id) == [];
    RemoveByIdAbsent(posts, created.id);
  }

  /** Deleting after an update removes the updated post too. */
  lemma {:induction false} DeleteAfterUpdate(posts: seq<Post>, id: Id, updated: Post)
    requires updated.id == id
    ensures RemoveById(ReplaceById(posts, id, updated), id) == RemoveById(posts, id)
  {
    if posts != [] {
      var replaced := ReplaceById(posts, id, updated);
      assert replaced[1..] == ReplaceById(posts[1..], id, updated);
      DeleteAfterUpdate(posts[1..], id, updated);
    }
  }

  class PostProvider {
    var posts: seq<Post>
    var categories: seq<Category>
    var loading: bool
    var error: Option<string>
    var pagination: Pagination

    /** The initial state: nothing loaded, nothing failed, page 1 of 10 per page. */
    constructor ()
      ensures posts == [] && categories == [] && !loading && error.None?
      ensures pagination == INITIAL_PAGINATION
    {
      posts := [];
      categories := [];
      loading := false;
      error := None;
      pagination := INITIAL_PAGINATION;
    }

    /** `fetchPosts`: a listing replaces both the posts and the pagination. */
    method FetchPosts(response: ApiResult<Listing>) returns (r: Outcome<Listing>)
      modifies this
      ensures !loading && categories == old(categories)
      ensures response.Resolved? ==>
        && posts == response.value.data && pagination == response.value.pagination
        && error.None? && r == Returned(response.value)
      ensures response.Rejected? ==>
        && posts == old(posts) && pagination == old(pagination)
        && error == Some(ErrorText(response.serverMessage, "Failed to fetch posts"))
        && r == Rethrown(response.serverMessage)
    {
      loading := true;
      error := None;
      if response.Resolved? {
        posts := response.value.data;
        pagination := response.value.pagination;
        r := Returned(response.value);
      } else {
        error := Some(ErrorText(response.serverMessage, "Failed to fetch posts"));
        r := Rethrown(response.serverMessage);
      }
      loading := false;
    }

    /** `fetchCategories`: neither the loading flag nor a previous error is
        touched on the way in. */
    method FetchCategories(response: ApiResult<seq<Category>>) returns (r: Outcome<seq<Category>>)
      modifies this
      ensures posts == old(posts) && pagination == old(pagination) && loading == old(loading)
      ensures response.Resolved? ==>
        categories == response.value && error == old(error) && r == Returned(response.value)
      ensures response.Rejected? ==>
        && categories == old(categories)
        && error == Some(ErrorText(response.serverMessage, "Failed to fetch categories"))
        && r == Rethrown(response.serverMessage)
    {
      if response.Resolved? {
        categories := response.value;
        r := Returned(response.value);
      } else {
        error := Some(ErrorText(response.serverMessage, "Failed to fetch categories"));
        r := Rethrown(response.serverMessage);
      }
    }

    /** `createPost`: the created post goes first, before the earlier posts in their order. */
    method CreatePost(response: ApiResult<Post>) returns (r: Outcome<Post>)
      modifies this
      ensures !loading && categories == old(categories) && pagination == old(pagination)
      ensures response.Resolved? ==>
        && posts == [response.value] + old(posts)
        && error.None? && r == Returned(response.value)
      ensures response.Rejected? ==>
        && posts == old(posts)
        && error == Some(ErrorText(response.serverMessage, "Failed to create post"))
        && r == Rethrown(response.serverMessage)
    {
      loading := true;
      error := None;
      if response.Resolved? {
        posts := [response.value] + posts;
        r := Returned(response.value);
      } else {
        error := Some(ErrorText(response.serverMessage, "Failed to create post"));
        r := Rethrown(response.serverMessage);
      }
      loading := false;
    }

    /** `updatePost`: every cached post with that id is replaced by the response. */
    method UpdatePost(id: Id, response: ApiResult<Post>) returns (r: Outcome<Post>)
      modifies this
      ensures !loading && categories == old(categories) && pagination == old(pagination)
      ensures response.Resolved? ==>
        && posts == ReplaceById(old(posts), id, response.value)
        && error.None? && r == Returned(response.value)
      ensures response.Rejected? ==>
        && posts == old(posts)
        && error == Some(ErrorText(response.serverMessage, "Failed to update post"))
        && r == Rethrown(response.serverMessage)
    {
      loading := true;
      error := None;
      if response.Resolved? {
        posts := ReplaceById(posts, id, response.value);
        r := Returned(response.value);
      } else {
        error := Some(ErrorText(response.serverMessage, "Failed to update post"));
        r := Rethrown(response.serverMessage);
      }
      loading := false;
    }

    /** `deletePost`: every cached post with that id is dropped. */
    method DeletePost(id: Id, response: ApiResult<()>) returns (r: Outcome<()>)
      modifies this
      ensures !loading && categories == old(categories) && pagination == old(pagination)
      ensures response.Resolved? ==>
        posts == RemoveById(old(posts), id) && error.None? && r == Returned(())
      ensures response.Rejected? ==>
        && posts == old(posts)
        && error == Some(ErrorText(response.serverMessage, "Failed to delete post"))
        && r == Rethrown(response.serverMessage)
    {
      loading := true;
      error := None;
      if response.Resolved? {
        posts := RemoveById(posts, id);
        r := Returned(());
      } else {
        error := Some(ErrorText(response.serverMessage, "Failed to delete post"));
        r := Rethrown(response.serverMessage);
      }
      loading := false;
    }

    /** `searchPosts`: the hits replace the posts; the pagination stays. */
    method SearchPosts(response: ApiResult<Found>) returns (r: Outcome<Found>)
      modifies this
      ensures !loading && categories == old(categories) && pagination == old(pagination)
      ensures response.Resolved? ==>
        posts == response.value.data && error.None? && r == Returned(response.value)
      ensures response.Rejected? ==>
        && posts == old(posts)
        && error == Some(ErrorText(response.serverMessage, "Failed to search posts"))
        && r == Rethrown(response.serverMessage)
    {
      loading := true;
      error := None;
      if response.Resolved? {
        posts := response.value.data;
        r := Returned(response.value);
      } else {
        error := Some(ErrorText(response.serverMessage, "Failed to search posts"));
        r := Rethrown(response.serverMessage);
      }
      loading := false;
    }
  }
}
