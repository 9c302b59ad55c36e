/** The ES-module backend's collections, with the database replaced by two
    sequences in natural (insertion) order. Only the fields the controllers
    read or write are kept. */
module BackendStore {
  import opened Web
  import opened CategoryModel

  /** A stored category: its id, the validated record and its creation time. */
  datatype StoredCategory = StoredCategory(id: Id, record: CategoryRecord, createdAt: int)

  /** A comment embedded in a post: the commenting user and the text as sent. */
  datatype StoredComment = StoredComment(user: Id, content: string)

  /** A post, reduced to its id and its comments. */
  datatype StoredPost = StoredPost(id: Id, comments: seq<StoredComment>)

  class Store {
    var categories: seq<StoredCategory>
    var posts: seq<StoredPost>

    constructor (categories: seq<StoredCategory>, posts: seq<StoredPost>)
      ensures this.categories == categories && this.posts == posts
    {
      this.categories := categories;
      this.posts := posts;
    }
  }

  /** The records of the stored categories, in store order. */
  function Records(categories: seq<StoredCategory>): (r: seq<CategoryRecord>)
    ensures |r| == |categories|
    ensures forall i :: 0 <= i < |categories| ==> r[i] == categories[i].record
  {
    seq(|categories|, i requires 0 <= i < |categories| => categories[i].record)
  }

  lemma RecordsAppend(categories: seq<StoredCategory>, c: StoredCategory)
    ensures Records(categories + [c]) == Records(categories) + [c.record]
  {
  }

  /** `findById(postId)`: the position of the post with that id, if any. */
  function FindStoredPost(posts: seq<StoredPost>, id: Id): (r: Option<nat>)
    ensures r.Some? ==> r.value < |posts| && posts[r.value].id == id
    ensures r.None? <==> forall i :: 0 <= i < |posts| ==> posts[i].id != id
  {
    if posts == [] then None
    else if posts[0].id == id then Some(0)
    else
      var rest := FindStoredPost(posts[1..], id);
      if rest.Some? then Some(rest.value + 1)
      else
        assert forall i :: 1 <= i < |posts| ==> posts[i] == posts[1..][i - 1];
        None
  }
}
