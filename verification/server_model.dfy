/** The documents the CommonJS server stores, and the store itself with the
    database replaced by two sequences in natural (insertion) order. */
module ServerModel {
  import opened Web

  /** A comment embedded in a post. */
  datatype Comment = Comment(user: Id, content: string)

  datatype Post = Post(
    id: Id,
    slug: string,
    title: string,
    content: string,
    excerpt: string,
    author: Id,
    category: Id,
    tags: seq<string>,
    isPublished: bool,
    viewCount: nat,
    comments: seq<Comment>,
    createdAt: int,
    featuredImage: Option<string>)

  datatype Category = Category(id: Id, name: string, description: Option<string>)

  /** The server's collections. */
  class Database {
    var posts: seq<Post>
    var categories: seq<Category>

    constructor (posts: seq<Post>, categories: seq<Category>)
      ensures this.posts == posts && this.categories == categories
    {
      this.posts := posts;
      this.categories := categories;
    }
  }

  /** `Category.findById(id)` finds something. */
  predicate CategoryExists(categories: seq<Category>, id: Id) {
    exists i :: 0 <= i < |categories| && categories[i].id == id
  }
}
