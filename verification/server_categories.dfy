/** The CommonJS server's category routes: a public list sorted by name and
    an admin-only create whose name is trimmed and must not be empty. */
module ServerCategories {
  import opened Web
  import opened Text
  import opened Sorting
  import opened ServerModel

  /** `sort({ name: 1 })`: ascending code-point order of the names. */
  const ByName: (Category, Category) -> bool := (a: Category, b: Category) => StrLe(a.name, b.name)

  lemma ByNameIsPreorder()
    ensures Total(ByName) && Transitive(ByName)
  {
    forall a: Category, b: Category ensures ByName(a, b) || ByName(b, a) {
      StrLeTotal(a.name, b.name);
    }
    forall a: Category, b: Category, c: Category | ByName(a, b) && ByName(b, c)
      ensures ByName(a, c)
    {
      StrLeTransitive(a.name, b.name, c.name);
    }
  }

  datatype CategoryList = CategoryList(count: nat, data: seq<Category>)

  /** `GET /categories`: every category exactly once, in name order, with its count. */
  function ListCategories(categories: seq<Category>): (r: CategoryList)
    ensures r.count == |r.data| == |categories|
    ensures multiset(r.data) == multiset(categories)
    ensures SortedBy(r.data, ByName)
  {
    ByNameIsPreorder();
    SortBySorted(categories, ByName);
    var sorted := SortBy(categories, ByName);
    CategoryList(|sorted|, sorted)
  }

  /** The body of a create request; a missing name reads as the empty string
      once the validation chain has trimmed it. */
  datatype CategoryBody = CategoryBody(name: Option<string>, description: Option<string>)

  /** `POST /categories`: only an admin gets past the middleware; the name is
      trimmed in place and must then be non-empty; the category is created
      from the rewritten body. `id` is what the database assigns. */
  method CreateCategory(db: Database, requester: Requester, body: CategoryBody, id: Id)
    returns (reply: Reply<Category>)
    modifies db
    ensures db.posts == old(db.posts)
    ensures requester.role != AdminRole ==>
      reply.Failure? && reply.status == FORBIDDEN && db.categories == old(db.categories)
    ensures requester.role == AdminRole && Trim(body.name.GetOr("")) == "" ==>
      reply == Failure(BAD_REQUEST, "Category name is required") && db.categories == old(db.categories)
    ensures requester.role == AdminRole && Trim(body.name.GetOr("")) != "" ==>
      var c := Category(id, Trim(body.name.value), body.description);
      db.categories == old(db.categories) + [c] && reply == Success(CREATED, c)
  {
    if requester.role != AdminRole {
      return Failure(FORBIDDEN, "Not authorized");
    }
    var name := Trim(body.name.GetOr(""));
    if name == "" {
      return Failure(BAD_REQUEST, "Category name is required");
    }
    var c := Category(id, name, body.description);
    db.categories := db.categories + [c];
    reply := Success(CREATED, c);
  }
}
