/** The ES-module backend's category controller: create with its name guard,
    and the newest-first listing. */
module CategoryController {
  import opened Web
  import opened Text
  import opened Sorting
  import opened CategoryModel
  import opened BackendStore

  /** The request body. Only `name` and `description` are read; a client may
      also send a slug or a post list, which are ignored. */
  datatype CreateCategoryRequest = CreateCategoryRequest(
    name: Option<string>,
    description: Option<string>,
    slug: Option<string>,
    posts: seq<Id>)

  /** `!name || !name.trim()`: the name is absent, empty or white space only. */
  predicate NameMissing(name: Option<string>) {
    name.None? || Trim(name.value) == ""
  }

  /** The record a new category document is saved as, once the hook has run. */
  function NewRecord(req: CreateCategoryRequest): (r: CategoryRecord)
    requires req.name.Some?
    ensures r.name == req.name && r.description == req.description
    ensures r.slug == Some(Slug(req.name.value))
  {
    CategoryRecord(req.name, Some(Slug(req.name.value)), req.description)
  }

  /** Whether `save()` succeeds: the validators pass and neither unique key is taken. */
  predicate Accepted(categories: seq<StoredCategory>, rec: CategoryRecord) {
    ValidationErrors(rec) == {} && KeysFree(Records(categories), rec)
  }

  /** `createCategory`, with the slug derived before validation. A missing
      name gives 400 before anything is built; a rejected save (a validator
      or a duplicate key) gives 500; otherwise one category is appended and
      returned with status 200. `id` and `now` are what the database assigns. */
  method CreateCategory(store: Store, req: CreateCategoryRequest, id: Id, now: int)
    returns (reply: Reply<StoredCategory>)
    modifies store
    ensures store.posts == old(store.posts)
    ensures NameMissing(req.name) ==>
      reply == Failure(BAD_REQUEST, "Please enter the name") && store.categories == old(store.categories)
    ensures !NameMissing(req.name) && !Accepted(old(store.categories), NewRecord(req)) ==>
      reply == Failure(SERVER_ERROR, "Server Error") && store.categories == old(store.categories)
    ensures !NameMissing(req.name) && Accepted(old(store.categories), NewRecord(req)) ==>
      var c := StoredCategory(id, NewRecord(req), now);
      store.categories == old(store.categories) + [c] && reply == Success(OK, c)
  {
    if NameMissing(req.name) {
      return Failure(BAD_REQUEST, "Please enter the name");
    }
    var doc := new CategoryDocument(req.name.value, req.description);
    doc.PreSave();
    var rec := doc.Record();
    assert rec == NewRecord(req);
    if !Accepted(store.categories, rec) {
      return Failure(SERVER_ERROR, "Server Error");
    }
    var c := StoredCategory(id, rec, now);
    store.categories := store.categories + [c];
    reply := Success(OK, c);
  }

  /** A created category is named as requested, carries the slug derived
      from that name whatever slug the body sent, and keeps the keys unique. */
  lemma CreatedCategoryIsSound(categories: seq<StoredCategory>, req: CreateCategoryRequest, id: Id, now: int)
    requires UniqueKeys(Records(categories))
    requires !NameMissing(req.name) && Accepted(categories, NewRecord(req))
    ensures var c := StoredCategory(id, NewRecord(req), now);
      && c.record.name == req.name && c.record.slug == Some(Slug(req.name.value))
      && Slug(req.name.value) != "" && (req.description.None? || |req.description.value| <= 200)
      && UniqueKeys(Records(categories + [c]))
  {
    var rec := NewRecord(req);
    var c := StoredCategory(id, rec, now);
    assert Slug(req.name.value) != "" && (req.description.None? || |req.description.value| <= 200) by {
      assert ValidationErrors(rec) == {};
      assert SlugPath !in ValidationErrors(rec) && DescriptionPath !in ValidationErrors(rec);
    }
    assert UniqueKeys(Records(categories + [c])) by {
      RecordsAppend(categories, c);
      AppendKeepsUnique(Records(categories), rec);
    }
  }

  /** The reply `createCategory` gives as written, where `save()` validates
      the new document before its pre-save hook has derived the slug. */
  function CreateReplyAsWritten(categories: seq<StoredCategory>, req: CreateCategoryRequest, id: Id, now: int)
    : (r: Reply<StoredCategory>)
    ensures NameMissing(req.name) ==> r == Failure(BAD_REQUEST, "Please enter the name")
  {
    if NameMissing(req.name) then Failure(BAD_REQUEST, "Please enter the name")
    else
      match SaveValidateFirst(CategoryRecord(req.name, None, req.description), true)
      case Invalid(_) => Failure(SERVER_ERROR, "Server Error")
      case Saved(rec) =>
        if KeysFree(Records(categories), rec) then Success(OK, StoredCategory(id, rec, now))
        else Failure(SERVER_ERROR, "Server Error")
  }

  /** As written, every request that passes the name guard fails with 500. */
  lemma CreateAsWrittenAlwaysFails(categories: seq<StoredCategory>, req: CreateCategoryRequest, id: Id, now: int)
    requires !NameMissing(req.name)
    ensures CreateReplyAsWritten(categories, req, id, now) == Failure(SERVER_ERROR, "Server Error")
  {
    NewCategoryNeverSaves(req.name.value, req.description);
  }

  /** `sort({ createdAt: -1 })`. */
  const NewestFirst: (StoredCategory, StoredCategory) -> bool :=
    (a: StoredCategory, b: StoredCategory) => a.createdAt >= b.createdAt

  lemma NewestFirstIsPreorder()
    ensures Total(NewestFirst) && Transitive(NewestFirst)
  {
  }

  datatype CategoryListing = CategoryListing(count: nat, categories: seq<StoredCategory>)

  /** `getCategories`: every category exactly once, newest first, with its count. */
  function GetCategories(categories: seq<StoredCategory>): (r: CategoryListing)
    ensures r.count == |r.categories| == |categories|
    ensures multiset(r.categories) == multiset(categories)
    ensures forall i, j :: 0 <= i < j < |r.categories| ==> r.categories[i].createdAt >= r.categories[j].createdAt
  {
    NewestFirstIsPreorder();
    SortBySorted(categories, NewestFirst);
    var sorted := SortBy(categories, NewestFirst);
    CategoryListing(|sorted|, sorted)
  }
}
