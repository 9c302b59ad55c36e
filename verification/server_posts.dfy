/** The post routes of the server: listing with filters and pages, search,
    fetch by id or slug, create, update, delete and comment. Each handler that
    writes is a method over the `Database`; the read-only ones are functions. */
module ServerPosts {
  import opened Web
  import opened Text
  import opened Sorting
  import opened ServerModel

  /** A case-insensitive `$regex` test of a query against one field. The
      regular-expression engine is not modelled, so callers pass it in. */
  type Matcher = (string, string) -> bool

  // ----- Query parameters and pagination -----

  /** The query string of `GET /posts`; `page` and `limit` hold what
      `parseInt` makes of the parameter, `None` when that is NaN or the
      parameter is missing. */
  datatype ListQuery = ListQuery(
    page: Option<int>,
    limit: Option<int>,
    category: Option<string>,
    q: Option<string>,
    published: Option<string>)

  /** `parseInt(param) || fallback`: zero and NaN fall back. */
  function IntOr(parsed: Option<int>, fallback: int): (r: int)
    requires fallback > 0
    ensures r != 0
    ensures parsed.Some? && parsed.value != 0 ==> r == parsed.value
    ensures parsed.None? || parsed.value == 0 ==> r == fallback
  {
    if parsed.Some? && parsed.value != 0 then parsed.value else fallback
  }

  /** A query parameter used as a condition: missing and empty are both false. */
  function Present(param: Option<string>): (r: Option<string>)
    ensures r.Some? <==> param.Some? && param.value != ""
    ensures r.Some? ==> r == param
  {
    if param.Some? && param.value != "" then param else None
  }

  function Abs(n: int): nat {
    if n < 0 then -n else n
  }

  /** `Math.ceil(total / limit)`: the least whole number of pages of `limit` posts. */
  function CeilDiv(total: nat, limit: int): (r: int)
    requires limit != 0
    ensures limit > 0 ==> (r - 1) * limit < total <= r * limit
    ensures limit < 0 ==> r * limit <= total < (r - 1) * limit
  {
    if limit > 0 then
      var q, m := total / limit, total % limit;
      assert total == q * limit + m;
      assert (q - 1) * limit == q * limit - limit;
      assert (q + 1) * limit == q * limit + limit;
      if m == 0 then q else q + 1
    else
      var d := -limit;
      var q := total / d;
      assert total == q * d + total % d;
      assert (-q) * limit == q * d;
      assert (-q - 1) * limit == q * d + d;
      -q
  }

  /** `.skip(skip).limit(take)` over an already sorted result. */
  function Window(sorted: seq<Post>, skip: nat, take: nat): (r: seq<Post>)
    ensures |r| <= take
    ensures skip >= |sorted| ==> r == []
    ensures forall p :: p in r ==> p in sorted
    ensures skip < |sorted| ==> r == sorted[skip..if skip + take < |sorted| then skip + take else |sorted|]
  {
    var from := if skip < |sorted| then skip else |sorted|;
    var to := if from + take < |sorted| then from + take else |sorted|;
    sorted[from..to]
  }

  // ----- Filtering -----

  /** The conjunction the handlers hand to `Post.find`. `searchTags` says
      whether the text query is also tried against the tags. */
  datatype PostFilter = PostFilter(
    publishedOnly: bool,
    category: Option<Id>,
    search: Option<string>,
    searchTags: bool)

  /** The filter `GET /posts` builds from its query string. */
  function ListFilter(params: ListQuery): (f: PostFilter)
    ensures f.publishedOnly <==> params.published != Some("false")
    ensures f.category == Present(params.category)
    ensures f.search == Present(params.q)
    ensures !f.searchTags
  {
    PostFilter(params.published != Some("false"), Present(params.category), Present(params.q), false)
  }

  /** The filter `GET /posts/search` uses: published posts, tags included. */
  function SearchFilter(q: string): (f: PostFilter)
    ensures forall p, matches :: Keeps(f, p, matches) <==> p.isPublished && TextMatches(q, p, matches, true)
  {
    PostFilter(true, None, Some(q), true)
  }

  predicate TagMatches(q: string, tags: seq<string>, matches: Matcher) {
    exists i :: 0 <= i < |tags| && matches(q, tags[i])
  }

  predicate TextMatches(q: string, p: Post, matches: Matcher, withTags: bool) {
    matches(q, p.title) || matches(q, p.content) || matches(q, p.excerpt)
    || (withTags && TagMatches(q, p.tags, matches))
  }

  predicate Keeps(f: PostFilter, p: Post, matches: Matcher) {
    && (f.publishedOnly ==> p.isPublished)
    && (f.category.Some? ==> p.category == f.category.value)
    && (f.search.Some? ==> TextMatches(f.search.value, p, matches, f.searchTags))
  }

  /** `Post.find(filter)` in natural order: exactly the posts the filter keeps. */
  function Select(posts: seq<Post>, f: PostFilter, matches: Matcher): (r: seq<Post>)
    ensures |r| <= |posts|
    ensures forall p :: p in r <==> p in posts && Keeps(f, p, matches)
  {
    if posts == [] then []
    else
      var rest := Select(posts[1..], f, matches);
      assert forall p :: p in posts <==> p == posts[0] || p in posts[1..];
      if Keeps(f, posts[0], matches) then [posts[0]] + rest else rest
  }

  /** `find` works post by post: what it keeps from a longer store is what it
      keeps from each part, in natural order. */
  lemma {:induction false} SelectAppend(a: seq<Post>, b: seq<Post>, f: PostFilter, matches: Matcher)
    ensures Select(a + b, f, matches) == Select(a, f, matches) + Select(b, f, matches)
  {
    if a == [] {
      assert a + b == b;
    } else {
      assert (a + b)[0] == a[0] && (a + b)[1..] == a[1..] + b;
      SelectAppend(a[1..], b, f, matches);
    }
  }

  /** One stored post: returned once when the filter keeps it, not at all otherwise. */
  lemma SelectSingle(p: Post, f: PostFilter, matches: Matcher)
    ensures Keeps(f, p, matches) ==> Select([p], f, matches) == [p]
    ensures !Keeps(f, p, matches) ==> Select([p], f, matches) == []
  {
  }

  /** `.sort({ createdAt: -1 })`. */
  const NewestFirst: (Post, Post) -> bool := (a: Post, b: Post) => a.createdAt >= b.createdAt

  lemma NewestFirstIsPreorder()
    ensures Total(NewestFirst) && Transitive(NewestFirst)
  {
  }

  /** A contiguous piece of a sorted sequence is sorted. */
  lemma SortedSlice(s: seq<Post>, from: nat, to: nat)
    requires from <= to <= |s|
    requires SortedBy(s, NewestFirst)
    ensures SortedBy(s[from..to], NewestFirst)
  {
    forall i, j | 0 <= i < j < to - from
      ensures NewestFirst(s[from..to][i], s[from..to][j])
    {
      assert s[from..to][i] == s[from + i] && s[from..to][j] == s[from + j];
    }
  }

  // ----- GET /posts and GET /posts/search -----

  datatype Pagination = Pagination(page: int, limit: int, total: nat, pages: int)

  datatype Listing = Listing(pagination: Pagination, data: seq<Post>)

  /** `GET /posts`. The page and limit default to 1 and 10; the posts served
      are the matching ones, newest first, from offset (page - 1) * limit, at
      most |limit| of them; `total` counts every matching post and `pages` is
      computed from it whatever page is served. A negative offset is refused
      by the database and surfaces as a server error. */
  function ListPosts(posts: seq<Post>, params: ListQuery, matches: Matcher): (reply: Reply<Listing>)
    ensures var page, limit := IntOr(params.page, 1), IntOr(params.limit, 10);
      var found := Select(posts, ListFilter(params), matches);
      && (reply.Failure? <==> (page - 1) * limit < 0)
      && (reply.Failure? ==> reply.status == SERVER_ERROR)
      && (reply.Success? ==>
        && reply.status == OK
        && reply.data.pagination == Pagination(page, limit, |found|, CeilDiv(|found|, limit))
        && |reply.data.data| <= Abs(limit)
        && (forall p :: p in reply.data.data ==> p in posts && Keeps(ListFilter(params), p, matches))
        && SortedBy(reply.data.data, NewestFirst)
        && ((page - 1) * limit >= |found| ==> reply.data.data == [])
        && reply.data.data == Window(SortBy(found, NewestFirst), (page - 1) * limit, Abs(limit)))
  {
    var page, limit := IntOr(params.page, 1), IntOr(params.limit, 10);
    var skip := (page - 1) * limit;
    if skip < 0 then
      Failure(SERVER_ERROR, "skip value must be non-negative")
    else
      var found := Select(posts, ListFilter(params), matches);
      var sorted := SortBy(found, NewestFirst);
      var data := Window(sorted, skip, Abs(limit));
      NewestFirstIsPreorder();
      SortBySorted(found, NewestFirst);
      SortedSlice(sorted, if skip < |sorted| then skip else |sorted|,
        if (if skip < |sorted| then skip else |sorted|) + Abs(limit) < |sorted|
        then (if skip < |sorted| then skip else |sorted|) + Abs(limit) else |sorted|);
      assert forall p :: p in data ==> p in found by {
        forall p | p in data ensures p in found {
          SortByMembers(found, NewestFirst, p);
        }
      }
      Success(OK, Listing(Pagination(page, limit, |found|, CeilDiv(|found|, limit)), data))
  }

  const SEARCH_LIMIT := 20

  datatype Found = Found(count: nat, data: seq<Post>)

  /** `GET /posts/search`. A missing or empty query is refused before any
      lookup; otherwise the newest twenty published posts whose title,
      content, excerpt or one of whose tags match, with `count` the number
      returned. */
  function SearchPosts(posts: seq<Post>, q: Option<string>, matches: Matcher): (reply: Reply<Found>)
    ensures reply.Failure? <==> Present(q).None?
    ensures reply.Failure? ==> reply == Failure(BAD_REQUEST, "Search query is required")
    ensures reply.Success? ==>
      var hits := Select(posts, SearchFilter(q.value), matches);
      var n := if |hits| < SEARCH_LIMIT then |hits| else SEARCH_LIMIT;
      && reply.status == OK
      && reply.data.count == |reply.data.data| == n
      && (forall p :: p in reply.data.data ==>
            p in posts && p.isPublished && TextMatches(q.value, p, matches, true))
      && SortedBy(reply.data.data, NewestFirst)
      && reply.data.data == SortBy(hits, NewestFirst)[..n]
  {
    if Present(q).None? then
      Failure(BAD_REQUEST, "Search query is required")
    else
      var hits := Select(posts, SearchFilter(q.value), matches);
      var sorted := SortBy(hits, NewestFirst);
      var n := if |hits| < SEARCH_LIMIT then |hits| else SEARCH_LIMIT;
      NewestFirstIsPreorder();
      SortBySorted(hits, NewestFirst);
      SortedSlice(sorted, 0, n);
      assert sorted[..n] == sorted[0..n];
      assert forall p :: p in sorted[..n] ==> p in hits by {
        forall p | p in sorted[..n] ensures p in hits {
          SortByMembers(hits, NewestFirst, p);
        }
      }
      Success(OK, Found(n, sorted[..n]))
  }

  /** The list's text query looks at title, content and excerpt only: what
      the tags hold never changes whether a post is listed. */
  lemma ListIgnoresTags(params: ListQuery, p: Post, tags: seq<string>, matches: Matcher)
    ensures Keeps(ListFilter(params), p, matches) == Keeps(ListFilter(params), p.(tags := tags), matches)
  {
  }

  /** Search also looks at tags: a published post that only a tag matches is
      found by search but not by the list with the same query. */
  lemma SearchAlsoMatchesTags(params: ListQuery, p: Post, matches: Matcher)
    requires Present(params.q).Some? && p.isPublished
    requires !matches(params.q.value, p.title) && !matches(params.q.value, p.content)
    requires !matches(params.q.value, p.excerpt) && TagMatches(params.q.value, p.tags, matches)
    ensures Keeps(SearchFilter(params.q.value), p, matches)
    ensures !Keeps(ListFilter(params), p, matches)
  {
  }

  // ----- GET /posts/:id -----

  /** `_id` equals the key, or (when slugs count) `slug` does. */
  predicate Identifies(p: Post, key: Id, orSlug: bool) {
    p.id == key || (orSlug && p.slug == key)
  }

  /** `findOne` / `findById`: the first post in natural order that the key identifies. */
  function FindPost(posts: seq<Post>, key: Id, orSlug: bool): (r: Option<nat>)
    ensures r.Some? ==> r.value < |posts| && Identifies(posts[r.value], key, orSlug)
    ensures r.Some? ==> forall j :: 0 <= j < r.value ==> !Identifies(posts[j], key, orSlug)
    ensures r.None? ==> forall j :: 0 <= j < |posts| ==> !Identifies(posts[j], key, orSlug)
  {
    if posts == [] then None
    else if Identifies(posts[0], key, orSlug) then Some(0)
    else
      match FindPost(posts[1..], key, orSlug)
      case None => None
      case Some(k) => Some(k + 1)
  }

  /** Two stores that agree on which posts a key identifies give the same lookup. */
  lemma FindPostSameKeys(xs: seq<Post>, ys: seq<Post>, key: Id, orSlug: bool)
    requires |xs| == |ys|
    requires forall j :: 0 <= j < |xs| ==> Identifies(xs[j], key, orSlug) == Identifies(ys[j], key, orSlug)
    ensures FindPost(xs, key, orSlug) == FindPost(ys, key, orSlug)
  {
  }

  /** `incrementViewCount` on the post at `i`, treated as +1 on that post alone. */
  function RecordView(posts: seq<Post>, i: nat): (r: seq<Post>)
    requires i < |posts|
    ensures |r| == |posts|
    ensures r[i] == posts[i].(viewCount := posts[i].viewCount + 1)
    ensures forall j :: 0 <= j < |posts| && j != i ==> r[j] == posts[j]
  {
    posts[i := posts[i].(viewCount := posts[i].viewCount + 1)]
  }

  /** `GET /posts/:id`: a miss is 404 with nothing changed; a hit adds one
      view to that post and returns it. */
  method GetPost(db: Database, key: Id) returns (reply: Reply<Post>)
    modifies db
    ensures db.categories == old(db.categories)
    ensures FindPost(old(db.posts), key, true).None? ==>
      reply == Failure(NOT_FOUND, "Post not found") && db.posts == old(db.posts)
    ensures FindPost(old(db.posts), key, true).Some? ==>
      var i := FindPost(old(db.posts), key, true).value;
      db.posts == RecordView(old(db.posts), i) && reply == Success(OK, db.posts[i])
  {
    var found := FindPost(db.posts, key, true);
    if found.None? {
      return Failure(NOT_FOUND, "Post not found");
    }
    db.posts := RecordView(db.posts, found.value);
    reply := Success(OK, db.posts[found.value]);
  }

  /** The store after `n` successive `GET /posts/:key` requests. */
  function ViewRepeatedly(posts: seq<Post>, key: Id, n: nat): seq<Post>
  {
    if n == 0 then posts
    else
      var before := ViewRepeatedly(posts, key, n - 1);
      match FindPost(before, key, true)
      case None => before
      case Some(i) => RecordView(before, i)
  }

  /** `n` fetches of a post add exactly `n` to its view count, and to nothing else. */
  lemma {:induction false} ViewsAccumulate(posts: seq<Post>, key: Id, n: nat)
    requires FindPost(posts, key, true).Some?
    ensures var i := FindPost(posts, key, true).value;
      var after := ViewRepeatedly(posts, key, n);
      && |after| == |posts|
      && FindPost(after, key, true) == Some(i)
      && after[i] == posts[i].(viewCount := posts[i].viewCount + n)
      && forall j :: 0 <= j < |posts| && j != i ==> after[j] == posts[j]
  {
    var i := FindPost(posts, key, true).value;
    if n > 0 {
      ViewsAccumulate(posts, key, n - 1);
      var before := ViewRepeatedly(posts, key, n - 1);
      FindPostSameKeys(before, RecordView(before, i), key, true);
    }
  }

  // ----- Tags -----

  /** `req.body.tags` as multipart or JSON delivers it. */
  datatype TagsInput = NoTags | TagString(text: string) | TagList(items: seq<string>)

  /** `items.filter(tag => tag.trim())`: drops blank entries, keeps the rest as given. */
  function DropBlank(items: seq<string>): (r: seq<string>)
    ensures |r| <= |items|
    ensures forall x :: x in r <==> x in items && !Blank(x)
  {
    if items == [] then []
    else
      assert forall x :: x in items <==> x == items[0] || x in items[1..];
      if Blank(items[0]) then DropBlank(items[1..]) else [items[0]] + DropBlank(items[1..])
  }

  /** The filter works entry by entry: it keeps the order of what it keeps. */
  lemma {:induction false} DropBlankAppend(a: seq<string>, b: seq<string>)
    ensures DropBlank(a + b) == DropBlank(a) + DropBlank(b)
  {
    if a == [] {
      assert a + b == b;
    } else {
      assert (a + b)[0] == a[0] && (a + b)[1..] == a[1..] + b;
      DropBlankAppend(a[1..], b);
    }
  }

  /** One entry: dropped when blank, kept as given otherwise. */
  lemma DropBlankSingle(x: string)
    ensures Blank(x) ==> DropBlank([x]) == []
    ensures !Blank(x) ==> DropBlank([x]) == [x]
  {
  }

  /** A list without blank entries passes through untouched: entries are not trimmed. */
  lemma {:induction false} DropBlankKeepsEntries(items: seq<string>)
    requires forall i :: 0 <= i < |items| ==> !Blank(items[i])
    ensures DropBlank(items) == items
  {
    if items != [] {
      DropBlankKeepsEntries(items[1..]);
    }
  }

  /** The tag handling of create and update. `None` means the body's tags are
      falsy and left as they are. */
  function NormalizeTags(t: TagsInput): (r: Option<seq<string>>)
    ensures r.None? <==> t.NoTags? || t == TagString("")
    ensures t.TagString? && r.Some? ==> AllTags(r.value)
    ensures t.TagList? ==> r == Some(DropBlank(t.items))
  {
    match t
    case NoTags => None
    case TagString(s) => if s == "" then None else Some(SplitTags(s))
    case TagList(items) => Some(DropBlank(items))
  }

  /** Tags are not deduplicated: "a, b, a" keeps both a's, in order (here
      for any two tag characters standing in for a and b). */
  lemma NoDeduplication(a: char, b: char)
    requires !IsSpace(a) && !IsSpace(b) && a != ',' && b != ','
    ensures NormalizeTags(TagString([a, ',', ' ', b, ',', ' ', a])) == Some([[a], [b], [a]])
  {
    var xs := [[a], [b], [a]];
    var text := [a, ',', ' ', b, ',', ' ', a];
    assert AllTags(xs) by {
      TrimmedIsFixed([a]);
      TrimmedIsFixed([b]);
      assert IsTag([a]) && IsTag([b]);
    }
    assert Join(xs, ", ") == text by {
      assert xs[1..] == [[b], [a]] && xs[1..][1..] == [[a]];
      assert Join([[a]], ", ") == [a];
      assert Join([[b], [a]], ", ") == [b, ',', ' ', a];
    }
    assert SplitTags(text) == xs by {
      SpacedTagsSplitBack(xs);
    }
    assert NormalizeTags(TagString(text)) == Some(SplitTags(text));
  }

  // ----- POST /posts -----

  /** The fields of a create request that reach the stored post. `author` is
      whatever the client sent, and is ignored; `excerpt`, `isPublished`,
      `slug`, `viewCount`, `comments` and `featuredImage` are spread into the
      new post as sent, `None` being a field the body does not carry. */
  datatype NewPostBody = NewPostBody(
    title: string,
    content: string,
    excerpt: Option<string>,
    category: Id,
    tags: TagsInput,
    isPublished: Option<bool>,
    author: Option<Id>,
    slug: Option<string>,
    viewCount: Option<nat>,
    comments: Option<seq<Comment>>,
    featuredImage: Option<string>)

  /** The validation chain: title non-blank, content non-empty (white space
      passes), category non-empty; the first failure's message is reported. */
  function CreateError(body: NewPostBody): (r: Option<string>)
    ensures r.None? <==> !Blank(body.title) && body.content != "" && body.category != ""
    ensures Blank(body.title) ==> r == Some("Title is required")
    ensures !Blank(body.title) && body.content == "" ==> r == Some("Content is required")
    ensures !Blank(body.title) && body.content != "" && body.category == "" ==> r == Some("Category is required")
  {
    if Trim(body.title) == "" then Some("Title is required")
    else if body.content == "" then Some("Content is required")
    else if body.category == "" then Some("Category is required")
    else None
  }

  /** What the Post schema fills in for a field the create body leaves out.
      The schema itself is not part of this model, so its defaults are a
      parameter of the create operation. */
  datatype PostDefaults = PostDefaults(excerpt: string, isPublished: bool)

  /** The post `Post.create` stores from `{ ...req.body, author }`. The title
      is stored trimmed because the validation chain's `trim()` rewrites the
      body; the author is always the requester; an uploaded file overrides a
      `featuredImage` the body sent. Fields the body leaves out take the
      defaults: `generatedSlug` for the slug, no views, no comments, and the
      schema's `defaults` for the excerpt and the published flag. */
  function NewPost(body: NewPostBody, requester: Requester, file: Option<string>, id: Id,
                   generatedSlug: string, defaults: PostDefaults, now: int): (p: Post)
    ensures p.id == id && p.createdAt == now
    ensures p.author == requester.id
    ensures p.title == Trim(body.title) && p.content == body.content && p.category == body.category
    ensures body.excerpt.None? ==> p.excerpt == defaults.excerpt
    ensures body.excerpt.Some? ==> p.excerpt == body.excerpt.value
    ensures body.isPublished.None? ==> p.isPublished == defaults.isPublished
    ensures body.isPublished.Some? ==> p.isPublished == body.isPublished.value
    ensures p.tags == NormalizeTags(body.tags).GetOr([])
    ensures body.slug.None? ==> p.slug == generatedSlug
    ensures body.slug.Some? ==> p.slug == body.slug.value
    ensures body.viewCount.None? ==> p.viewCount == 0
    ensures body.comments.None? ==> p.comments == []
    ensures body.viewCount.Some? ==> p.viewCount == body.viewCount.value
    ensures body.comments.Some? ==> p.comments == body.comments.value
    ensures file.Some? ==> p.featuredImage == file
    ensures file.None? ==> p.featuredImage == body.featuredImage
  {
    Post(id, body.slug.GetOr(generatedSlug), Trim(body.title), body.content, body.excerpt.GetOr(defaults.excerpt),
      requester.id, body.category, NormalizeTags(body.tags).GetOr([]), body.isPublished.GetOr(defaults.isPublished),
      body.viewCount.GetOr(0),
      body.comments.GetOr([]), now, if file.Some? then file else body.featuredImage)
  }

  /** `POST /posts`. Validation first (400), then the category lookup (404);
      only then is one post appended. `id`, `generatedSlug`, `defaults` and
      `now` are what the database and the Post model assign. */
  method CreatePost(db: Database, requester: Requester, body: NewPostBody, file: Option<string>,
                    id: Id, generatedSlug: string, defaults: PostDefaults, now: int)
    returns (reply: Reply<Post>)
    modifies db
    ensures db.categories == old(db.categories)
    ensures CreateError(body).Some? ==>
      reply == Failure(BAD_REQUEST, CreateError(body).value) && db.posts == old(db.posts)
    ensures CreateError(body).None? && !CategoryExists(old(db.categories), body.category) ==>
      reply == Failure(NOT_FOUND, "Category not found") && db.posts == old(db.posts)
    ensures CreateError(body).None? && CategoryExists(old(db.categories), body.category) ==>
      var p := NewPost(body, requester, file, id, generatedSlug, defaults, now);
      db.posts == old(db.posts) + [p] && reply == Success(CREATED, p)
  {
    var invalid := CreateError(body);
    if invalid.Some? {
      return Failure(BAD_REQUEST, invalid.value);
    }
    if !CategoryExists(db.categories, body.category) {
      return Failure(NOT_FOUND, "Category not found");
    }
    var p := NewPost(body, requester, file, id, generatedSlug, defaults, now);
    db.posts := db.posts + [p];
    reply := Success(CREATED, p);
  }

  // ----- PUT /posts/:id and DELETE /posts/:id -----

  /** The author of a post, or any admin. */
  predicate CanModify(p: Post, requester: Requester): (r: bool)
    ensures p.author == requester.id ==> r
    ensures requester.role == AdminRole ==> r
    ensures r && requester.role != AdminRole ==> p.author == requester.id
  {
    p.author == requester.id || requester.role == AdminRole
  }

  /** The fields an update request may carry; `None` leaves a field as it is. */
  datatype PostChanges = PostChanges(
    title: Option<string>,
    content: Option<string>,
    excerpt: Option<string>,
    category: Option<Id>,
    tags: TagsInput,
    isPublished: Option<bool>,
    author: Option<Id>,
    slug: Option<string>,
    viewCount: Option<nat>,
    comments: Option<seq<Comment>>,
    featuredImage: Option<string>)

  /** The request that sends nothing. */
  const NO_CHANGES := PostChanges(None, None, None, None, NoTags, None, None, None, None, None, None)

  /** `findByIdAndUpdate(id, req.body)` after the handler's rewrites of tags
      and image. The body is written as sent, so it may also change the
      author, the slug, the view count and the comments; only the id and the
      creation time are out of its reach. An uploaded file overrides a
      `featuredImage` the body sent. */
  function ApplyChanges(p: Post, changes: PostChanges, file: Option<string>): (r: Post)
    ensures r.id == p.id && r.createdAt == p.createdAt
    ensures changes.title.None? ==> r.title == p.title
    ensures changes.title.Some? ==> r.title == changes.title.value
    ensures changes.content.None? ==> r.content == p.content
    ensures changes.content.Some? ==> r.content == changes.content.value
    ensures changes.excerpt.None? ==> r.excerpt == p.excerpt
    ensures changes.excerpt.Some? ==> r.excerpt == changes.excerpt.value
    ensures changes.category.None? ==> r.category == p.category
    ensures changes.category.Some? ==> r.category == changes.category.value
    ensures changes.isPublished.None? ==> r.isPublished == p.isPublished
    ensures changes.isPublished.Some? ==> r.isPublished == changes.isPublished.value
    ensures changes.author.None? ==> r.author == p.author
    ensures changes.author.Some? ==> r.author == changes.author.value
    ensures changes.slug.None? ==> r.slug == p.slug
    ensures changes.viewCount.None? ==> r.viewCount == p.viewCount
    ensures changes.comments.None? ==> r.comments == p.comments
    ensures changes.slug.Some? ==> r.slug == changes.slug.value
    ensures changes.viewCount.Some? ==> r.viewCount == changes.viewCount.value
    ensures changes.comments.Some? ==> r.comments == changes.comments.value
    ensures r.tags == NormalizeTags(changes.tags).GetOr(p.tags)
    ensures file.Some? ==> r.featuredImage == file
    ensures file.None? ==> r.featuredImage == if changes.featuredImage.Some? then changes.featuredImage else p.featuredImage
    ensures changes == NO_CHANGES && file.None? ==> r == p
  {
    p.(title := changes.title.GetOr(p.title),
       content := changes.content.GetOr(p.content),
       excerpt := changes.excerpt.GetOr(p.excerpt),
       category := changes.category.GetOr(p.category),
       tags := NormalizeTags(changes.tags).GetOr(p.tags),
       isPublished := changes.isPublished.GetOr(p.isPublished),
       author := changes.author.GetOr(p.author),
       slug := changes.slug.GetOr(p.slug),
       viewCount := changes.viewCount.GetOr(p.viewCount),
       comments := changes.comments.GetOr(p.comments),
       featuredImage := if file.Some? then file else if changes.featuredImage.Some? then changes.featuredImage else p.featuredImage)
  }

  /** The view count is not monotonic: an update that sends `viewCount: 0`
      resets it, and one that sends `comments: []` wipes the comments. */
  lemma UpdateCanResetViews(p: Post)
    requires p.viewCount > 0 || p.comments != []
    ensures var r := ApplyChanges(p, NO_CHANGES.(viewCount := Some(0), comments := Some([])), None);
      r.viewCount == 0 && r.comments == [] && (r.viewCount < p.viewCount || |r.comments| < |p.comments|)
  {
  }

  /** The category check of an update: only a non-empty category is looked up. */
  predicate UnknownCategory(categories: seq<Category>, category: Option<Id>) {
    category.Some? && category.value != "" && !CategoryExists(categories, category.value)
  }

  /** `PUT /posts/:id`: 404 before 403, then the category check, then the write. */
  method UpdatePost(db: Database, requester: Requester, id: Id, changes: PostChanges, file: Option<string>)
    returns (reply: Reply<Post>)
    modifies db
    ensures db.categories == old(db.categories)
    ensures FindPost(old(db.posts), id, false).None? ==>
      reply == Failure(NOT_FOUND, "Post not found") && db.posts == old(db.posts)
    ensures FindPost(old(db.posts), id, false).Some? ==>
      var i := FindPost(old(db.posts), id, false).value;
      && (!CanModify(old(db.posts)[i], requester) ==>
            reply == Failure(FORBIDDEN, "Not authorized to update this post") && db.posts == old(db.posts))
      && (CanModify(old(db.posts)[i], requester) && UnknownCategory(old(db.categories), changes.category) ==>
            reply == Failure(NOT_FOUND, "Category not found") && db.posts == old(db.posts))
      && (CanModify(old(db.posts)[i], requester) && !UnknownCategory(old(db.categories), changes.category) ==>
            db.posts == old(db.posts)[i := ApplyChanges(old(db.posts)[i], changes, file)]
            && reply == Success(OK, db.posts[i]))
  {
    var found := FindPost(db.posts, id, false);
    if found.None? {
      return Failure(NOT_FOUND, "Post not found");
    }
    var i := found.value;
    if !CanModify(db.posts[i], requester) {
      return Failure(FORBIDDEN, "Not authorized to update this post");
    }
    if UnknownCategory(db.categories, changes.category) {
      return Failure(NOT_FOUND, "Category not found");
    }
    db.posts := db.posts[i := ApplyChanges(db.posts[i], changes, file)];
    reply := Success(OK, db.posts[i]);
  }

  /** `DELETE /posts/:id`: 404 before 403; a permitted delete removes exactly that post. */
  method DeletePost(db: Database, requester: Requester, id: Id) returns (reply: Reply<()>)
    modifies db
    ensures db.categories == old(db.categories)
    ensures FindPost(old(db.posts), id, false).None? ==>
      reply == Failure(NOT_FOUND, "Post not found") && db.posts == old(db.posts)
    ensures FindPost(old(db.posts), id, false).Some? ==>
      var i := FindPost(old(db.posts), id, false).value;
      && (!CanModify(old(db.posts)[i], requester) ==>
            reply == Failure(FORBIDDEN, "Not authorized to delete this post") && db.posts == old(db.posts))
      && (CanModify(old(db.posts)[i], requester) ==>
            db.posts == old(db.posts)[..i] + old(db.posts)[i + 1..]
            && multiset(db.posts) == multiset(old(db.posts)) - multiset{old(db.posts)[i]}
            && reply == Success(OK, ()))
  {
    var found := FindPost(db.posts, id, false);
    if found.None? {
      return Failure(NOT_FOUND, "Post not found");
    }
    var i := found.value;
    if !CanModify(db.posts[i], requester) {
      return Failure(FORBIDDEN, "Not authorized to delete this post");
    }
    assert db.posts == db.posts[..i] + [db.posts[i]] + db.posts[i + 1..];
    db.posts := db.posts[..i] + db.posts[i + 1..];
    reply := Success(OK, ());
  }

  // ----- POST /posts/:id/comments -----

  /** `POST /posts/:id/comments`: blank content is refused before the lookup;
      a found post gets the comment (content trimmed by the validation chain)
      appended after its earlier comments. */
  method AddComment(db: Database, requester: Requester, id: Id, content: string) returns (reply: Reply<Post>)
    modifies db
    ensures db.categories == old(db.categories)
    ensures Blank(content) ==>
      reply == Failure(BAD_REQUEST, "Comment content is required") && db.posts == old(db.posts)
    ensures !Blank(content) && FindPost(old(db.posts), id, false).None? ==>
      reply == Failure(NOT_FOUND, "Post not found") && db.posts == old(db.posts)
    ensures !Blank(content) && FindPost(old(db.posts), id, false).Some? ==>
      var i := FindPost(old(db.posts), id, false).value;
      var before := old(db.posts)[i];
      && db.posts == old(db.posts)[i := before.(comments := before.comments + [Comment(requester.id, Trim(content))])]
      && reply == Success(CREATED, db.posts[i])
  {
    if Trim(content) == "" {
      return Failure(BAD_REQUEST, "Comment content is required");
    }
    var found := FindPost(db.posts, id, false);
    if found.None? {
      return Failure(NOT_FOUND, "Post not found");
    }
    var i := found.value;
    var before := db.posts[i];
    db.posts := db.posts[i := before.(comments := before.comments + [Comment(requester.id, Trim(content))])];
    reply := Success(CREATED, db.posts[i]);
  }
}
