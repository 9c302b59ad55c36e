# Blog app rules, modelled in Dafny

This project models the rules of a small MERN blog, and proves properties about them.

On the server side it covers two route files:

- the CommonJS post routes: list, search, fetch by id (and, in the model, by slug: see Left out), create, update, delete and comment;
- the CommonJS category routes: list and admin-only create.

From the ES-module backend it covers:

- the Category document: slug derivation, schema rules and the `url` virtual;
- the category controller;
- the comment controller;
- the User document: schema rules and the password-hashing save hook.

On the client it covers three pieces of state logic:

- the post cache held by `PostProvider`;
- the home page's page, category and query state;
- the post form, including the round trip of tags through the form and back to the server.

The database is replaced by sequences held in `Database` (server) and `Store` (backend).

- Handlers that only read become functions returning a `Reply`.
- Handlers that write become methods that update those sequences.

Client state objects are classes whose methods reassign their fields. An API call's answer is a parameter: the value it resolved with, or the server's error text.

Modules:

| module | models |
|---|---|
| `Web` | `Option`, `Reply`, status codes, the requester, the client's error-text fallback |
| `Text` | JavaScript `trim`, `split(',')` and `join`, the tag splitting, code-point string order |
| `Sorting` | the database's `sort()` as a stable insertion sort under a given order |
| `ServerModel`, `ServerPosts`, `ServerCategories` | `server/routes/posts.js`, `server/routes/categories.js` |
| `CategoryModel` | `backend/models/Category.model.js` |
| `BackendStore`, `CategoryController`, `CommentController` | `backend/Controllers/category.controller.js`, `backend/Controllers/comment.controller.js` |
| `UserModel` | `backend/models/User.model.js` |
| `PostContext`, `Home`, `PostForm`, `TagRoundTrip` | `client/src/context/PostContext.jsx`, `client/src/pages/Home.jsx`, `client/src/components/PostForm.jsx` |

Three behaviours of the code differ from a naive reading, and the model follows the code:

- The server's validation chains (`body('title').trim()`, `body('name').trim()`, `body('content').trim()`) are sanitizers: they rewrite the request body. So a created post's title, a created server category's name and a server comment's content are stored trimmed.
- In the backend, Mongoose runs the schema validators before `pre('save')` hooks. The Category hook's slug therefore arrives too late for the required-slug validator (see Findings).
- The server's create and update handlers write the request body as sent (`{ ...req.body, author }` and `findByIdAndUpdate(id, req.body)`). A body may therefore set a post's slug, view count or comments: the view count is not monotonic, and an update can wipe the comments (`ServerPosts.UpdateCanResetViews`).

## Model

| member | source | states |
|---|---|---|
| `Web.ErrorText` | client/src/context/PostContext.jsx:35 | the server's error text when it sent a non-empty one, the fallback otherwise |
| `Text.Trim` | server/routes/posts.js:139 | the result is empty exactly when the input is blank, and otherwise starts and ends with a non-space character |
| `Text.TrimIdempotent` | server/routes/posts.js:172 | trimming twice is trimming once |
| `Text.TrimPadded` | backend/models/User.model.js:9 | white space padding on both sides does not change the trim |
| `Text.Split` | server/routes/posts.js:172 | `split` yields at least one piece and no piece contains the separator |
| `Text.SplitJoin` | server/routes/posts.js:172 | splitting a join of separator-free pieces gives the pieces back |
| `Text.JoinSplit` | client/src/components/PostForm.jsx:77-78 | joining the pieces of a split with the same separator gives the string back |
| `Text.Join` | client/src/components/PostForm.jsx:78 | (also line 25) an empty list joins to the empty string and a single entry to itself; a longer join opens with its first entry followed by the separator (with `SplitJoin` and `JoinSplit` as its inverse) |
| `Text.SplitTags` | server/routes/posts.js:172 | every tag the split-trim-filter chain yields is non-empty, trimmed and comma-free |
| `Text.TrimAll` | server/routes/posts.js:172 | `map(tag => tag.trim())`: every entry trimmed, in place, none dropped |
| `Text.DropEmpty` | server/routes/posts.js:172 | `filter(tag => tag)`: an entry remains exactly when it is a non-empty entry of the input |
| `Text.DropEmptyAppend` | server/routes/posts.js:172 | the filter works entry by entry, so the kept entries keep their order and repetitions |
| `Text.CleanTagsUnchanged` | server/routes/posts.js:172 | clean tags pass the trim and the filter unchanged |
| `Text.JoinedTagsSplitBack` | server/routes/posts.js:172 | clean tags joined with ',' split back into the same tags, in order, with repetitions |
| `Text.SpacedTagsSplitBack` | client/src/components/PostForm.jsx:25 | clean tags joined with ", " split back into the same tags |
| `Text.StrLeTotal` | server/routes/categories.js:14 | any two names are ordered one way or the other |
| `Text.StrLeTransitive` | server/routes/categories.js:14 | the name order is transitive |
| `Sorting.SortBy` | server/routes/posts.js:42 | sorting keeps the length and the multiset of elements |
| `Sorting.SortBySorted` | server/routes/posts.js:42 | under a total preorder the result is in order |
| `Sorting.SortByMembers` | server/routes/posts.js:42 | an element is in the sorted result exactly when it is in the input |
| `ServerPosts.IntOr` | server/routes/posts.js:16-17 | a missing, non-numeric or zero page or limit falls back to its default, anything else is kept |
| `ServerPosts.Present` | server/routes/posts.js:28-31 | a missing or empty parameter does not filter |
| `ServerPosts.CeilDiv` | server/routes/posts.js:54 | `pages` is the ceiling of total/limit, for either sign of limit |
| `ServerPosts.Window` | server/routes/posts.js:43-44 | skip-then-limit serves the `take` posts (or fewer at the end) starting at position `skip`, and nothing when `skip` is past the end |
| `ServerPosts.SearchFilter` | server/routes/posts.js:76-83 | the search keeps exactly the published posts whose title, content, excerpt or one of whose tags match the query, whatever their category |
| `ServerPosts.ListFilter` | server/routes/posts.js:21-37 | published-only unless `published` is exactly "false"; category and query only when non-empty; tags are not searched |
| `ServerPosts.Select` | server/routes/posts.js:39 | `find` returns a post exactly when it is stored and the filter keeps it |
| `ServerPosts.SelectAppend` | server/routes/posts.js:39 | `find` works post by post: the kept posts come in natural order, each as often as stored |
| `ServerPosts.SelectSingle` | server/routes/posts.js:39 | a single stored post is returned once when the filter keeps it, not at all otherwise |
| `ServerPosts.ListPosts` | server/routes/posts.js:14-61 | a negative offset fails with 500. Otherwise: matching posts, newest first, starting at offset (page-1)*limit, at most \|limit\| of them; `pages` is computed from the total whatever page is served; a page past the end is empty |
| `ServerPosts.SearchPosts` | server/routes/posts.js:66-98 | 400 exactly when `q` is missing or empty; otherwise the newest min(20, hits) published posts matching title, content, excerpt or a tag, with `count` equal to the number returned |
| `ServerPosts.ListIgnoresTags` | server/routes/posts.js:31-37 | the list's text query never looks at tags |
| `ServerPosts.SearchAlsoMatchesTags` | server/routes/posts.js:76-84 | a published post matched only by a tag is found by search but not by the list |
| `ServerPosts.FindPost` | server/routes/posts.js:105-107 | the first post whose id (or slug) is the key, or none when no post has it |
| `ServerPosts.RecordView` | server/routes/posts.js:119-120 | one view is added to that post and nothing else changes |
| `ServerPosts.GetPost` | server/routes/posts.js:103-129 | a miss is 404 with nothing changed; a hit adds exactly one view to that post and returns it |
| `ServerPosts.ViewsAccumulate` | server/routes/posts.js:119-120 | n fetches add exactly n views to that post and change no other post |
| `ServerPosts.DropBlank` | server/routes/posts.js:170 | the array form keeps an entry exactly when it is not blank |
| `ServerPosts.DropBlankAppend` | server/routes/posts.js:170 | the filter works entry by entry, so the kept entries keep their order and repetitions |
| `ServerPosts.DropBlankSingle` | server/routes/posts.js:170 | a single blank entry is dropped and a non-blank one kept as given |
| `ServerPosts.DropBlankKeepsEntries` | server/routes/posts.js:229 | entries of the array form are not trimmed: a list without blank entries passes unchanged |
| `ServerPosts.NormalizeTags` | server/routes/posts.js:167-174 | absent or empty tags are skipped; a string yields clean tags; an array yields its non-blank entries |
| `ServerPosts.NoDeduplication` | server/routes/posts.js:172 | "a, b, a" yields a, b, a: tags are not deduplicated |
| `ServerPosts.CreateError` | server/routes/posts.js:139-151 | the first failing check, in order: blank title, empty content (white space passes), empty category |
| `ServerPosts.NewPost` | server/routes/posts.js:162-181 | the author is always the requester whatever the body says; the title is stored trimmed; tags are normalised; excerpt, published flag, slug, view count and comments are the body's when it sends them, otherwise the Post schema's defaults, the generated slug, no views and no comments; an uploaded file overrides a sent image name |
| `ServerPosts.CreatePost` | server/routes/posts.js:134-193 | 400 before the category lookup, 404 for an unknown category, both with nothing created; otherwise exactly one post is appended and returned with 201 |
| `ServerPosts.ApplyChanges` | server/routes/posts.js:221-246 | the id and creation time never change; each of title, content, excerpt, category, isPublished, author, slug, view count and comments takes the sent value when the body sends it and stays as it was otherwise; normalised tags replace the old ones only when some were sent; an uploaded file overrides a sent image name; an empty request without a file leaves the post as it was |
| `ServerPosts.UpdateCanResetViews` | server/routes/posts.js:246 | an update that sends `viewCount: 0` and `comments: []` resets the views and wipes the comments |
| `ServerPosts.CanModify` | server/routes/posts.js:214 | (the same guard at line 278) the post's author may always modify it, an admin may always modify any post, and nobody else may |
| `ServerPosts.UpdatePost` | server/routes/posts.js:198-261 | 404 before 403; only the author or an admin may update; an unknown category gives 404; every refusal leaves the store unchanged |
| `ServerPosts.DeletePost` | server/routes/posts.js:266-294 | 404 before 403; a permitted delete removes exactly that post and keeps the others in order |
| `ServerPosts.AddComment` | server/routes/posts.js:299-340 | blank content gives 400 before the lookup; a missing post gives 404; otherwise one comment by the requester is appended after the earlier ones, with 201 |
| `ServerCategories.ByNameIsPreorder` | server/routes/categories.js:14 | ordering by name is a total preorder |
| `ServerCategories.ListCategories` | server/routes/categories.js:12-23 | every category exactly once, sorted by name ascending, `count` equal to the number returned |
| `ServerCategories.CreateCategory` | server/routes/categories.js:28-54 | a non-admin is refused; a name blank after trimming gives 400 "Category name is required"; both leave the store unchanged; otherwise the category is created with its trimmed name and returned with 201 |
| `CategoryModel.LowerChar` | backend/models/Category.model.js:38 | ASCII upper-case letters become lower case, everything else stays, and word characters stay word characters |
| `CategoryModel.Lower` | backend/models/Category.model.js:38 | every character lowered in place, the length kept |
| `CategoryModel.RemoveNonWord` | backend/models/Category.model.js:39 | exactly the word characters of the input remain |
| `CategoryModel.CollapseHyphens` | backend/models/Category.model.js:40 | the result never holds two hyphens in a row; it keeps the first character and exactly the set of characters of the input, and is no longer than it |
| `CategoryModel.CollapseHyphensNoOp` | backend/models/Category.model.js:40 | without hyphens the collapse step changes nothing |
| `CategoryModel.Slug` | backend/models/Category.model.js:37-40 | a slug contains only a-z, 0-9 and `_`, and is no longer than the name |
| `CategoryModel.SlugSkipsHyphenStep` | backend/models/Category.model.js:38-40 | a slug has no hyphen, so the hyphen step never applies |
| `CategoryModel.SlugAppend` | backend/models/Category.model.js:37-39 | the slug of a concatenation is the concatenation of the slugs |
| `CategoryModel.SlugOfChar` | backend/models/Category.model.js:38-39 | a word character contributes its lower-case form; any other character vanishes |
| `CategoryModel.SlugOfSlugChars` | backend/models/Category.model.js:37-40 | a string of slug characters is its own slug |
| `CategoryModel.SlugIdempotent` | backend/models/Category.model.js:37-40 | slug(slug(name)) = slug(name) |
| `CategoryModel.SlugDropsSeparators` | backend/models/Category.model.js:37-39 | "Tech & Science" becomes "techscience" (for any two such words) |
| `CategoryModel.Url` | backend/models/Category.model.js:47-49 | the URL is "/categories/" followed by the slug |
| `CategoryModel.UrlInjective` | backend/models/Category.model.js:47-49 | different slugs give different URLs |
| `CategoryModel.ValidationErrors` | backend/models/Category.model.js:4-17 | name and slug are required; the description holds at most 200 characters |
| `CategoryModel.AppendKeepsUnique` | backend/models/Category.model.js:4-13 | adding a category keeps names and slugs unique exactly when neither is taken |
| `CategoryModel.AfterHook` | backend/models/Category.model.js:31-40 | the slug is derived from the name only when the name was modified |
| `CategoryModel.SaveValidateFirst` | backend/models/Category.model.js:31-44 | save as Mongoose orders it: validators first, then the hook |
| `CategoryModel.NewCategoryNeverSaves` | backend/models/Category.model.js:9-13 | in that order a new category always fails with its slug missing |
| `CategoryModel.SaveHookFirst` | backend/models/Category.model.js:30-44 | save with the slug derived before validation |
| `CategoryModel.NewCategorySaves` | backend/models/Category.model.js:30-44 | with the hook first, a new category saves exactly when its name yields a non-empty slug and its description fits; the saved slug is slug(name) |
| `CategoryModel.CategoryDocument.constructor` | backend/models/Category.model.js:3-28 | a new document has its name modified and no slug |
| `CategoryModel.CategoryDocument.Loaded` | backend/models/Category.model.js:32 | a document read from the database has nothing modified |
| `CategoryModel.CategoryDocument.SetName` | backend/models/Category.model.js:32 | assigning the name marks it modified only when the value changes |
| `CategoryModel.CategoryDocument.PreSave` | backend/models/Category.model.js:31-44 | the slug is recomputed only when the name was modified, otherwise left untouched; nothing else changes |
| `BackendStore.FindStoredPost` | backend/Controllers/comment.controller.js:23 | the position of the post with that id, or none when no post has it |
| `CategoryController.NewRecord` | backend/Controllers/category.controller.js:13-17 | only the name and description are copied from the body; the slug is derived from the name |
| `CategoryController.CreateCategory` | backend/Controllers/category.controller.js:4-29 | a missing or blank name gives 400 with nothing saved; a rejected save gives 500 with nothing saved; otherwise one category is appended and returned with 200 |
| `CategoryController.CreatedCategoryIsSound` | backend/Controllers/category.controller.js:13-18 | a created category has the requested name and the slug derived from it, whatever slug the body sent, and the keys stay unique |
| `CategoryController.CreateReplyAsWritten` | backend/Controllers/category.controller.js:4-29 | the controller as written: a missing or blank name gives 400 "Please enter the name", anything else goes through a save that validates before the hook |
| `CategoryController.CreateAsWrittenAlwaysFails` | backend/Controllers/category.controller.js:13-17 | as written, every request that passes the name guard gets 500 |
| `CategoryController.NewestFirstIsPreorder` | backend/Controllers/category.controller.js:43 | newest-first is a total preorder |
| `CategoryController.GetCategories` | backend/Controllers/category.controller.js:32-48 | every category exactly once, newest first, `count` equal to the number returned |
| `CommentController.AddComment` | backend/Controllers/comment.controller.js:3-55 | the content guard (400) comes before the user guard (401), and both come before any store access; an unknown post gives 404 with nothing changed; otherwise the untrimmed comment is appended last and returned |
| `CommentController.GetPostComments` | backend/Controllers/comment.controller.js:57-81 | given the post id: 404 exactly when the post is missing; otherwise its comments, with `count` equal to their number |
| `CommentController.MountedParams` | backend/Routes/posts.route.js:11 | the comment routes receive the post id under the name `postId`, and no `PostId` |
| `CommentController.GetPostCommentsAsWritten` | backend/Controllers/comment.controller.js:61-74 | the controller reads `PostId`: without it the reply is 404, with it the listing for that id |
| `CommentController.ListingAsWiredAlwaysMissing` | backend/Controllers/comment.controller.js:61-74 | as mounted, listing the comments of any post answers 404 |
| `CommentController.ListingByMountedName` | backend/Routes/comments.route.js:6-11 | reading the id under its mounted name lists an existing post's comments |
| `CommentController.AddThenList` | backend/Controllers/comment.controller.js:23-38 | after an add the listing has one more comment, the new one last and the earlier ones unchanged |
| `UserModel.ParseRole` | backend/models/User.model.js:26-30 | exactly "user", "author" and "admin" are roles |
| `UserModel.UserErrors` | backend/models/User.model.js:4-41 | the username, after trimming, is required and at most 30 long; e-mail and password are required and the password is at least 6 long; the role is in the enum; the bio is at most 500 long |
| `UserModel.ValidateUser` | backend/models/User.model.js:4-41 | invalid exactly when some validator rejects, naming those paths; a valid user has a trimmed username, a pattern-matching e-mail, a password of at least 6, the role "user" when none was given and the parsed role otherwise, the bio as given, the name trimmed, and the default avatar when none was given |
| `UserModel.PasswordBoundary` | backend/models/User.model.js:19-22 | a password of exactly 6 characters passes and one of 5 fails |
| `UserModel.UsernameTrimmedFirst` | backend/models/User.model.js:5-11 | padding a username with white space never changes whether it passes |
| `UserModel.InsertKeepsUnique` | backend/models/User.model.js:8-15 | adding a user keeps usernames and e-mails unique exactly when neither is taken |
| `UserModel.UserDocument.constructor` | backend/models/User.model.js:51-52 | a new document counts its password as modified |
| `UserModel.UserDocument.Loaded` | backend/models/User.model.js:51-52 | a document read from the database has an unmodified password |
| `UserModel.UserDocument.SetPassword` | backend/models/User.model.js:52 | assigning the password marks it modified only when the value changes |
| `UserModel.UserDocument.PreSave` | backend/models/User.model.js:51-60 | the password is replaced by its hash exactly when it was modified; otherwise nothing changes |
| `UserModel.UserDocument.Save` | backend/models/User.model.js:51-60 | save hashes a modified password and leaves the document unmodified |
| `UserModel.SaveTwice` | backend/models/User.model.js:51-54 | saving twice hashes once |
| `PostContext.ReplaceById` | client/src/context/PostContext.jsx:73-75 | every post with the id is replaced, others unchanged, length kept |
| `PostContext.RemoveById` | client/src/context/PostContext.jsx:90 | exactly the posts without the id remain |
| `PostContext.ReplaceByIdIdempotent` | client/src/context/PostContext.jsx:74 | replacing twice is replacing once |
| `PostContext.RemoveByIdAppend` | client/src/context/PostContext.jsx:90 | removal keeps the order of what remains |
| `PostContext.RemoveByIdAbsent` | client/src/context/PostContext.jsx:90 | a list without the id is left as it is |
| `PostContext.RemoveByIdIdempotent` | client/src/context/PostContext.jsx:90 | removing twice is removing once |
| `PostContext.DeleteAfterCreate` | client/src/context/PostContext.jsx:58-90 | deleting a just-created post restores the earlier list |
| `PostContext.DeleteAfterUpdate` | client/src/context/PostContext.jsx:74-90 | deleting after an update removes the updated post too |
| `PostContext.PostProvider.constructor` | client/src/context/PostContext.jsx:15-24 | empty lists, not loading, no error, page 1 of 10, no totals |
| `PostContext.PostProvider.FetchPosts` | client/src/context/PostContext.jsx:26-40 | success replaces posts and pagination; failure keeps them and sets the error text; loading ends false |
| `PostContext.PostProvider.FetchCategories` | client/src/context/PostContext.jsx:42-51 | success replaces the categories and leaves loading and any earlier error alone; failure sets the error |
| `PostContext.PostProvider.CreatePost` | client/src/context/PostContext.jsx:53-66 | success puts the new post first before the earlier ones; failure keeps the posts and sets the error; loading ends false |
| `PostContext.PostProvider.UpdatePost` | client/src/context/PostContext.jsx:68-83 | success replaces every post with the id; failure keeps the posts and sets the error; loading ends false |
| `PostContext.PostProvider.DeletePost` | client/src/context/PostContext.jsx:85-97 | success removes every post with the id; failure keeps the posts and sets the error; loading ends false |
| `PostContext.PostProvider.SearchPosts` | client/src/context/PostContext.jsx:99-112 | success replaces the posts and keeps the pagination; failure sets the error; loading ends false |
| `Home.FetchFor` | client/src/pages/Home.jsx:22-29 | a non-empty query searches for it; otherwise the page is listed, 10 per page, in the category |
| `Home.ShowPagination` | client/src/pages/Home.jsx:72-90 | the page control is shown exactly when there are posts, no query and more than one page; it is never shown on a page the effect fetches by searching |
| `Home.HomeState.constructor` | client/src/pages/Home.jsx:13-15 | page 1, no category, empty query |
| `Home.HomeState.HandleSearch` | client/src/pages/Home.jsx:31-35 | sets the query, goes to page 1 and clears the category; a non-empty query is then searched for, and the page control is then hidden for every post count and page count |
| `Home.HomeState.HandleCategoryChange` | client/src/pages/Home.jsx:37-41 | sets the category, goes to page 1 and clears the query; the next request lists page 1 of it, and the page control shows again exactly when there are posts and more than one page |
| `Home.HomeState.HandlePageChange` | client/src/pages/Home.jsx:43-46 | only the page changes |
| `Home.HomeState.Dispatch` | client/src/pages/Home.jsx:31-46 | every handler keeps a category and a non-empty query from applying together |
| `Home.SearchOverListing` | client/src/pages/Home.jsx:22-35 | a non-empty search over a listing keeps the listing's pagination in the provider (`searchPosts`, client/src/context/PostContext.jsx lines 99-112), yet the page control (Home.jsx line 84) stays hidden even when that stale pagination claims several pages |
| `Home.RunEvents` | client/src/pages/Home.jsx:13-46 | over any sequence of handler calls, a category and a non-empty query never coexist |
| `PostForm.PostFormState.constructor` | client/src/components/PostForm.jsx:5-16 | every text field empty, not published, no image, no error, not loading |
| `PostForm.CategoryField` | client/src/components/PostForm.jsx:24 | the populated category's id, else the raw id, else '' |
| `PostForm.FromInitial` | client/src/components/PostForm.jsx:20-28 | missing fields become '' or false; tags are joined with ", "; no image |
| `PostForm.Changed` | client/src/components/PostForm.jsx:38-44 | only the named field changes (checked state for the checkbox, value otherwise) |
| `PostForm.SubmitTags` | client/src/components/PostForm.jsx:76-79 | an empty tag field is not sent; otherwise the cleaned tags are sent joined with ',' |
| `PostForm.Submitted` | client/src/components/PostForm.jsx:69-83 | the submission carries the form's fields and its cleaned tags |
| `PostForm.PostFormState.LoadInitial` | client/src/components/PostForm.jsx:18-28 | a given post replaces the whole form; without one the form stays as it was |
| `PostForm.PostFormState.HandleChange` | client/src/components/PostForm.jsx:38-45 | the named field changes and the error is cleared |
| `PostForm.PostFormState.HandleImageChange` | client/src/components/PostForm.jsx:47-61 | an image over 5 MB sets the error and leaves the form unchanged; a smaller one is chosen |
| `PostForm.PostFormState.HandleSubmit` | client/src/components/PostForm.jsx:63-91 | sends the form's submission; the error is the failure's text or empty; loading ends false |
| `PostForm.SubmitTagsStable` | client/src/components/PostForm.jsx:77-78 | cleaning already submitted tags again changes nothing |
| `TagRoundTrip.FormTagsRoundTrip` | client/src/components/PostForm.jsx:25-79 | clean tags loaded into the form and submitted unchanged are sent as the same tags joined with ',' |
| `TagRoundTrip.ServerTags` | client/src/components/PostForm.jsx:76-79 | tags left out of the submission reach the server as absent; sent tags arrive as one string |
| `TagRoundTrip.ServerReadsSubmittedTags` | server/routes/posts.js:227-233 | the server's string normalisation of that submission gives the same list |
| `TagRoundTrip.EditKeepsTags` | client/src/components/PostForm.jsx:20-79 | editing a post without touching its clean tags stores the same tags again |
| `TagRoundTrip.EmptyTagFieldKeepsOldTags` | client/src/components/PostForm.jsx:76-79 | emptying the tag field cannot clear a post's tags |

## Left out

- Express routing, the `protect`, `authorize` and `upload` middleware, multer, and Mongoose or MongoDB internals (`populate`, `countDocuments`, casting) are not modelled.
  - The middleware is replaced by a requester (id and role) and an optional uploaded file name.
  - The id, slug and creation time a new document gets are parameters.
- `ServerCategories.CreateCategory`: a non-admin is only known to be refused with status 403. The text of the `authorize` middleware's reply is not part of this model.
- Regular-expression matching of the query is a `Matcher` parameter. No regex engine is modelled.
- `ServerPosts.FindPost` and `ServerPosts.GetPost`: the lookup by id or slug is modelled as if every key could be compared with `_id`. Mongoose casts both branches of the `$or` query, so a key that is not shaped like an ObjectId fails to cast. That covers every ordinary slug, such as "my-first-post", and any short unknown key. The failure goes to `next(error)` and gives a 500, not the slug hit or the 404 the model states. In the source, the slug branch only answers for keys that are also valid ObjectIds.
- `ServerPosts.NewPost` and `ServerPosts.ApplyChanges`: a body's `_id` and `createdAt` are not modelled, and neither is Mongoose's casting and validation of sent `viewCount` and `comments` values. The model takes them as already well-typed. The Post schema is not part of this model either: the excerpt and published flag it fills in for a body that leaves them out are a parameter, `PostDefaults`.
- ObjectId cast errors and other exceptions that end in `next(error)` or a 500 catch are not modelled. The exceptions are the negative skip of `ServerPosts.ListPosts` and the rejected saves of `CategoryController.CreateCategory`.
- The server's Post and Category models are not part of this model:
  - `incrementViewCount` is taken to add one view;
  - `Category.create` is taken to store the trimmed name and the description as sent.
- `ServerPosts.NormalizeTags`: a `tags` value of "" is skipped by the handler and then written as sent. What the database stores for it depends on the Post schema, which is not part of this model; the model treats it as absent.
- `ServerPosts.ListPosts`: `sort` is modelled as a stable sort. The order the database gives posts with equal `createdAt` is not modelled. The same holds for `ServerPosts.SearchPosts`, `ServerCategories.ListCategories` and `CategoryController.GetCategories`.
- `CategoryModel.LowerChar`: only ASCII letters are lowered. The few non-ASCII characters that `toLowerCase` maps onto ASCII letters (such as the Kelvin sign) would survive into a real slug but vanish in the model.
- `CategoryModel.ValidationErrors` and `UserModel.UserErrors`: lengths count characters, not UTF-16 code units, so they differ from the schema only for characters outside the Basic Multilingual Plane.
- `UserModel.UserErrors`: the e-mail pattern is an `emailOk` parameter. The unique indexes are stated as a predicate over the stored users (`UserModel.InsertKeepsUnique`), not enforced by a store. The `name` field is only trimmed. The `post` array nested inside `avatar` has no behaviour.
- `UserModel.UserDocument.PreSave`: bcrypt is a `hash` parameter and the random salt a `salt` parameter.
- `CommentController.AddComment`: validators of the comment schema (run by `runValidators`) belong to the Post model, which is not part of this model. Neither is the route's `isMongoId` check on `userId` and its error handler.
- `CommentController.GetPostComments`: the router mounts the comment routes at `/:postId/comments` (backend/Routes/posts.route.js:11), but the controller reads `req.params.PostId` (backend/Controllers/comment.controller.js:61), so as written it never receives the id. `GetPostComments` takes the id directly, as intended; the wiring as written is `GetPostCommentsAsWritten` (see Findings).
- `PostForm.CategoryField`: a populated category whose `_id` is empty would make the form keep the category object itself. The model uses the id.
- `PostForm.Changed`: the form has one checkbox (`isPublished`). A checkbox event on a text field, or a text event on the checkbox, is not modelled.
- Image previews (`FileReader`, upload URLs), `window.scrollTo`, the first-load category fetch, and the loading and error screens of the home page are not modelled.
- Each client operation is modelled as one atomic step from start to settled response. Interleaving of concurrent requests is not modelled.
- The pure UI components are not modelled, and neither is `backend/Controllers/posts.controller.js`.

## Findings

| source | as written | input that shows it | evidently intended | confidence | as-written member | corrected member |
|---|---|---|---|---|---|---|
| backend/models/Category.model.js:31-44 | The slug is derived in a `pre('save')` hook, but Mongoose runs the schema validators before `pre('save')` hooks. The required `slug` is therefore always missing on a new category, and `createCategory` answers 500 to every request that passes its name guard. | `POST` with body `{ "name": "Tech & Science" }` | derive the slug before validation, so that the category is saved with slug "techscience" | high that Mongoose validates first; not executed | `CategoryController.CreateAsWrittenAlwaysFails` | `CategoryController.CreateCategory` |
| backend/Controllers/comment.controller.js:61 | `getPostComments` reads `req.params.PostId`, but the router passes the id as `postId`, so `findById` is given `undefined`, finds nothing, and the reply is 404 "The post doesnt exist" for every post | `GET /api/posts/<id of an existing post>/comments` | read `req.params.postId`, so that an existing post's comments are listed | high for the controller as written, once the post router loads; not executed. As written, backend/Routes/posts.route.js does not load at all: line 16 (`.body('')`) is a syntax error, and line 7 imports `commentRouter` by name while backend/Routes/comments.route.js has only a default export | `CommentController.ListingAsWiredAlwaysMissing` | `CommentController.ListingByMountedName` |
