/** The ES-module backend's Category document: the slug derived from the name
    by its pre-save hook, the schema's field rules and the `url` virtual. */
module CategoryModel {
  import opened Web

  /** `\w` in a JavaScript regular expression without the `u` flag. */
  predicate IsWordChar(c: char) {
    'a' <= c <= 'z' || 'A' <= c <= 'Z' || '0' <= c <= '9' || c == '_'
  }

  /** What a slug is made of: lower-case letters, digits and `_`. */
  predicate IsSlugChar(c: char) {
    'a' <= c <= 'z' || '0' <= c <= '9' || c == '_'
  }

  /** `toLowerCase` on one character, over the ASCII letters. */
  function LowerChar(c: char): (r: char)
    ensures 'A' <= c <= 'Z' ==> 'a' <= r <= 'z' && r as int == c as int + 32
    ensures !('A' <= c <= 'Z') ==> r == c
    ensures IsWordChar(c) <==> IsWordChar(r)
  {
    if 'A' <= c <= 'Z' then (c as int + 32) as char else c
  }

  function Lower(s: string): (r: string)
    ensures |r| == |s|
    ensures forall i :: 0 <= i < |s| ==> r[i] == LowerChar(s[i])
  {
    seq(|s|, i requires 0 <= i < |s| => LowerChar(s[i]))
  }

  /** `replace(/[^\w]+/g, '')`: every run of non-word characters removed,
      which is every non-word character removed. */
  function RemoveNonWord(s: string): (r: string)
    ensures |r| <= |s|
    ensures forall c :: c in r <==> c in s && IsWordChar(c)
  {
    if s == [] then []
    else
      assert forall c :: c in s <==> c == s[0] || c in s[1..];
      if IsWordChar(s[0]) then [s[0]] + RemoveNonWord(s[1..]) else RemoveNonWord(s[1..])
  }

  /** `replace(/-+/g, '-')`: every run of hyphens becomes a single hyphen. */
  function CollapseHyphens(s: string): (r: string)
    ensures |r| <= |s|
    ensures s == [] <==> r == []
    ensures s != [] ==> r[0] == s[0]
    ensures forall c :: c in r <==> c in s
    ensures forall i :: 0 <= i < |r| - 1 ==> !(r[i] == '-' && r[i + 1] == '-')
  {
    if |s| >= 2 && s[0] == '-' && s[1] == '-' then CollapseHyphens(s[1..])
    else if s == [] then []
    else [s[0]] + CollapseHyphens(s[1..])
  }

  /** Without hyphens there is nothing to collapse. */
  lemma {:induction false} CollapseHyphensNoOp(s: string)
    requires '-' !in s
    ensures CollapseHyphens(s) == s
  {
    if s != [] {
      assert '-' !in s[1..] by {
        assert forall c :: c in s[1..] ==> c in s;
      }
      CollapseHyphensNoOp(s[1..]);
    }
  }

  /** The slug the pre-save hook derives from a name. */
  function Slug(name: string): (r: string)
    ensures forall c :: c in r ==> IsSlugChar(c)
    ensures |r| <= |name|
  {
    var kept := RemoveNonWord(Lower(name));
    assert forall c :: c in Lower(name) ==> !('A' <= c <= 'Z');
    CollapseHyphensNoOp(kept);
    CollapseHyphens(kept)
  }

  /** The hyphen step never changes anything: a slug is the lower-cased name
      with its non-word characters removed. */
  lemma SlugSkipsHyphenStep(name: string)
    ensures Slug(name) == RemoveNonWord(Lower(name))
    ensures '-' !in Slug(name)
  {
    var kept := RemoveNonWord(Lower(name));
    CollapseHyphensNoOp(kept);
  }

  /** Lower-casing and dropping non-word characters distribute over concatenation. */
  lemma {:induction false} RemoveNonWordAppend(a: string, b: string)
    ensures RemoveNonWord(a + b) == RemoveNonWord(a) + RemoveNonWord(b)
  {
    if a != [] {
      assert (a + b)[0] == a[0] && (a + b)[1..] == a[1..] + b;
      RemoveNonWordAppend(a[1..], b);
    } else {
      assert a + b == b;
    }
  }

  /** A slug is built character by character: a word character contributes
      its lower-case form, any other character vanishes. */
  lemma SlugAppend(a: string, b: string)
    ensures Slug(a + b) == Slug(a) + Slug(b)
  {
    assert Lower(a + b) == Lower(a) + Lower(b);
    SlugSkipsHyphenStep(a + b);
    SlugSkipsHyphenStep(a);
    SlugSkipsHyphenStep(b);
    RemoveNonWordAppend(Lower(a), Lower(b));
  }

  lemma SlugOfChar(c: char)
    ensures IsWordChar(c) ==> Slug([c]) == [LowerChar(c)]
    ensures !IsWordChar(c) ==> Slug([c]) == []
  {
    SlugSkipsHyphenStep([c]);
    assert Lower([c]) == [LowerChar(c)];
    assert RemoveNonWord([LowerChar(c)])
      == if IsWordChar(LowerChar(c)) then [LowerChar(c)] + RemoveNonWord([]) else RemoveNonWord([]);
  }

  /** A string of slug characters is its own slug. */
  lemma {:induction false} SlugOfSlugChars(s: string)
    requires forall c :: c in s ==> IsSlugChar(c)
    ensures Slug(s) == s
  {
    if s != [] {
      assert s == [s[0]] + s[1..];
      assert s[0] in s;
      assert forall c :: c in s[1..] ==> c in s;
      SlugOfSlugChars(s[1..]);
      SlugAppend([s[0]], s[1..]);
      SlugOfChar(s[0]);
    }
  }

  /** Deriving a slug from a slug changes nothing. */
  lemma SlugIdempotent(name: string)
    ensures Slug(Slug(name)) == Slug(name)
  {
    SlugOfSlugChars(Slug(name));
  }

  /** "Tech & Science" becomes "techscience": the example, written over any
      two words of slug characters joined by a space, an ampersand and a space,
      with the first word capitalised. */
  lemma SlugDropsSeparators(first: char, rest: string, second: string)
    requires 'A' <= first <= 'Z'
    requires forall c :: c in rest ==> IsSlugChar(c)
    requires forall c :: c in second ==> IsSlugChar(c)
    ensures Slug([first] + rest + " & " + second) == [LowerChar(first)] + rest + second
  {
    var word := [first] + rest;
    var sep := " & ";
    assert Slug(word) == [LowerChar(first)] + rest by {
      SlugAppend([first], rest);
      SlugOfChar(first);
      SlugOfSlugChars(rest);
    }
    assert Slug(sep) == [] by {
      assert sep == [' '] + (['&'] + [' ']);
      SlugAppend([' '], ['&'] + [' ']);
      SlugAppend(['&'], [' ']);
      SlugOfChar(' ');
      SlugOfChar('&');
    }
    assert Slug(word + sep) == [LowerChar(first)] + rest by {
      SlugAppend(word, sep);
    }
    assert Slug(second) == second by {
      SlugOfSlugChars(second);
    }
    SlugAppend(word + sep, second);
  }

  /** The `url` virtual. */
  function Url(slug: string): (r: string)
    ensures |r| == |slug| + 12 && r[..12] == "/categories/" && r[12..] == slug
  {
    "/categories/" + slug
  }

  /** Different slugs have different URLs. */
  lemma UrlInjective(a: string, b: string)
    requires Url(a) == Url(b)
    ensures a == b
  {
    assert a == Url(a)[12..];
  }

  /** A category as stored; `slug` is missing until something sets it. */
  datatype CategoryRecord = CategoryRecord(
    name: Option<string>,
    slug: Option<string>,
    description: Option<string>)

  /** The schema paths whose validators can fail. */
  datatype CategoryPath = NamePath | SlugPath | DescriptionPath

  /** A required string path is missing when absent or empty. */
  predicate Missing(v: Option<string>) {
    v.None? || v.value == ""
  }

  /** The paths whose validators reject the record: name and slug are
      required, the description holds at most 200 characters. */
  function ValidationErrors(d: CategoryRecord): (r: set<CategoryPath>)
    ensures NamePath in r <==> Missing(d.name)
    ensures SlugPath in r <==> Missing(d.slug)
    ensures DescriptionPath in r <==> d.description.Some? && |d.description.value| > 200
  {
    (if Missing(d.name) then {NamePath} else {})
    + (if Missing(d.slug) then {SlugPath} else {})
    + (if d.description.Some? && |d.description.value| > 200 then {DescriptionPath} else {})
  }

  /** The unique indexes on name and slug: no two stored categories share either. */
  predicate UniqueKeys(categories: seq<CategoryRecord>) {
    forall i, j :: 0 <= i < j < |categories| ==>
      categories[i].name != categories[j].name && categories[i].slug != categories[j].slug
  }

  /** A category may join the collection when neither key is taken. */
  predicate KeysFree(categories: seq<CategoryRecord>, d: CategoryRecord) {
    forall i :: 0 <= i < |categories| ==> categories[i].name != d.name && categories[i].slug != d.slug
  }

  /** Appending a category with free keys keeps the keys unique. */
  lemma AppendKeepsUnique(categories: seq<CategoryRecord>, d: CategoryRecord)
    requires UniqueKeys(categories)
    ensures UniqueKeys(categories + [d]) <==> KeysFree(categories, d)
  {
    var after := categories + [d];
    if KeysFree(categories, d) {
      forall i, j | 0 <= i < j < |after|
        ensures after[i].name != after[j].name && after[i].slug != after[j].slug
      {
        if j == |categories| {
          assert after[j] == d && after[i] == categories[i];
        }
      }
    } else {
      var i :| 0 <= i < |categories| && (categories[i].name == d.name || categories[i].slug == d.slug);
      assert after[i] == categories[i] && after[|categories|] == d;
    }
  }

  /** What the pre-save hook leaves of a record: the slug is derived from the
      name when the name was modified, and left alone otherwise. */
  function AfterHook(d: CategoryRecord, nameModified: bool): (r: CategoryRecord)
    ensures r.name == d.name && r.description == d.description
    ensures nameModified && d.name.Some? ==> r.slug == Some(Slug(d.name.value))
    ensures !nameModified ==> r == d
  {
    if nameModified && d.name.Some? then d.(slug := Some(Slug(d.name.value))) else d
  }

  /** The outcome of `save()`: the stored record, or the paths that failed validation. */
  datatype SaveResult = Saved(record: CategoryRecord) | Invalid(paths: set<CategoryPath>)

  /** `save()` as Mongoose orders it: the validators run before the pre-save
      hooks, so they see the record before the hook has derived a slug. */
  function SaveValidateFirst(d: CategoryRecord, nameModified: bool): (r: SaveResult)
    ensures r.Invalid? <==> ValidationErrors(d) != {}
    ensures r.Invalid? ==> r.paths == ValidationErrors(d)
    ensures r.Saved? ==> r.record == AfterHook(d, nameModified)
  {
    var errors := ValidationErrors(d);
    if errors != {} then Invalid(errors) else Saved(AfterHook(d, nameModified))
  }

  /** A new category, which has no slug yet, never gets past validation in
      that order: the required slug is always reported missing. */
  lemma NewCategoryNeverSaves(name: string, description: Option<string>)
    ensures var r := SaveValidateFirst(CategoryRecord(Some(name), None, description), true);
      r.Invalid? && SlugPath in r.paths
  {
  }

  /** `save()` as the hook's comment intends it ("before saving"): the slug is
      derived first and the validators check the finished record. */
  function SaveHookFirst(d: CategoryRecord, nameModified: bool): (r: SaveResult)
    ensures r.Invalid? <==> ValidationErrors(AfterHook(d, nameModified)) != {}
    ensures r.Invalid? ==> r.paths == ValidationErrors(AfterHook(d, nameModified))
    ensures r.Saved? ==> r.record == AfterHook(d, nameModified)
  {
    var hooked := AfterHook(d, nameModified);
    var errors := ValidationErrors(hooked);
    if errors != {} then Invalid(errors) else Saved(hooked)
  }

  /** With the hook first, a new category is saved exactly when its name is
      non-empty, the name yields a non-empty slug and the description fits;
      the saved slug is the one derived from the name. */
  lemma NewCategorySaves(name: string, description: Option<string>)
    ensures var r := SaveHookFirst(CategoryRecord(Some(name), None, description), true);
      && (r.Saved? <==> name != "" && Slug(name) != "" && (description.None? || |description.value| <= 200))
      && (r.Saved? ==> r.record == CategoryRecord(Some(name), Some(Slug(name)), description))
  {
    var d := CategoryRecord(Some(name), None, description);
    assert AfterHook(d, true) == CategoryRecord(Some(name), Some(Slug(name)), description);
  }

  /** A Category document in memory, with Mongoose's record of whether the
      name was modified since the last save. */
  class CategoryDocument {
    var name: string
    var slug: Option<string>
    var description: Option<string>
    var nameModified: bool

    /** `new Category({ name, description })`: a new document has its name
        modified and no slug yet. */
    constructor (name: string, description: Option<string>)
      ensures this.name == name && this.description == description
      ensures slug.None? && nameModified
    {
      this.name := name;
      this.description := description;
      this.slug := None;
      this.nameModified := true;
    }

    /** Loads a stored category: nothing is modified. */
    constructor Loaded(name: string, slug: Option<string>, description: Option<string>)
      ensures this.name == name && this.slug == slug && this.description == description
      ensures !nameModified
    {
      this.name := name;
      this.slug := slug;
      this.description := description;
      this.nameModified := false;
    }

    function Record(): (r: CategoryRecord)
      reads this
      ensures r.name == Some(name) && r.slug == slug && r.description == description
    {
      CategoryRecord(Some(name), slug, description)
    }

    /** Assigning the name marks it modified only when the value changes. */
    method SetName(newName: string)
      modifies this
      ensures name == newName && slug == old(slug) && description == old(description)
      ensures nameModified == (old(nameModified) || newName != old(name))
    {
      if newName != name {
        nameModified := true;
      }
      name := newName;
    }

    /** The pre-save hook: the slug is derived from the name only when the name
        was modified; otherwise the stored slug is left alone. */
    method PreSave()
      modifies this
      ensures name == old(name) && description == old(description) && nameModified == old(nameModified)
      ensures old(nameModified) ==> slug == Some(Slug(name))
      ensures !old(nameModified) ==> slug == old(slug)
      ensures Record() == AfterHook(old(Record()), old(nameModified))
    {
      if !nameModified {
        return;
      }
      slug := Some(Slug(name));
    }
  }
}
