/** The post form: its field state, how an existing post is loaded into it,
    how edits and an image choice change it, and what a submit sends. */
module PostForm {
  import opened Web
  import opened Text

  /** A chosen image file; only its size matters to the form. */
  datatype ImageFile = ImageFile(name: string, size: nat)

  datatype FormData = FormData(
    title: string,
    content: string,
    excerpt: string,
    category: string,
    tags: string,
    isPublished: bool,
    featuredImage: Option<ImageFile>)

  /** The form before anything is typed or loaded. */
  const EMPTY_FORM := FormData("", "", "", "", "", false, None)

  const MAX_IMAGE_SIZE := 5 * 1024 * 1024

  /** A post's `category` as the client receives it: absent, a bare id, or a
      populated category document carrying its id. */
  datatype CategoryValue = NoCategory | CategoryId(id: Id) | PopulatedCategory(categoryId: Id)

  /** The existing post an edit form starts from; `None` is a missing field. */
  datatype InitialData = InitialData(
    title: Option<string>,
    content: Option<string>,
    excerpt: Option<string>,
    category: CategoryValue,
    tags: Option<seq<string>>,
    isPublished: Option<bool>)

  /** `category?._id || category || ''`. */
  function CategoryField(c: CategoryValue): (r: string)
    ensures c.NoCategory? ==> r == ""
    ensures c.CategoryId? ==> r == c.id
    ensures c.PopulatedCategory? ==> r == c.categoryId
  {
    match c
    case NoCategory => ""
    case CategoryId(id) => id
    case PopulatedCategory(id) => id
  }

  /** The form an existing post loads into: missing text fields become '',
      tags are joined with ", ", and no image is chosen. */
  function FromInitial(d: InitialData): (f: FormData)
    ensures f.title == d.title.GetOr("") && f.content == d.content.GetOr("") && f.excerpt == d.excerpt.GetOr("")
    ensures f.category == CategoryField(d.category)
    ensures f.tags == Join(d.tags.GetOr([]), ", ")
    ensures f.isPublished == d.isPublished.GetOr(false)
    ensures f.featuredImage.None?
  {
    FormData(d.title.GetOr(""), d.content.GetOr(""), d.excerpt.GetOr(""), CategoryField(d.category),
      Join(d.tags.GetOr([]), ", "), d.isPublished.GetOr(false), None)
  }

  /** The text inputs of the form, by their `name`. */
  datatype TextField = TitleField | ContentField | ExcerptField | CategoryInput | TagsField

  function FieldValue(f: FormData, field: TextField): string {
    match field
    case TitleField => f.title
    case ContentField => f.content
    case ExcerptField => f.excerpt
    case CategoryInput => f.category
    case TagsField => f.tags
  }

  /** An input event: a text input's new value, or the publish checkbox's state. */
  datatype ChangeEvent = TextChange(field: TextField, value: string) | CheckboxChange(checked: bool)

  /** `{ ...formData, [name]: type === 'checkbox' ? checked : value }`. */
  function Changed(f: FormData, e: ChangeEvent): (r: FormData)
    ensures r.featuredImage == f.featuredImage
    ensures e.TextChange? ==>
      && FieldValue(r, e.field) == e.value && r.isPublished == f.isPublished
      && forall other :: other != e.field ==> FieldValue(r, other) == FieldValue(f, other)
    ensures e.CheckboxChange? ==>
      && r.isPublished == e.checked
      && forall field :: FieldValue(r, field) == FieldValue(f, field)
  {
    match e
    case CheckboxChange(checked) => f.(isPublished := checked)
    case TextChange(field, value) =>
      match field
      case TitleField => f.(title := value)
      case ContentField => f.(content := value)
      case ExcerptField => f.(excerpt := value)
      case CategoryInput => f.(category := value)
      case TagsField => f.(tags := value)
  }

  /** The tags a submit sends: omitted when the field is empty, otherwise
      split on ',', trimmed, emptied entries dropped and joined with ','. */
  function SubmitTags(tags: string): (r: Option<string>)
    ensures tags == "" <==> r.None?
    ensures r.Some? ==> r.value == Join(SplitTags(tags), ",")
  {
    if tags == "" then None else Some(Join(SplitTags(tags), ","))
  }

  /** The multipart body of a submit. */
  datatype Submission = Submission(
    title: string,
    content: string,
    excerpt: string,
    category: string,
    isPublished: bool,
    tags: Option<string>,
    featuredImage: Option<ImageFile>)

  function Submitted(f: FormData): (s: Submission)
    ensures s.title == f.title && s.content == f.content && s.excerpt == f.excerpt
    ensures s.category == f.category && s.isPublished == f.isPublished
    ensures s.tags == SubmitTags(f.tags) && s.featuredImage == f.featuredImage
  {
    Submission(f.title, f.content, f.excerpt, f.category, f.isPublished, SubmitTags(f.tags), f.featuredImage)
  }

  /** How the `onSubmit` callback settled. */
  datatype SubmitResult = Saved | Failed(serverMessage: Option<string>)

  class PostFormState {
    var formData: FormData
    var error: string
    var loading: bool

    constructor ()
      ensures formData == EMPTY_FORM && error == "" && !loading
    {
      formData := EMPTY_FORM;
      error := "";
      loading := false;
    }

    /** The effect on `initialData`: a given post replaces the whole form. */
    method LoadInitial(initial: Option<InitialData>)
      modifies this
      ensures initial.Some? ==> formData == FromInitial(initial.value)
      ensures initial.None? ==> formData == old(formData)
      ensures error == old(error) && loading == old(loading)
    {
      if initial.Some? {
        formData := FromInitial(initial.value);
      }
    }

    /** `handleChange`: the named field takes the event's value and the error is cleared. */
    method HandleChange(e: ChangeEvent)
      modifies this
      ensures formData == Changed(old(formData), e)
      ensures error == "" && loading == old(loading)
    {
      formData := Changed(formData, e);
      error := "";
    }

    /** `handleImageChange`: no file changes nothing; a file over 5 MB sets
        the error and leaves the form as it was; any other file is chosen. */
    method HandleImageChange(file: Option<ImageFile>)
      modifies this
      ensures loading == old(loading)
      ensures file.None? ==> formData == old(formData) && error == old(error)
      ensures file.Some? && file.value.size > MAX_IMAGE_SIZE ==>
        formData == old(formData) && error == "Image size must be less than 5MB"
      ensures file.Some? && file.value.size <= MAX_IMAGE_SIZE ==>
        formData == old(formData).(featuredImage := file) && error == old(error)
    {
      if file.Some? {
        if file.value.size > MAX_IMAGE_SIZE {
          error := "Image size must be less than 5MB";
          return;
        }
        formData := formData.(featuredImage := file);
      }
    }

    /** `handleSubmit`: sends the form's submission; afterwards the error is
        the failure's text or empty, and loading is over. */
    method HandleSubmit(result: SubmitResult) returns (sent: Submission)
      modifies this
      ensures sent == Submitted(old(formData)) && formData == old(formData)
      ensures !loading
      ensures result.Saved? ==> error == ""
      ensures result.Failed? ==> error == ErrorText(result.serverMessage, "Failed to save post")
    {
      error := "";
      loading := true;
      sent := Submitted(formData);
      if result.Failed? {
        error := ErrorText(result.serverMessage, "Failed to save post");
      }
      loading := false;
    }
  }

  /** The submitted tags are already clean: sending them through the tag
      splitting again changes nothing. */
  lemma SubmitTagsStable(tags: string)
    requires tags != ""
    ensures SubmitTags(tags).Some?
    ensures var sent := SubmitTags(tags).value; sent != "" ==> SubmitTags(sent) == SubmitTags(tags)
  {
    JoinedTagsSplitBack(SplitTags(tags));
  }
}
