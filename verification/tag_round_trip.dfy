/** Tags travelling from a stored post into the edit form and back to the
    server: the form shows them joined with ", ", submits them joined with
    ',', and the server splits them again. */
module TagRoundTrip {
  import opened Web
  import opened Text
  import opened ServerModel
  import opened ServerPosts
  import opened PostForm

  /** The `tags` part of a multipart body as the server reads it. */
  function ServerTags(sent: Option<string>): (t: TagsInput)
    ensures sent.None? ==> t == NoTags
    ensures sent.Some? ==> t == TagString(sent.value)
  {
    if sent.Some? then TagString(sent.value) else NoTags
  }

  /** Clean tags shown in the form and submitted unchanged are sent as the
      same tags joined with ','; no tags at all are not sent. */
  lemma FormTagsRoundTrip(xs: seq<string>)
    requires AllTags(xs)
    ensures xs == [] ==> SubmitTags(Join(xs, ", ")).None?
    ensures xs != [] ==> SubmitTags(Join(xs, ", ")) == Some(Join(xs, ","))
  {
    if xs != [] {
      SpacedTagsSplitBack(xs);
      assert Join(xs, ", ") != "" by {
        assert xs[0] != [] by { assert IsTag(xs[0]); }
        JoinStartsWithFirst(xs, ", ");
      }
    }
  }

  /** The server's string normalisation of the submitted tags gives the same
      list back. */
  lemma ServerReadsSubmittedTags(xs: seq<string>)
    requires AllTags(xs) && xs != []
    ensures NormalizeTags(TagString(Join(xs, ","))) == Some(xs)
  {
    JoinedTagsSplitBack(xs);
    assert Join(xs, ",") != "" by {
      assert xs[0] != [] by { assert IsTag(xs[0]); }
      JoinStartsWithFirst(xs, ",");
    }
  }

  /** Loading a post with clean tags into the edit form and submitting it
      unchanged stores the same tags again, in order and with repetitions. */
  lemma EditKeepsTags(d: InitialData, xs: seq<string>)
    requires d.tags == Some(xs) && AllTags(xs) && xs != []
    ensures NormalizeTags(ServerTags(Submitted(FromInitial(d)).tags)) == Some(xs)
  {
    FormTagsRoundTrip(xs);
    ServerReadsSubmittedTags(xs);
  }

  /** An emptied tag field cannot clear a post's tags: the form leaves the
      field out and the update keeps the tags the post had. */
  lemma EmptyTagFieldKeepsOldTags(p: Post, f: FormData, changes: PostChanges)
    requires f.tags == ""
    requires changes.tags == ServerTags(Submitted(f).tags)
    ensures ApplyChanges(p, changes, None).tags == p.tags
  {
  }
}
