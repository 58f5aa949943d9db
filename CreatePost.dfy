/**
 * The post composer (src/components/CreatePost.tsx): the draft's tag list with its
 * add/remove operations, the popular-tag suggestions, the custom-tag input (trimmed,
 * blanks refused) and submission (blank content refused, otherwise the form is reset
 * and the dialog closed).
 */
module CreatePost {
  import opened Wrappers
  import opened Seqs
  import opened Tags

  // ---------------------------------------------------------------------------
  // `String.prototype.trim`
  // ---------------------------------------------------------------------------

  /** The characters ECMAScript's `trim` removes: WhiteSpace and LineTerminator. */
  predicate IsWhitespace(c: char) {
    c == '\t' || c == '\n' || c == '\U{000B}' || c == '\U{000C}' || c == '\r' || c == ' '
    || c == '\U{00A0}' || c == '\U{1680}' || ('\U{2000}' <= c <= '\U{200A}')
    || c == '\U{2028}' || c == '\U{2029}' || c == '\U{202F}' || c == '\U{205F}'
    || c == '\U{3000}' || c == '\U{FEFF}'
  }

  /** Every character is whitespace (the empty string included): `s.trim()` is falsy. */
  predicate IsBlank(s: string) {
    forall i :: 0 <= i < |s| ==> IsWhitespace(s[i])
  }

  /** Number of whitespace characters in `s` from position `i` on, up to the first other one. */
  function BlanksFrom(s: string, i: nat): (k: nat)
    requires i <= |s|
    ensures i + k <= |s|
    ensures forall j :: i <= j < i + k ==> IsWhitespace(s[j])
    ensures i + k < |s| ==> !IsWhitespace(s[i + k])
    decreases |s| - i
  {
    if i < |s| && IsWhitespace(s[i]) then 1 + BlanksFrom(s, i + 1) else 0
  }

  /** Number of whitespace characters in `s` just before position `n`, back to the first other one. */
  function BlanksBefore(s: string, n: nat): (k: nat)
    requires n <= |s|
    ensures k <= n
    ensures forall j :: n - k <= j < n ==> IsWhitespace(s[j])
    ensures k < n ==> !IsWhitespace(s[n - 1 - k])
  {
    if n > 0 && IsWhitespace(s[n - 1]) then 1 + BlanksBefore(s, n - 1) else 0
  }

  /** Number of whitespace characters at the start of `s`. */
  function LeadingBlanks(s: string): (k: nat)
    ensures k <= |s| && IsBlank(s[..k])
    ensures k < |s| ==> !IsWhitespace(s[k])
  {
    BlanksFrom(s, 0)
  }

  /** Number of whitespace characters at the end of `s`. */
  function TrailingBlanks(s: string): (k: nat)
    ensures k <= |s| && IsBlank(s[|s| - k..])
    ensures k < |s| ==> !IsWhitespace(s[|s| - 1 - k])
  {
    BlanksBefore(s, |s|)
  }

  /** `s.trim()`: `s` without its leading and trailing whitespace. */
  function Trim(s: string): (r: string)
    ensures IsBlank(s) <==> r == []
    ensures r != [] ==> !IsWhitespace(r[0]) && !IsWhitespace(r[|r| - 1])
    ensures exists i :: 0 <= i <= |s| - |r| && r == s[i..i + |r|]
                        && IsBlank(s[..i]) && IsBlank(s[i + |r|..])
  {
    var a := LeadingBlanks(s);
    if a == |s| then
      assert s[..a] == s && s[a..] == [];
      []
    else
      var b := TrailingBlanks(s);
      var r := s[a..|s| - b];
      assert r[0] == s[a] && r[|r| - 1] == s[|s| - 1 - b];
      assert s[a + |r|..] == s[|s| - b..];
      r
  }

  // ---------------------------------------------------------------------------
  // The draft's tag list
  // ---------------------------------------------------------------------------

  /** `addTag`'s new list: `[...tags, tag]` unless `tags.includes(tag)`. */
  function TagsWith(tags: seq<Tag>, tag: Tag): (r: seq<Tag>)
    ensures forall t :: t in r <==> t in tags || t == tag
    ensures |tags| <= |r| && r[..|tags|] == tags
    ensures tag in tags ==> r == tags
    ensures tag !in tags ==> |r| == |tags| + 1 && r[|tags|] == tag
    ensures NoDuplicates(tags) ==> NoDuplicates(r)
  {
    if tag in tags then tags else tags + [tag]
  }

  /** `removeTag`'s new list: `tags.filter(t => t !== tag)`. */
  function TagsWithout(tags: seq<Tag>, tag: Tag): (r: seq<Tag>)
    ensures forall t :: t in r <==> t in tags && t != tag
    ensures forall t :: multiset(r)[t] == if t != tag then multiset(tags)[t] else 0
    ensures IsSubseq(r, tags)
    ensures tag !in tags ==> r == tags
    ensures NoDuplicates(tags) ==> NoDuplicates(r)
  {
    FilterWithoutFacts(tags, tag);
    FilterCount(tags, (t: Tag) => t != tag);
    Filter(tags, (t: Tag) => t != tag)
  }

  lemma FilterWithoutFacts(tags: seq<Tag>, tag: Tag)
    ensures IsSubseq(Filter(tags, (t: Tag) => t != tag), tags)
    ensures tag !in tags ==> Filter(tags, (t: Tag) => t != tag) == tags
    ensures NoDuplicates(tags) ==> NoDuplicates(Filter(tags, (t: Tag) => t != tag))
  {
    var keep := (t: Tag) => t != tag;
    FilterIsSubseq(tags, keep);
    if NoDuplicates(tags) {
      FilterNoDuplicates(tags, keep);
    }
    if tag !in tags {
      FilterKeepsAll(tags, keep);
    }
  }

  /** Removing a tag that occurs once shortens the list by exactly one. */
  lemma {:induction false} TagsWithoutLength(tags: seq<Tag>, tag: Tag)
    requires NoDuplicates(tags) && tag in tags
    ensures |TagsWithout(tags, tag)| == |tags| - 1
  {
    var keep := (t: Tag) => t != tag;
    assert tags == [tags[0]] + tags[1..];
    FilterAppend([tags[0]], tags[1..], keep);
    assert Filter([tags[0]], keep) == (if keep(tags[0]) then [tags[0]] else []) + Filter([tags[0]][1..], keep);
    NoDuplicatesTail(tags);
    if tags[0] == tag {
      assert TagsWithout(tags[1..], tag) == tags[1..];
    } else {
      TagsWithoutLength(tags[1..], tag);
    }
  }

  /** Removing a present tag and adding it back gives the same set of tags, in a list as long. */
  lemma RemoveThenAdd(tags: seq<Tag>, tag: Tag)
    requires NoDuplicates(tags) && tag in tags
    ensures var r := TagsWith(TagsWithout(tags, tag), tag);
      (forall t :: t in r <==> t in tags) && |r| == |tags| && NoDuplicates(r) && r[|r| - 1] == tag
  {
    TagsWithoutLength(tags, tag);
  }

  /** Adding an absent tag and removing it again restores the list exactly. */
  lemma AddThenRemove(tags: seq<Tag>, tag: Tag)
    requires tag !in tags
    ensures TagsWithout(TagsWith(tags, tag), tag) == tags
  {
    var keep := (t: Tag) => t != tag;
    FilterSnoc(tags, tag, keep);
    FilterKeepsAll(tags, keep);
  }

  /** The tag list after `addTag` is applied to each of `adds` in turn. */
  function AddAll(tags: seq<Tag>, adds: seq<Tag>): seq<Tag>
    decreases |adds|
  {
    if adds == [] then tags else AddAll(TagsWith(tags, adds[0]), adds[1..])
  }

  /**
   * From a list without duplicates (the empty initial list among them), `addTag` alone never
   * produces a duplicate and loses no tag.
   */
  lemma {:induction false} AddAllNoDuplicates(tags: seq<Tag>, adds: seq<Tag>)
    requires NoDuplicates(tags)
    ensures NoDuplicates(AddAll(tags, adds))
    ensures forall t :: t in AddAll(tags, adds) <==> t in tags || t in adds
    decreases |adds|
  {
    if adds != [] {
      AddAllNoDuplicates(TagsWith(tags, adds[0]), adds[1..]);
      assert forall t :: t in adds <==> t == adds[0] || t in adds[1..];
    }
  }

  /** The fixed popular tags offered as one-click suggestions. */
  const PopularTags: seq<Tag> :=
    ["Event", "Party", "overheard", "Study", "BollywoodSociety", "NonAlcoholic", "Sports", "Food"]

  /** The suggestion buttons: the popular tags not yet on the draft, in their fixed order. */
  function Suggestions(tags: seq<Tag>): (r: seq<Tag>)
    ensures forall t :: t in r <==> t in PopularTags && t !in tags
    ensures IsSubseq(r, PopularTags)
  {
    FilterIsSubseq(PopularTags, (t: Tag) => t !in tags);
    Filter(PopularTags, (t: Tag) => t !in tags)
  }

  // ---------------------------------------------------------------------------
  // The composer dialog
  // ---------------------------------------------------------------------------

  datatype Draft = Draft(
    content: string,
    tags: seq<Tag>,
    isEvent: bool,
    location: string,
    eventTime: string,
    eventDetails: string)

  /** The draft the dialog starts with and returns to after a successful submission. */
  const EmptyDraft := Draft("", [], false, "", "", "")

  /** The text inputs wired to `handleInputChange`, by their `name` attribute. */
  datatype DraftField = Content | EventTime | Location | EventDetails

  function WithField(d: Draft, field: DraftField, value: string): Draft {
    match field
    case Content => d.(content := value)
    case EventTime => d.(eventTime := value)
    case Location => d.(location := value)
    case EventDetails => d.(eventDetails := value)
  }

  /** The transient notice a submission raises. */
  datatype Notice = ContentRequired | PostCreated

  /** What a successful submission hands on: the draft with its author and time stamp. */
  datatype SharedPost = SharedPost(draft: Draft, author: string, timestamp: string)

  class Composer {
    var isOpen: bool
    var draft: Draft
    var newTag: string

    /** The draft's tags never repeat. */
    ghost predicate Valid()
      reads this
    {
      NoDuplicates(draft.tags)
    }

    constructor ()
      ensures Valid()
      ensures !isOpen && draft == EmptyDraft && newTag == ""
    {
      isOpen := false;
      draft := EmptyDraft;
      newTag := "";
    }

    /** The dialog opens or closes (trigger, cancel button, outside click). */
    method SetOpen(open: bool)
      modifies this
      ensures isOpen == open && draft == old(draft) && newTag == old(newTag)
    {
      isOpen := open;
    }

    /** `handleInputChange`: only the named field of the draft changes. */
    method InputChange(field: DraftField, value: string)
      requires Valid()
      modifies this
      ensures Valid()
      ensures draft == WithField(old(draft), field, value)
      ensures draft.tags == old(draft.tags) && draft.isEvent == old(draft.isEvent)
      ensures isOpen == old(isOpen) && newTag == old(newTag)
    {
      draft := WithField(draft, field, value);
    }

    /** The event switch. */
    method SetIsEvent(checked: bool)
      requires Valid()
      modifies this
      ensures Valid()
      ensures draft == old(draft).(isEvent := checked)
      ensures isOpen == old(isOpen) && newTag == old(newTag)
    {
      draft := draft.(isEvent := checked);
    }

    /** Typing in the custom-tag input. */
    method SetNewTag(text: string)
      modifies this
      ensures newTag == text && draft == old(draft) && isOpen == old(isOpen)
    {
      newTag := text;
    }

    /** `addTag`: only the tag list changes, and only if `tag` is not on it yet. */
    method AddTag(tag: Tag)
      requires Valid()
      modifies this
      ensures Valid()
      ensures draft == old(draft).(tags := TagsWith(old(draft.tags), tag))
      ensures isOpen == old(isOpen) && newTag == old(newTag)
    {
      if tag !in draft.tags {
        draft := draft.(tags := draft.tags + [tag]);
      }
    }

    /** `removeTag`: only the tag list changes, losing `tag`. */
    method RemoveTag(tag: Tag)
      requires Valid()
      modifies this
      ensures Valid()
      ensures draft == old(draft).(tags := TagsWithout(old(draft.tags), tag))
      ensures isOpen == old(isOpen) && newTag == old(newTag)
    {
      draft := draft.(tags := TagsWithout(draft.tags, tag));
    }

    /**
     * `handleAddCustomTag`: the trimmed input is appended and the input cleared when it is
     * neither blank nor already a tag; otherwise nothing changes.
     */
    method AddCustomTag()
      requires Valid()
      modifies this
      ensures Valid()
      ensures isOpen == old(isOpen)
      ensures !IsBlank(old(newTag)) && Trim(old(newTag)) !in old(draft.tags) ==>
        draft == old(draft).(tags := old(draft.tags) + [Trim(old(newTag))]) && newTag == ""
      ensures IsBlank(old(newTag)) || Trim(old(newTag)) in old(draft.tags) ==>
        draft == old(draft) && newTag == old(newTag)
    {
      var t := Trim(newTag);
      if t != [] && t !in draft.tags {
        AddTag(t);
        newTag := "";
      }
    }

    /**
     * `handleSubmit`: blank content raises the "Content required" notice and changes
     * nothing; otherwise the draft is handed on, the form is reset and the dialog closes.
     */
    method Submit(author: string, timestamp: string) returns (notice: Notice, shared: Option<SharedPost>)
      requires Valid()
      modifies this
      ensures Valid()
      ensures newTag == old(newTag)
      ensures IsBlank(old(draft.content)) ==>
        notice == ContentRequired && shared == None && draft == old(draft) && isOpen == old(isOpen)
      ensures !IsBlank(old(draft.content)) ==>
        notice == PostCreated && shared == Some(SharedPost(old(draft), author, timestamp))
        && draft == EmptyDraft && !isOpen
    {
      if Trim(draft.content) == [] {
        notice, shared := ContentRequired, None;
        return;
      }
      shared := Some(SharedPost(draft, author, timestamp));
      notice := PostCreated;
      draft := EmptyDraft;
      isOpen := false;
    }
  }
}
