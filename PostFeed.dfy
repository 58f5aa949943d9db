/**
 * The post feed (src/components/PostFeed.tsx): the tag options of the filter bar,
 * the posts shown for the selected tag, and the selection itself, which a click on a
 * filter button or on a post's tag badge overwrites.
 */
module PostFeed {
  import opened Seqs
  import opened Tags

  /**
   * A feed post. Only `tags` takes part in the logic. The rendering-only fields (the author's
   * avatar, and an event's location, time and host rating) are dropped.
   */
  datatype Post = Post(
    id: int,
    author: string,
    content: string,
    tags: seq<Tag>,
    likes: nat,
    comments: nat,
    timestamp: string,
    isEvent: bool)

  /** The selection meaning "no filtering". */
  const AllTag: Tag := "All"

  /** `posts.flatMap(post => post.tags)`. */
  function TagsOf(posts: seq<Post>): (r: seq<Tag>)
    ensures forall t :: t in r <==> exists p :: p in posts && t in p.tags
  {
    if posts == [] then []
    else
      assert forall p :: p in posts <==> p == posts[0] || p in posts[1..];
      posts[0].tags + TagsOf(posts[1..])
  }

  /**
   * `['All', ...new Set(posts.flatMap(post => post.tags))]`: the sentinel, then every tag
   * carried by some post, once, in order of first appearance.
   */
  function FilterOptions(posts: seq<Post>): (r: seq<Tag>)
    ensures |r| >= 1 && r[0] == AllTag
    ensures NoDuplicates(r[1..])
    ensures forall t :: t in r[1..] <==> exists p :: p in posts && t in p.tags
    ensures forall i :: 1 <= i < |r| ==> r[i] in TagsOf(posts)
    ensures forall i, j :: 1 <= i < j < |r| ==>
      FirstIndex(TagsOf(posts), r[i]) < FirstIndex(TagsOf(posts), r[j])
  {
    var tags := TagsOf(posts);
    DistinctFirstAppearance(tags);
    var r := [AllTag] + Distinct(tags);
    assert r[1..] == Distinct(tags);
    r
  }

  /** The posts carrying `tag`, in feed order. */
  function WithTag(posts: seq<Post>, tag: Tag): (r: seq<Post>)
    ensures forall p :: p in r <==> p in posts && tag in p.tags
    ensures forall p :: multiset(r)[p] == if tag in p.tags then multiset(posts)[p] else 0
    ensures IsSubseq(r, posts)
  {
    FilterIsSubseq(posts, (p: Post) => tag in p.tags);
    FilterCount(posts, (p: Post) => tag in p.tags);
    Filter(posts, (p: Post) => tag in p.tags)
  }

  /** The posts shown for the selection `selected`: all of them for the sentinel. */
  function FilteredPosts(posts: seq<Post>, selected: Tag): (r: seq<Post>)
    ensures selected == AllTag ==> r == posts
    ensures selected != AllTag ==> forall p :: p in r <==> p in posts && selected in p.tags
    ensures selected != AllTag ==>
      forall p :: multiset(r)[p] == if selected in p.tags then multiset(posts)[p] else 0
    ensures IsSubseq(r, posts) && |r| <= |posts|
  {
    if selected == AllTag then
      assert IsSubseq(posts, posts) by { SubseqReflexive(posts); }
      posts
    else
      var r := WithTag(posts, selected);
      SubseqLength(r, posts);
      r
  }

  /** The component's state: the loaded posts and the selected tag. */
  datatype FeedState = FeedState(posts: seq<Post>, selectedTag: Tag)

  /** The feed as first shown: the selection starts at the sentinel, so nothing is hidden. */
  function Initial(posts: seq<Post>): (s: FeedState)
    ensures s.posts == posts && s.selectedTag == AllTag
    ensures Visible(s) == posts
  {
    FeedState(posts, AllTag)
  }

  function Visible(s: FeedState): seq<Post> {
    FilteredPosts(s.posts, s.selectedTag)
  }

  /** A click on a filter button or on a tag badge: the selection is overwritten. */
  function SelectTag(s: FeedState, tag: Tag): (s': FeedState)
    ensures s'.posts == s.posts && s'.selectedTag == tag
  {
    s.(selectedTag := tag)
  }

  /** After a click on a tag badge of a shown post, that post is still shown. */
  lemma BadgeClickKeepsPost(s: FeedState, p: Post, tag: Tag)
    requires p in s.posts && tag in p.tags
    ensures SelectTag(s, tag).selectedTag == tag
    ensures p in Visible(SelectTag(s, tag))
  {
  }

  /** No filter button leads to an empty feed unless there are no posts at all. */
  lemma OptionNeverEmpty(posts: seq<Post>, tag: Tag)
    requires tag in FilterOptions(posts) && posts != []
    ensures FilteredPosts(posts, tag) != []
  {
  }
}
