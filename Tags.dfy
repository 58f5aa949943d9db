/** The hashtag labels shared by the feed and the composer. */
module Tags {
  /** A tag is a plain string, compared exactly (no case folding). */
  type Tag = string
}
