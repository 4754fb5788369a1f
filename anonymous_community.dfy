/** The local-only anonymous community board: posting trimmed text at the head of the list. */
module AnonymousCommunity {
  import JsText

  datatype Post = Post(id: string, username: string, body: string, time: string)

  /** The three posts the board starts with. */
  const SeedPosts: seq<Post> := [
    Post("1", "Anonymous1", "Stay strong, everyone. We're in this together.", "10:30 AM"),
    Post("2", "Anonymous2", "Does anyone know about self-defense workshops nearby?", "11:15 AM"),
    Post("3", "Anonymous3", "Remember, you're never alone. Reach out if you need help.", "12:00 PM")
  ]

  class CommunityBoard {
    var text: string
    var posts: seq<Post>

    /** Every post on the board has a non-empty body. */
    predicate Valid()
      reads this
    {
      forall i :: 0 <= i < |posts| ==> posts[i].body != ""
    }

    constructor ()
      ensures Valid() && text == "" && posts == SeedPosts
    {
      text, posts := "", SeedPosts;
    }

    /**
     * `submit`: blank or whitespace-only text is ignored; otherwise one post by "Anonymous"
     * with the trimmed text goes first, the old posts follow unchanged, and the text is cleared.
     * The id is the time in ms as text; the time label is the caller's locale time text.
     */
    method Submit(now: int, timeLabel: string)
      requires Valid()
      modifies this
      ensures Valid()
      ensures JsText.AllSpace(old(text)) ==> unchanged(this)
      ensures !JsText.AllSpace(old(text)) ==>
                && posts == [Post(JsText.IntToString(now), "Anonymous", JsText.Trim(old(text)), timeLabel)] + old(posts)
                && text == ""
    {
      var body := JsText.Trim(text);
      if body == [] {
        return;
      }
      posts := [Post(JsText.IntToString(now), "Anonymous", body, timeLabel)] + posts;
      text := "";
    }
  }
}
