/** The forum told from its writing sections alone, without any table: which of them took effect, and what each next one
    must answer. */
module ForumLedger {
  import opened Wrappers
  import opened Text
  import opened Forum

  type Founding = d: Section | d.CreateCategory? witness CreateCategory("", None, None, false)
  type Opening = d: Section | d.CreateTopic? witness CreateTopic("", "", "", "")

  /** A post made by a reply, or by opening its topic. */
  datatype Posting = Posting(topicId: string, authorId: string, content: string)

  // ----- what the sections that took effect say -----

  /** The categories created, in order. */
  function Founded(deeds: seq<Section>): seq<Founding> {
    if deeds == [] then []
    else
      var d := deeds[|deeds| - 1];
      Founded(deeds[..|deeds| - 1]) + if d.CreateCategory? then [d] else []
  }

  /** The topics opened, in order. */
  function Opened(deeds: seq<Section>): seq<Opening> {
    if deeds == [] then []
    else
      var d := deeds[|deeds| - 1];
      Opened(deeds[..|deeds| - 1]) + if d.CreateTopic? then [d] else []
  }

  function NextTopic(deeds: seq<Section>): string {
    Id("topic", |Opened(deeds)| + 1)
  }

  /** The post a section makes, if it makes one. */
  function PostingOf(before: seq<Section>, d: Section): Option<Posting> {
    match d
    case CreateTopic(_, author, _, content) => Some(Posting(NextTopic(before), author, content))
    case Reply(topicId, author, content) => Some(Posting(topicId, author, content))
    case _ => None
  }

  /** The posts made, in order. */
  function Posted(deeds: seq<Section>): seq<Posting> {
    if deeds == [] then []
    else
      var before := deeds[..|deeds| - 1];
      var made := PostingOf(before, deeds[|deeds| - 1]);
      Posted(before) + if made.Some? then [made.value] else []
  }

  function NextPost(deeds: seq<Section>): string {
    Id("post", |Posted(deeds)| + 1)
  }

  /** The posts of a topic, in order. */
  function PostIdsOf(deeds: seq<Section>, topicId: string): seq<string> {
    if deeds == [] then []
    else
      var before := deeds[..|deeds| - 1];
      var made := PostingOf(before, deeds[|deeds| - 1]);
      PostIdsOf(before, topicId) + if made.Some? && made.value.topicId == topicId then [NextPost(before)] else []
  }

  /** The topics of a category, in order. */
  function TopicIdsOf(deeds: seq<Section>, categoryId: string): seq<string> {
    if deeds == [] then []
    else
      var before, d := deeds[..|deeds| - 1], deeds[|deeds| - 1];
      TopicIdsOf(before, categoryId) + if d.CreateTopic? && d.categoryId == categoryId then [NextTopic(before)] else []
  }

  /** The post a topic was opened with. */
  function OpeningPost(deeds: seq<Section>, topicId: string): Option<string> {
    if deeds == [] then None
    else
      var before, d := deeds[..|deeds| - 1], deeds[|deeds| - 1];
      if d.CreateTopic? && NextTopic(before) == topicId then Some(NextPost(before)) else OpeningPost(before, topicId)
  }

  /** The last text the post was edited to. */
  function LastEdit(deeds: seq<Section>, id: string): Option<string> {
    if deeds == [] then None
    else
      var d := deeds[|deeds| - 1];
      if d.EditPost? && d.postId == id then Some(d.content) else LastEdit(deeds[..|deeds| - 1], id)
  }

  function EditCount(deeds: seq<Section>, id: string): nat {
    if deeds == [] then 0
    else
      var d := deeds[|deeds| - 1];
      EditCount(deeds[..|deeds| - 1], id) + if d.EditPost? && d.postId == id then 1 else 0
  }

  predicate TopicGone(deeds: seq<Section>, topicId: string) {
    DeleteTopic(topicId) in deeds
    || (OpeningPost(deeds, topicId).Some? && DeletePost(OpeningPost(deeds, topicId).value) in deeds)
  }

  predicate PostGone(deeds: seq<Section>, n: nat)
    requires 1 <= n <= |Posted(deeds)|
  {
    DeletePost(Id("post", n)) in deeds || TopicGone(deeds, Posted(deeds)[n - 1].topicId)
  }

  // ----- what the next section must answer -----

  predicate TopicThere(deeds: seq<Section>, id: string) {
    Known("topic", |Opened(deeds)|, id) && !TopicGone(deeds, id)
  }

  predicate PostThere(deeds: seq<Section>, id: string) {
    Known("post", |Posted(deeds)|, id) && !PostGone(deeds, Number("post", id))
  }

  /** Why a section is refused, if it is. */
  function Refusal(deeds: seq<Section>, d: Section): Option<Error> {
    match d
    case CreateCategory(name, _, parent, _) =>
      if !Acceptable(name, 80) then Some(InvalidCategoryName)
      else if parent.Some? && !Known("category", |Founded(deeds)|, parent.value) then Some(CategoryNotFound)
      else None
    case CreateTopic(categoryId, _, title, content) =>
      if !Acceptable(title, 160) then Some(InvalidTopicTitle)
      else if !Acceptable(content, 65_536) then Some(InvalidPostContent)
      else if !Known("category", |Founded(deeds)|, categoryId) then Some(CategoryNotFound)
      else None
    case Reply(topicId, _, content) =>
      if !Acceptable(content, 65_536) then Some(InvalidPostContent)
      else if !TopicThere(deeds, topicId) then Some(TopicNotFound)
      else None
    case EditPost(id, content) =>
      if !Acceptable(content, 65_536) then Some(InvalidPostContent)
      else if !PostThere(deeds, id) then Some(PostNotFound)
      else None
    case DeletePost(id) => if PostThere(deeds, id) then None else Some(PostNotFound)
    case DeleteTopic(id) => if TopicThere(deeds, id) then None else Some(TopicNotFound)
  }

  /** The sections of a run that took effect. */
  function Book(sections: seq<Section>): seq<Section> {
    if sections == [] then []
    else
      var before, d := Book(sections[..|sections| - 1]), sections[|sections| - 1];
      if Refusal(before, d).None? then before + [d] else before
  }
}
