/** The forum state and what each locked section does to it, as functions. */
module Forum {
  import opened Wrappers
  import opened Text
  import opened Slugs
  import opened Indexes

  const MAX_CATEGORY_NAME_LEN := 80
  const MAX_TOPIC_TITLE_LEN := 160
  const MAX_POST_CONTENT_BYTES := 65_536
  const MAX_PAGE_SIZE := 100

  // ----- entities -----

  datatype Category = Category(id: string, name: string, slug: string, description: Option<string>,
                               parentId: Option<string>, isLocked: bool, isPrivate: bool)

  datatype Topic = Topic(id: string, categoryId: string, authorId: string, title: string, slug: string,
                         replyCount: u32, isLocked: bool, deleted: bool)

  datatype Post = Post(id: string, topicId: string, authorId: string, contentRaw: string, contentHtml: string,
                       revision: u32, deleted: bool)

  datatype PermissionTarget = PermissionTarget(ownerId: string, categoryId: string, topicId: Option<string>,
                                               isFirstPost: bool)

  datatype TopicDetail = TopicDetail(topic: Topic, posts: seq<Post>)

  datatype Error =
    | InvalidCategoryName | InvalidTopicTitle | InvalidPostContent | CategoryNotFound | TopicNotFound
    | PostNotFound | CategoryLocked | TopicLocked | Forbidden

  /** `render` stands for the Markdown renderer; it never changes. */
  datatype State = State(
    render: string -> string,
    nextCategoryId: nat,
    nextTopicId: nat,
    nextPostId: nat,
    categories: map<string, Category>,
    categorySlugIndex: map<string, string>,
    topics: map<string, Topic>,
    topicSlugIndex: map<string, string>,
    posts: map<string, Post>,
    postsByTopic: map<string, seq<string>>,
    topicsByCategory: map<string, seq<string>>
  )

  function Initial(render: string -> string): State {
    State(render, 1, 1, 1, map[], map[], map[], map[], map[], map[], map[])
  }

  function CleanContent(value: string): Result<string, Error> {
    match CleanText(value, MAX_POST_CONTENT_BYTES)
    case Some(text) => Success(text)
    case None => Failure(InvalidPostContent)
  }

  function CleanDescription(value: Option<string>): Option<string> {
    if value.Some? then CleanText(value.value, MAX_POST_CONTENT_BYTES) else None
  }

  // ----- the writing sections -----

  function NewCategorySlug(name: string, index: map<string, string>): string {
    Candidate(Slug(name), FirstFree(Slug(name), index.Keys, 1))
  }

  function NewTopicSlug(categoryId: string, title: string, index: map<string, string>): string {
    Candidate(Slug(title), FirstFree(TopicKey(categoryId, Slug(title)), index.Keys, 1))
  }

  function AddCategory(s: State, c: Category): State {
    s.(nextCategoryId := s.nextCategoryId + 1,
       categorySlugIndex := s.categorySlugIndex[c.slug := c.id],
       categories := s.categories[c.id := c])
  }

  function DoCreateCategory(s: State, rawName: string, description: Option<string>, parent: Option<string>,
                            isPrivate: bool): Result<State, Error>
  {
    match CleanText(rawName, MAX_CATEGORY_NAME_LEN)
    case None => Failure(InvalidCategoryName)
    case Some(name) =>
      if parent.Some? && parent.value !in s.categories then Failure(CategoryNotFound)
      else
        Success(AddCategory(s, Category(Id("category", s.nextCategoryId), name,
                                        NewCategorySlug(name, s.categorySlugIndex), CleanDescription(description),
                                        parent, false, isPrivate)))
  }

  function AddPost(s: State, p: Post): State {
    s.(nextPostId := s.nextPostId + 1,
       postsByTopic := s.postsByTopic[p.topicId := ListOf(s.postsByTopic, p.topicId) + [p.id]],
       posts := s.posts[p.id := p])
  }

  function AddTopic(s: State, t: Topic): State {
    s.(nextTopicId := s.nextTopicId + 1,
       topicSlugIndex := s.topicSlugIndex[TopicKey(t.categoryId, t.slug) := t.id],
       topicsByCategory := s.topicsByCategory[t.categoryId := ListOf(s.topicsByCategory, t.categoryId) + [t.id]],
       topics := s.topics[t.id := t])
  }

  function NewPost(s: State, topicId: string, author: string, content: string): Post {
    Post(Id("post", s.nextPostId), topicId, author, content, s.render(content), 1, false)
  }

  function DoCreateTopic(s: State, categoryId: string, author: string, rawTitle: string, rawContent: string)
    : Result<State, Error>
  {
    match CleanText(rawTitle, MAX_TOPIC_TITLE_LEN)
    case None => Failure(InvalidTopicTitle)
    case Some(title) =>
      var content :- CleanContent(rawContent);
      if categoryId !in s.categories then Failure(CategoryNotFound)
      else if s.categories[categoryId].isLocked then Failure(CategoryLocked)
      else
        var topic := Topic(Id("topic", s.nextTopicId), categoryId, author, title,
                           NewTopicSlug(categoryId, title, s.topicSlugIndex), 0, false, false);
        Success(AddPost(AddTopic(s, topic), NewPost(s, topic.id, author, content)))
  }

  predicate LiveTopic(s: State, id: string) {
    id in s.topics && !s.topics[id].deleted
  }

  predicate LivePost(s: State, id: string) {
    id in s.posts && !s.posts[id].deleted
  }

  function SetReplyCount(s: State, topicId: string, n: u32): State
    requires topicId in s.topics
  {
    s.(topics := s.topics[topicId := s.topics[topicId].(replyCount := n)])
  }

  function DoReply(s: State, topicId: string, author: string, rawContent: string): Result<State, Error> {
    var content :- CleanContent(rawContent);
    if !LiveTopic(s, topicId) then Failure(TopicNotFound)
    else if s.topics[topicId].isLocked then Failure(TopicLocked)
    else
      var s1 := SetReplyCount(s, topicId, SaturatingIncrement(s.topics[topicId].replyCount));
      Success(AddPost(s1, NewPost(s, topicId, author, content)))
  }

  function DoEditPost(s: State, id: string, rawContent: string): Result<State, Error> {
    var content :- CleanContent(rawContent);
    if !LivePost(s, id) then Failure(PostNotFound)
    else
      var p := s.posts[id];
      Success(s.(posts := s.posts[id := p.(contentRaw := content, contentHtml := s.render(content),
                                           revision := SaturatingIncrement(p.revision))]))
  }

  predicate IsFirstPost(s: State, id: string)
    requires id in s.posts
  {
    var list := ListOf(s.postsByTopic, s.posts[id].topicId);
    list != [] && list[0] == id
  }

  function MarkDeleted(posts: map<string, Post>, ids: seq<string>): map<string, Post> {
    map p | p in posts :: if p in ids then posts[p].(deleted := true) else posts[p]
  }

  function DoDeleteTopic(s: State, id: string): Result<State, Error> {
    if !LiveTopic(s, id) then Failure(TopicNotFound)
    else
      Success(s.(topics := s.topics[id := s.topics[id].(deleted := true, replyCount := 0)],
                 posts := MarkDeleted(s.posts, ListOf(s.postsByTopic, id))))
  }

  function DeleteReply(s: State, id: string): State
    requires id in s.posts
  {
    var topicId := s.posts[id].topicId;
    var s1 := s.(posts := s.posts[id := s.posts[id].(deleted := true)]);
    if topicId in s.topics then SetReplyCount(s1, topicId, SaturatingDecrement(s.topics[topicId].replyCount)) else s1
  }

  function DoDeletePost(s: State, id: string): Result<State, Error> {
    if !LivePost(s, id) then Failure(PostNotFound)
    else if IsFirstPost(s, id) then DoDeleteTopic(s, s.posts[id].topicId)
    else Success(DeleteReply(s, id))
  }

  // ----- the permission targets -----

  function TopicTarget(s: State, id: string): Result<PermissionTarget, Error> {
    if !LiveTopic(s, id) then Failure(TopicNotFound)
    else Success(PermissionTarget(s.topics[id].authorId, s.topics[id].categoryId, Some(s.topics[id].id), false))
  }

  function PostTarget(s: State, id: string): Result<PermissionTarget, Error> {
    if !LivePost(s, id) then Failure(PostNotFound)
    else if !LiveTopic(s, s.posts[id].topicId) then Failure(TopicNotFound)
    else
      Success(PermissionTarget(s.posts[id].authorId, s.topics[s.posts[id].topicId].categoryId,
                               Some(s.posts[id].topicId), IsFirstPost(s, id)))
  }

  // ----- runs: any interleaving of the writing sections of any number of callers -----

  datatype Section =
    | CreateCategory(name: string, description: Option<string>, parentId: Option<string>, isPrivate: bool)
    | CreateTopic(categoryId: string, authorId: string, title: string, content: string)
    | Reply(topicId: string, authorId: string, content: string)
    | EditPost(postId: string, content: string)
    | DeletePost(postId: string)
    | DeleteTopic(topicId: string)

  function Perform(s: State, section: Section): Result<State, Error> {
    match section
    case CreateCategory(name, description, parent, isPrivate) =>
      DoCreateCategory(s, name, description, parent, isPrivate)
    case CreateTopic(categoryId, author, title, content) => DoCreateTopic(s, categoryId, author, title, content)
    case Reply(topicId, author, content) => DoReply(s, topicId, author, content)
    case EditPost(id, content) => DoEditPost(s, id, content)
    case DeletePost(id) => DoDeletePost(s, id)
    case DeleteTopic(id) => DoDeleteTopic(s, id)
  }

  function Step(s: State, section: Section): State {
    match Perform(s, section)
    case Success(s1) => s1
    case Failure(_) => s
  }

  function Run(s: State, sections: seq<Section>): State {
    if sections == [] then s else Step(Run(s, sections[..|sections| - 1]), sections[|sections| - 1])
  }
}
