/** The representation invariant that ties the forum's tables together, and that every section keeps. */
module ForumInvariant {
  import opened Wrappers
  import opened Text
  import opened Order
  import opened Slugs
  import opened Indexes
  import opened Forum

  // ----- categories -----

  /** Parents are known and were created strictly before their children. */
  ghost predicate ParentsEarlier(categories: map<string, Category>) {
    forall id | id in categories && categories[id].parentId.Some? ::
      && categories[id].parentId.value in categories
      && Number("category", categories[id].parentId.value) < Number("category", id)
  }

  ghost predicate CategoriesInv(categories: map<string, Category>, next: nat) {
    && Numbered(categories, "category", next)
    && (forall id | id in categories :: categories[id].id == id && !categories[id].isLocked)
    && ParentsEarlier(categories)
  }

  function CategorySlugs(categories: map<string, Category>): map<string, string> {
    map id | id in categories :: categories[id].slug
  }

  ghost predicate CategorySlugsInv(categories: map<string, Category>, index: map<string, string>) {
    Inverts(index, CategorySlugs(categories)) && forall id | id in categories :: IsSlug(categories[id].slug)
  }

  // ----- topics -----

  ghost predicate TopicsInv(topics: map<string, Topic>, next: nat, categories: map<string, Category>) {
    && Numbered(topics, "topic", next)
    && (forall id | id in topics :: topics[id].id == id && !topics[id].isLocked && topics[id].categoryId in categories)
  }

  function TopicOwners(topics: map<string, Topic>): map<string, string> {
    map id | id in topics :: topics[id].categoryId
  }

  function TopicKeys(topics: map<string, Topic>): map<string, string> {
    map id | id in topics :: TopicKey(topics[id].categoryId, topics[id].slug)
  }

  ghost predicate TopicSlugsInv(topics: map<string, Topic>, index: map<string, string>) {
    Inverts(index, TopicKeys(topics)) && forall id | id in topics :: IsSlug(topics[id].slug)
  }

  // ----- posts -----

  ghost predicate PostsInv(posts: map<string, Post>, next: nat, topics: map<string, Topic>, render: string -> string) {
    && Numbered(posts, "post", next)
    && (forall id | id in posts ::
          && posts[id].id == id && posts[id].topicId in topics
          && posts[id].contentHtml == render(posts[id].contentRaw))
  }

  function PostOwners(posts: map<string, Post>): map<string, string> {
    map id | id in posts :: posts[id].topicId
  }

  // ----- accounting -----

  ghost function PostsOf(posts: map<string, Post>, topicId: string): set<string> {
    set p | p in posts && posts[p].topicId == topicId
  }

  ghost function LivePostsOf(posts: map<string, Post>, topicId: string): set<string> {
    set p | p in posts && posts[p].topicId == topicId && !posts[p].deleted
  }

  /** One topic: deleted with its first post, then emptied; otherwise `replyCount` counts the live replies,
      and never too many. */
  ghost predicate Accounts(topic: Topic, posts: map<string, Post>, list: seq<string>) {
    && list != [] && list[0] in posts
    && (topic.deleted <==> posts[list[0]].deleted)
    && (topic.deleted ==> LivePostsOf(posts, topic.id) == {} && topic.replyCount == 0)
    && (!topic.deleted ==> topic.replyCount + 1 <= |LivePostsOf(posts, topic.id)|)
    && (!topic.deleted && |PostsOf(posts, topic.id)| <= U32_MODULUS ==>
          |LivePostsOf(posts, topic.id)| == topic.replyCount + 1)
  }

  ghost predicate AccountingInv(topics: map<string, Topic>, posts: map<string, Post>,
                                postsByTopic: map<string, seq<string>>)
  {
    && postsByTopic.Keys == topics.Keys
    && (forall t | t in topics :: topics[t].id == t && Accounts(topics[t], posts, postsByTopic[t]))
  }

  ghost predicate Inv(s: State) {
    && CategoriesInv(s.categories, s.nextCategoryId)
    && CategorySlugsInv(s.categories, s.categorySlugIndex)
    && TopicsInv(s.topics, s.nextTopicId, s.categories)
    && TopicSlugsInv(s.topics, s.topicSlugIndex)
    && Partitions(s.topicsByCategory, TopicOwners(s.topics))
    && PostsInv(s.posts, s.nextPostId, s.topics, s.render)
    && Partitions(s.postsByTopic, PostOwners(s.posts))
    && AccountingInv(s.topics, s.posts, s.postsByTopic)
  }

  // ----- creating a category -----

  lemma CategoryRanked(categories: map<string, Category>, next: nat, c: Category)
    requires CategoriesInv(categories, next)
    requires c.id == Id("category", next) && !c.isLocked
    requires c.parentId.Some? ==> c.parentId.value in categories
    ensures CategoriesInv(categories[c.id := c], next + 1)
  {
    hide Id;
    NumberedInsert(categories, "category", next, c);
    NumberOfId("category", next);
    assert c.parentId.Some? ==> Number("category", c.parentId.value) < next;
    hide Numbered;
  }

  lemma CategoryAdded(categories: map<string, Category>, index: map<string, string>, next: nat, c: Category)
    requires CategoriesInv(categories, next) && CategorySlugsInv(categories, index)
    requires c.id == Id("category", next) && !c.isLocked && IsSlug(c.slug) && c.slug !in index
    requires c.parentId.Some? ==> c.parentId.value in categories
    ensures CategoriesInv(categories[c.id := c], next + 1)
    ensures CategorySlugsInv(categories[c.id := c], index[c.slug := c.id])
  {
    hide Id, IsSlug, Numbered, Inverts;
    CategoryRanked(categories, next, c);
    NumberedInsert(categories, "category", next, c);
    InvertsAdd(index, CategorySlugs(categories), c.id, c.slug);
    assert CategorySlugs(categories[c.id := c]) == CategorySlugs(categories)[c.id := c.slug];
  }

  lemma NewCategorySlugIsFree(name: string, index: map<string, string>)
    ensures IsSlug(NewCategorySlug(name, index)) && NewCategorySlug(name, index) !in index
  {
    hide IsSlug, Slug, Candidate;
    SlugIsCanonical(name);
    CandidateIsSlug(Slug(name), FirstFree(Slug(name), index.Keys, 1));
  }

  lemma CreateCategoryKeepsInv(s: State, name: string, description: Option<string>, parent: Option<string>,
                               isPrivate: bool)
    requires Inv(s) && DoCreateCategory(s, name, description, parent, isPrivate).Success?
    ensures Inv(DoCreateCategory(s, name, description, parent, isPrivate).value)
  {
    hide CategoriesInv, CategorySlugsInv, TopicSlugsInv, PostsInv, AccountingInv, Partitions, CleanText,
         NewCategorySlug, IsSlug, Numbered, Id;
    var clean := CleanText(name, MAX_CATEGORY_NAME_LEN).value;
    NewCategorySlugIsFree(clean, s.categorySlugIndex);
    var s1 := DoCreateCategory(s, name, description, parent, isPrivate).value;
    var c := s1.categories[Id("category", s.nextCategoryId)];
    CategoryAdded(s.categories, s.categorySlugIndex, s.nextCategoryId, c);
  }

  // ----- adding topics and posts -----

  lemma NewTopicSlugIsFree(categoryId: string, title: string, index: map<string, string>)
    ensures var slug := NewTopicSlug(categoryId, title, index);
            IsSlug(slug) && TopicKey(categoryId, slug) !in index
  {
    hide IsSlug, Slug, Candidate;
    SlugIsCanonical(title);
    var stem := TopicKey(categoryId, Slug(title));
    var n := FirstFree(stem, index.Keys, 1);
    CandidateIsSlug(Slug(title), n);
    TopicKeyOfCandidate(categoryId, Slug(title), n);
  }

  lemma TopicAdded(s: State, t: Topic)
    requires TopicsInv(s.topics, s.nextTopicId, s.categories) && TopicSlugsInv(s.topics, s.topicSlugIndex)
    requires Partitions(s.topicsByCategory, TopicOwners(s.topics))
    requires t.id == Id("topic", s.nextTopicId) && !t.isLocked && t.categoryId in s.categories
    requires IsSlug(t.slug) && TopicKey(t.categoryId, t.slug) !in s.topicSlugIndex
    ensures t.id !in s.topics
    ensures var s1 := AddTopic(s, t);
            && TopicsInv(s1.topics, s1.nextTopicId, s1.categories) && TopicSlugsInv(s1.topics, s1.topicSlugIndex)
            && Partitions(s1.topicsByCategory, TopicOwners(s1.topics))
  {
    hide Id, IsSlug, TopicKey, Inverts, Partitions, Numbered;
    NumberedInsert(s.topics, "topic", s.nextTopicId, t);
    var topics1 := s.topics[t.id := t];
    InvertsAdd(s.topicSlugIndex, TopicKeys(s.topics), t.id, TopicKey(t.categoryId, t.slug));
    assert TopicKeys(topics1) == TopicKeys(s.topics)[t.id := TopicKey(t.categoryId, t.slug)];
    PartitionAdd(s.topicsByCategory, TopicOwners(s.topics), t.id, t.categoryId);
    assert TopicOwners(topics1) == TopicOwners(s.topics)[t.id := t.categoryId];
  }

  lemma PostAdded(s: State, p: Post)
    requires PostsInv(s.posts, s.nextPostId, s.topics, s.render) && Partitions(s.postsByTopic, PostOwners(s.posts))
    requires p.id == Id("post", s.nextPostId) && p.topicId in s.topics && p.contentHtml == s.render(p.contentRaw)
    ensures p.id !in s.posts
    ensures var s1 := AddPost(s, p);
            && PostsInv(s1.posts, s1.nextPostId, s1.topics, s1.render)
            && Partitions(s1.postsByTopic, PostOwners(s1.posts))
  {
    hide Id, Partitions, Numbered;
    NumberedInsert(s.posts, "post", s.nextPostId, p);
    PartitionAdd(s.postsByTopic, PostOwners(s.posts), p.id, p.topicId);
    assert PostOwners(s.posts[p.id := p]) == PostOwners(s.posts)[p.id := p.topicId];
  }

  // ----- the account of one topic -----

  /** A change of posts that leaves one topic's posts alone leaves its account alone. */
  lemma OtherTopicAccounts(topic: Topic, posts: map<string, Post>, posts1: map<string, Post>, list: seq<string>)
    requires Accounts(topic, posts, list)
    requires posts.Keys <= posts1.Keys
    requires forall p | p in posts && p in list :: posts1[p].deleted == posts[p].deleted
    requires forall p | p in posts1 && posts1[p].topicId == topic.id :: p in posts
    requires forall p | p in posts :: posts1[p].topicId == posts[p].topicId
    requires forall p | p in posts && posts[p].topicId == topic.id :: posts1[p].deleted == posts[p].deleted
    ensures Accounts(topic, posts1, list)
  {
    assert list[0] in list;
    assert PostsOf(posts1, topic.id) == PostsOf(posts, topic.id);
    assert LivePostsOf(posts1, topic.id) == LivePostsOf(posts, topic.id);
  }

  lemma NewTopicAccount(t: Topic, posts: map<string, Post>, p: Post)
    requires !t.deleted && t.replyCount == 0 && p.topicId == t.id && !p.deleted
    requires forall x | x in posts :: posts[x].topicId != t.id
    ensures Accounts(t, posts[p.id := p], [p.id])
  {
    assert PostsOf(posts[p.id := p], t.id) == {p.id};
    assert LivePostsOf(posts[p.id := p], t.id) == {p.id};
  }

  lemma ReplyAccount(topic: Topic, posts: map<string, Post>, p: Post, list: seq<string>)
    requires Accounts(topic, posts, list) && !topic.deleted
    requires p.id !in posts && p.topicId == topic.id && !p.deleted
    ensures Accounts(topic.(replyCount := SaturatingIncrement(topic.replyCount)), posts[p.id := p], list + [p.id])
  {
    var posts1 := posts[p.id := p];
    SubsetSize(LivePostsOf(posts, topic.id), PostsOf(posts, topic.id));
    assert PostsOf(posts1, topic.id) == PostsOf(posts, topic.id) + {p.id};
    assert LivePostsOf(posts1, topic.id) == LivePostsOf(posts, topic.id) + {p.id};
  }

  /** The first post of a live topic is alive, so deleting another live post leaves a reply to subtract. */
  lemma DeletedReplyAccount(topic: Topic, posts: map<string, Post>, id: string, list: seq<string>)
    requires Accounts(topic, posts, list)
    requires id in LivePostsOf(posts, topic.id) && id != list[0] && posts[list[0]].topicId == topic.id
    ensures !topic.deleted
    ensures |PostsOf(posts, topic.id)| <= U32_MODULUS ==>
      1 <= topic.replyCount == |LivePostsOf(posts, topic.id)| - 1
    ensures Accounts(topic.(replyCount := SaturatingDecrement(topic.replyCount)),
                     posts[id := posts[id].(deleted := true)], list)
  {
    var posts1 := posts[id := posts[id].(deleted := true)];
    SubsetSize({id, list[0]}, LivePostsOf(posts, topic.id));
    assert PostsOf(posts1, topic.id) == PostsOf(posts, topic.id);
    assert LivePostsOf(posts1, topic.id) == LivePostsOf(posts, topic.id) - {id};
  }

  lemma DeletedTopicAccount(topic: Topic, posts: map<string, Post>, list: seq<string>)
    requires Accounts(topic, posts, list)
    requires forall p | p in posts && posts[p].topicId == topic.id :: p in list
    ensures Accounts(topic.(deleted := true, replyCount := 0), MarkDeleted(posts, list), list)
  {
    assert list[0] in list;
    assert LivePostsOf(MarkDeleted(posts, list), topic.id) == {};
  }

  lemma FirstPostAccounts(s: State, t: Topic, p: Post)
    requires AccountingInv(s.topics, s.posts, s.postsByTopic)
    requires PostsInv(s.posts, s.nextPostId, s.topics, s.render)
    requires t.id !in s.topics && !t.deleted && t.replyCount == 0
    requires p.id !in s.posts && p.topicId == t.id && !p.deleted
    ensures var s2 := AddPost(AddTopic(s, t), p); AccountingInv(s2.topics, s2.posts, s2.postsByTopic)
  {
    hide Numbered, Accounts;
    var s2 := AddPost(AddTopic(s, t), p);
    NewTopicAccount(t, s.posts, p);
    assert s2.postsByTopic[t.id] == [p.id];
    forall x | x in s.topics ensures Accounts(s2.topics[x], s2.posts, s2.postsByTopic[x]) {
      OtherTopicAccounts(s.topics[x], s.posts, s2.posts, s.postsByTopic[x]);
    }
  }

  lemma CreateTopicKeepsInv(s: State, categoryId: string, author: string, title: string, content: string)
    requires Inv(s) && DoCreateTopic(s, categoryId, author, title, content).Success?
    ensures Inv(DoCreateTopic(s, categoryId, author, title, content).value)
  {
    hide CategorySlugsInv, TopicSlugsInv, AccountingInv, Partitions, CleanText, NewTopicSlug, IsSlug, Numbered, Id;
    var cleanTitle := CleanText(title, MAX_TOPIC_TITLE_LEN).value;
    var cleanContent := CleanContent(content).value;
    NewTopicSlugIsFree(categoryId, cleanTitle, s.topicSlugIndex);
    var t := Topic(Id("topic", s.nextTopicId), categoryId, author, cleanTitle,
                   NewTopicSlug(categoryId, cleanTitle, s.topicSlugIndex), 0, false, false);
    var p := NewPost(s, t.id, author, cleanContent);
    TopicAdded(s, t);
    PostAdded(AddTopic(s, t), p);
    FirstPostAccounts(s, t, p);
  }

  // ----- replies -----

  /** Only `replyCount` and `deleted` of a topic ever change, and no index depends on them. */
  lemma TopicUpdated(s: State, id: string, t: Topic)
    requires TopicsInv(s.topics, s.nextTopicId, s.categories) && TopicSlugsInv(s.topics, s.topicSlugIndex)
    requires Partitions(s.topicsByCategory, TopicOwners(s.topics))
    requires id in s.topics && t == s.topics[id].(replyCount := t.replyCount, deleted := t.deleted)
    ensures var topics1 := s.topics[id := t];
            && TopicsInv(topics1, s.nextTopicId, s.categories) && TopicSlugsInv(topics1, s.topicSlugIndex)
            && Partitions(s.topicsByCategory, TopicOwners(topics1))
  {
    hide Inverts, Partitions, IsSlug, TopicKey, Numbered;
    NumberedUpdate(s.topics, "topic", s.nextTopicId, id, t);
    assert TopicOwners(s.topics[id := t]) == TopicOwners(s.topics);
    assert TopicKeys(s.topics[id := t]) == TopicKeys(s.topics);
  }

  lemma ReplyAccounts(s: State, id: string, p: Post)
    requires AccountingInv(s.topics, s.posts, s.postsByTopic) && LiveTopic(s, id)
    requires p.id !in s.posts && p.topicId == id && !p.deleted
    ensures var s1 := SetReplyCount(s, id, SaturatingIncrement(s.topics[id].replyCount));
            var s2 := AddPost(s1, p);
            AccountingInv(s2.topics, s2.posts, s2.postsByTopic)
  {
    hide Accounts;
    var s2 := AddPost(SetReplyCount(s, id, SaturatingIncrement(s.topics[id].replyCount)), p);
    ReplyAccount(s.topics[id], s.posts, p, s.postsByTopic[id]);
    forall x | x in s.topics && x != id ensures Accounts(s2.topics[x], s2.posts, s2.postsByTopic[x]) {
      OtherTopicAccounts(s.topics[x], s.posts, s2.posts, s.postsByTopic[x]);
    }
  }

  lemma ReplyKeepsInv(s: State, id: string, author: string, rawContent: string)
    requires Inv(s) && DoReply(s, id, author, rawContent).Success?
    ensures Inv(DoReply(s, id, author, rawContent).value)
  {
    hide CategoriesInv, CategorySlugsInv, TopicsInv, TopicSlugsInv, AccountingInv, Partitions, CleanText,
         Numbered, Id, TopicOwners;
    var content := CleanContent(rawContent).value;
    var count := SaturatingIncrement(s.topics[id].replyCount);
    var s1 := SetReplyCount(s, id, count);
    TopicUpdated(s, id, s.topics[id].(replyCount := count));
    var p := NewPost(s, id, author, content);
    PostAdded(s1, p);
    ReplyAccounts(s, id, p);
  }

  // ----- edits and deletions -----

  lemma PostUpdated(s: State, id: string, p: Post)
    requires PostsInv(s.posts, s.nextPostId, s.topics, s.render) && Partitions(s.postsByTopic, PostOwners(s.posts))
    requires id in s.posts && p.id == s.posts[id].id && p.topicId == s.posts[id].topicId
    requires p.contentHtml == s.render(p.contentRaw)
    ensures PostsInv(s.posts[id := p], s.nextPostId, s.topics, s.render)
    ensures Partitions(s.postsByTopic, PostOwners(s.posts[id := p]))
  {
    hide Partitions, Numbered;
    NumberedUpdate(s.posts, "post", s.nextPostId, id, p);
    assert PostOwners(s.posts[id := p]) == PostOwners(s.posts);
  }

  lemma EditAccounts(s: State, id: string, p: Post)
    requires AccountingInv(s.topics, s.posts, s.postsByTopic)
    requires id in s.posts && p.topicId == s.posts[id].topicId && p.deleted == s.posts[id].deleted
    ensures AccountingInv(s.topics, s.posts[id := p], s.postsByTopic)
  {
    hide Accounts;
    forall x | x in s.topics ensures Accounts(s.topics[x], s.posts[id := p], s.postsByTopic[x]) {
      OtherTopicAccounts(s.topics[x], s.posts, s.posts[id := p], s.postsByTopic[x]);
    }
  }

  lemma EditKeepsInv(s: State, id: string, rawContent: string)
    requires Inv(s) && DoEditPost(s, id, rawContent).Success?
    ensures Inv(DoEditPost(s, id, rawContent).value)
  {
    hide CategoriesInv, CategorySlugsInv, TopicsInv, TopicSlugsInv, AccountingInv, Partitions, CleanText,
         PostsInv, TopicOwners, PostOwners;
    var p := DoEditPost(s, id, rawContent).value.posts[id];
    PostUpdated(s, id, p);
    EditAccounts(s, id, p);
  }

  /** Lists and owners agree on which topic a post belongs to. */
  lemma ListedUnderOwnTopic(s: State, t: string, p: string)
    requires Partitions(s.postsByTopic, PostOwners(s.posts))
    ensures p in s.posts && s.posts[p].topicId == t <==> t in s.postsByTopic && p in s.postsByTopic[t]
  {
    if p in s.posts {
      assert PostOwners(s.posts)[p] == s.posts[p].topicId;
      assert PostOwners(s.posts)[p] in s.postsByTopic;
    }
    if t in s.postsByTopic {
      assert p in s.postsByTopic[t] <==> p in PostOwners(s.posts) && PostOwners(s.posts)[p] == t;
    }
  }

  /** Deleting a live reply finds a live topic and, below the u32 bound, an exact and positive `replyCount`. */
  lemma ReplyCountNeverClips(s: State, id: string)
    requires Inv(s) && LivePost(s, id) && !IsFirstPost(s, id)
    ensures var t := s.posts[id].topicId;
            && LiveTopic(s, t)
            && (|PostsOf(s.posts, t)| <= U32_MODULUS ==>
                  1 <= s.topics[t].replyCount == |LivePostsOf(s.posts, t)| - 1)
  {
    hide CategoriesInv, CategorySlugsInv, TopicsInv, TopicSlugsInv, Partitions, PostsInv;
    FirstIsOther(s, id);
    var t := s.posts[id].topicId;
    DeletedReplyAccount(s.topics[t], s.posts, id, s.postsByTopic[t]);
  }

  lemma FirstIsOther(s: State, id: string)
    requires AccountingInv(s.topics, s.posts, s.postsByTopic) && Partitions(s.postsByTopic, PostOwners(s.posts))
    requires LivePost(s, id) && !IsFirstPost(s, id)
    ensures var t := s.posts[id].topicId;
            && t in s.topics && t in s.postsByTopic && Accounts(s.topics[t], s.posts, s.postsByTopic[t])
            && s.topics[t].id == t && s.postsByTopic[t][0] != id && s.posts[s.postsByTopic[t][0]].topicId == t
  {
    hide Partitions;
    var t := s.posts[id].topicId;
    ListedUnderOwnTopic(s, t, id);
    var first := s.postsByTopic[t][0];
    assert first in s.postsByTopic[t];
    ListedUnderOwnTopic(s, t, first);
  }

  lemma DeleteReplyAccounts(s: State, id: string)
    requires AccountingInv(s.topics, s.posts, s.postsByTopic) && Partitions(s.postsByTopic, PostOwners(s.posts))
    requires LivePost(s, id) && !IsFirstPost(s, id)
    ensures var s1 := DeleteReply(s, id); AccountingInv(s1.topics, s1.posts, s1.postsByTopic)
  {
    hide Partitions, Accounts, IsFirstPost;
    FirstIsOther(s, id);
    var t := s.posts[id].topicId;
    var s1 := DeleteReply(s, id);
    DeletedReplyAccount(s.topics[t], s.posts, id, s.postsByTopic[t]);
    forall x | x in s.topics && x != t ensures Accounts(s1.topics[x], s1.posts, s1.postsByTopic[x]) {
      ListedUnderOwnTopic(s, x, id);
      OtherTopicAccounts(s.topics[x], s.posts, s1.posts, s.postsByTopic[x]);
    }
  }

  lemma DeleteReplyKeepsInv(s: State, id: string)
    requires Inv(s) && LivePost(s, id) && !IsFirstPost(s, id)
    ensures Inv(DeleteReply(s, id))
  {
    hide CategoriesInv, CategorySlugsInv, TopicsInv, TopicSlugsInv, AccountingInv, Partitions, TopicOwners,
         PostOwners, IsFirstPost;
    ReplyCountNeverClips(s, id);
    DeleteReplyAccounts(s, id);
    PostUpdated(s, id, s.posts[id].(deleted := true));
    var s1 := DeleteReply(s, id);
    TopicUpdated(s, s.posts[id].topicId, s1.topics[s.posts[id].topicId]);
  }

  lemma DeleteTopicAccounts(s: State, id: string)
    requires AccountingInv(s.topics, s.posts, s.postsByTopic) && Partitions(s.postsByTopic, PostOwners(s.posts))
    requires LiveTopic(s, id)
    ensures var s1 := DoDeleteTopic(s, id).value; AccountingInv(s1.topics, s1.posts, s1.postsByTopic)
  {
    hide Partitions, Accounts, PostOwners;
    var s1 := DoDeleteTopic(s, id).value;
    var list := s.postsByTopic[id];
    forall p | p in s.posts ensures p in list <==> s.posts[p].topicId == id {
      ListedUnderOwnTopic(s, id, p);
    }
    DeletedTopicAccount(s.topics[id], s.posts, list);
    forall x | x in s.topics && x != id ensures Accounts(s1.topics[x], s1.posts, s1.postsByTopic[x]) {
      forall p | p in s.posts && p in s.postsByTopic[x] ensures p !in list {
        ListedUnderOwnTopic(s, x, p);
      }
      OtherTopicAccounts(s.topics[x], s.posts, s1.posts, s.postsByTopic[x]);
    }
  }

  lemma PostsMarked(s: State, ids: seq<string>)
    requires PostsInv(s.posts, s.nextPostId, s.topics, s.render)
    ensures PostsInv(MarkDeleted(s.posts, ids), s.nextPostId, s.topics, s.render)
    ensures PostOwners(MarkDeleted(s.posts, ids)) == PostOwners(s.posts)
  {
    hide Numbered;
    NumberedSameKeys(s.posts, MarkDeleted(s.posts, ids), "post", s.nextPostId);
  }

  lemma DeleteTopicKeepsInv(s: State, id: string)
    requires Inv(s) && LiveTopic(s, id)
    ensures Inv(DoDeleteTopic(s, id).value)
  {
    hide CategoriesInv, CategorySlugsInv, TopicsInv, TopicSlugsInv, AccountingInv, Partitions, TopicOwners,
         PostOwners, MarkDeleted;
    TopicUpdated(s, id, s.topics[id].(deleted := true, replyCount := 0));
    PostsMarked(s, ListOf(s.postsByTopic, id));
    DeleteTopicAccounts(s, id);
  }

  // ----- every section, every run -----

  lemma StepKeepsInv(s: State, section: Section)
    requires Inv(s)
    ensures Inv(Step(s, section))
  {
    hide Inv, DoCreateCategory, DoCreateTopic, DoReply, DoEditPost, IsFirstPost, DeleteReply;
    if Perform(s, section).Success? {
      match section
      case CreateCategory(name, description, parent, isPrivate) =>
        CreateCategoryKeepsInv(s, name, description, parent, isPrivate);
      case CreateTopic(categoryId, author, title, content) =>
        CreateTopicKeepsInv(s, categoryId, author, title, content);
      case Reply(topicId, author, content) => ReplyKeepsInv(s, topicId, author, content);
      case EditPost(id, content) => EditKeepsInv(s, id, content);
      case DeletePost(id) =>
        if IsFirstPost(s, id) {
          DeleteTopicKeepsInv(s, s.posts[id].topicId);
        } else {
          DeleteReplyKeepsInv(s, id);
        }
      case DeleteTopic(id) => DeleteTopicKeepsInv(s, id);
    }
  }

  lemma InitialInv(render: string -> string)
    ensures Inv(Initial(render))
  {
  }

  lemma {:induction false} RunKeepsInv(s: State, sections: seq<Section>)
    requires Inv(s)
    ensures Inv(Run(s, sections))
  {
    if sections == [] {
    } else {
      hide Inv, Step;
      RunKeepsInv(s, sections[..|sections| - 1]);
      StepKeepsInv(Run(s, sections[..|sections| - 1]), sections[|sections| - 1]);
    }
  }

  ghost predicate IsReachable(s: State) {
    exists render, sections :: s == Run(Initial(render), sections)
  }

  /** However the sections of all callers interleave, the tables stay tied together. */
  lemma ReachableInv(s: State)
    requires IsReachable(s)
    ensures Inv(s)
  {
    hide Inv, Run;
    var render, sections :| s == Run(Initial(render), sections);
    InitialInv(render);
    RunKeepsInv(Initial(render), sections);
  }
}
