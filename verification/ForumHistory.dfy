/** The tables of the forum say what the sections that took effect say, after every run. */
module ForumHistory {
  import opened Wrappers
  import opened Text
  import opened Indexes
  import opened Forum
  import opened ForumInvariant
  import opened ForumLedger

  // ----- how the tables follow from the sections -----

  ghost predicate CategoryTold(c: Category, deeds: seq<Section>, n: nat)
    requires 1 <= n <= |Founded(deeds)|
  {
    var d := Founded(deeds)[n - 1];
    var description := if d.description.Some? && Acceptable(d.description.value, 65_536)
                       then Some(Trim(d.description.value)) else None;
    c == Category(Id("category", n), Trim(d.name), c.slug, description, d.parentId, false, d.isPrivate)
  }

  ghost predicate CategoriesTold(categories: map<string, Category>, next: nat, deeds: seq<Section>) {
    && next == |Founded(deeds)| + 1 && Numbered(categories, "category", next)
    && (forall n | 1 <= n <= |Founded(deeds)| :: CategoryTold(categories[Id("category", n)], deeds, n))
  }

  ghost predicate TopicTold(t: Topic, deeds: seq<Section>, n: nat)
    requires 1 <= n <= |Opened(deeds)|
  {
    var d := Opened(deeds)[n - 1];
    t == Topic(Id("topic", n), d.categoryId, d.authorId, Trim(d.title), t.slug, t.replyCount, false,
               TopicGone(deeds, Id("topic", n)))
  }

  ghost predicate TopicsTold(topics: map<string, Topic>, next: nat, deeds: seq<Section>) {
    && next == |Opened(deeds)| + 1 && Numbered(topics, "topic", next)
    && (forall n | 1 <= n <= |Opened(deeds)| :: TopicTold(topics[Id("topic", n)], deeds, n))
  }

  /** What the post was last edited to, or else made with. */
  function TextOf(deeds: seq<Section>, n: nat): string
    requires 1 <= n <= |Posted(deeds)|
  {
    var edited := LastEdit(deeds, Id("post", n));
    Trim(if edited.Some? then edited.value else Posted(deeds)[n - 1].content)
  }

  function RevisionOf(deeds: seq<Section>, n: nat): u32 {
    var edits := EditCount(deeds, Id("post", n));
    if edits >= U32_MAX then U32_MAX else edits + 1
  }

  function PostOf(deeds: seq<Section>, n: nat, render: string -> string): Post
    requires 1 <= n <= |Posted(deeds)|
  {
    Post(Id("post", n), Posted(deeds)[n - 1].topicId, Posted(deeds)[n - 1].authorId, TextOf(deeds, n),
         render(TextOf(deeds, n)), RevisionOf(deeds, n), PostGone(deeds, n))
  }

  ghost predicate PostsTold(posts: map<string, Post>, next: nat, render: string -> string, deeds: seq<Section>) {
    && next == |Posted(deeds)| + 1 && Numbered(posts, "post", next)
    && (forall n | 1 <= n <= |Posted(deeds)| :: posts[Id("post", n)] == PostOf(deeds, n, render))
  }

  ghost predicate ListsTold(postsByTopic: map<string, seq<string>>, topicsByCategory: map<string, seq<string>>,
                            deeds: seq<Section>)
  {
    && (forall t :: ListOf(postsByTopic, t) == PostIdsOf(deeds, t))
    && (forall c :: ListOf(topicsByCategory, c) == TopicIdsOf(deeds, c))
  }

  /** The sections hang together: only what was made is deleted, and a topic starts with its opening post. */
  ghost predicate Sound(deeds: seq<Section>) {
    && (forall t :: OpeningPost(deeds, t)
                    == if PostIdsOf(deeds, t) == [] then None else Some(PostIdsOf(deeds, t)[0]))
    && (forall t :: PostIdsOf(deeds, t) != [] <==> Known("topic", |Opened(deeds)|, t))
    && (forall id | DeletePost(id) in deeds || LastEdit(deeds, id).Some? || EditCount(deeds, id) > 0 ::
          Known("post", |Posted(deeds)|, id))
    && (forall t | DeleteTopic(t) in deeds :: Known("topic", |Opened(deeds)|, t))
    && (forall n | 0 <= n < |Posted(deeds)| :: Known("topic", |Opened(deeds)|, Posted(deeds)[n].topicId))
  }

  ghost predicate Told(s: State, deeds: seq<Section>) {
    && CategoriesTold(s.categories, s.nextCategoryId, deeds)
    && TopicsTold(s.topics, s.nextTopicId, deeds)
    && PostsTold(s.posts, s.nextPostId, s.render, deeds)
    && ListsTold(s.postsByTopic, s.topicsByCategory, deeds)
    && Sound(deeds)
  }

  // ----- one more section -----

  lemma NextIsNew(kind: string, count: nat)
    ensures !Known(kind, count, Id(kind, count + 1))
    ensures forall id :: Known(kind, count + 1, id) <==> Known(kind, count, id) || id == Id(kind, count + 1)
    ensures forall n | 1 <= n <= count :: Known(kind, count, Id(kind, n)) && Id(kind, n) != Id(kind, count + 1)
  {
    NumberOfId(kind, count + 1);
    forall n | 1 <= n <= count {
      NumberOfId(kind, n);
    }
    hide Id, Number;
  }

  lemma OneMore(deeds: seq<Section>, d: Section)
    ensures Founded(deeds + [d]) == Founded(deeds) + if d.CreateCategory? then [d] else []
    ensures Opened(deeds + [d]) == Opened(deeds) + if d.CreateTopic? then [d] else []
    ensures var made := PostingOf(deeds, d);
            && Posted(deeds + [d]) == Posted(deeds) + (if made.Some? then [made.value] else [])
            && forall t :: PostIdsOf(deeds + [d], t)
                           == PostIdsOf(deeds, t)
                              + if made.Some? && made.value.topicId == t then [NextPost(deeds)] else []
    ensures forall c :: TopicIdsOf(deeds + [d], c)
                        == TopicIdsOf(deeds, c) + if d.CreateTopic? && d.categoryId == c then [NextTopic(deeds)] else []
    ensures forall t :: OpeningPost(deeds + [d], t)
                        == if d.CreateTopic? && NextTopic(deeds) == t then Some(NextPost(deeds))
                           else OpeningPost(deeds, t)
  {
    hide PostingOf, NextPost, NextTopic;
    assert (deeds + [d])[..|deeds|] == deeds;
  }

  lemma OneMoreEdit(deeds: seq<Section>, d: Section)
    ensures forall id :: LastEdit(deeds + [d], id)
                         == if d.EditPost? && d.postId == id then Some(d.content) else LastEdit(deeds, id)
    ensures forall id :: EditCount(deeds + [d], id)
                         == EditCount(deeds, id) + if d.EditPost? && d.postId == id then 1 else 0
  {
    assert (deeds + [d])[..|deeds|] == deeds;
  }

  lemma SoundStep(deeds: seq<Section>, d: Section)
    requires Sound(deeds) && Refusal(deeds, d).None?
    ensures Sound(deeds + [d])
  {
    hide Known, Acceptable, Posted, Opened, Founded, PostIdsOf, OpeningPost, LastEdit, EditCount, Id, PostGone,
         TopicGone;
    OneMore(deeds, d);
    OneMoreEdit(deeds, d);
    NextIsNew("topic", |Opened(deeds)|);
    NextIsNew("post", |Posted(deeds)|);
  }

  lemma TopicGoneStep(deeds: seq<Section>, d: Section, t: string)
    requires Sound(deeds) && Refusal(deeds, d).None?
    ensures TopicGone(deeds + [d], t) <==>
      TopicGone(deeds, t) || d == DeleteTopic(t) || (d.DeletePost? && OpeningPost(deeds, t) == Some(d.postId))
  {
    hide Known, Acceptable, Posted, Opened, Founded, PostIdsOf, OpeningPost, LastEdit, EditCount, Id, PostGone;
    OneMore(deeds, d);
    NextIsNew("topic", |Opened(deeds)|);
    NextIsNew("post", |Posted(deeds)|);
  }

  lemma PostGoneStep(deeds: seq<Section>, d: Section, n: nat)
    requires Sound(deeds) && Refusal(deeds, d).None? && 1 <= n <= |Posted(deeds + [d])|
    ensures PostGone(deeds + [d], n) <==>
      && n <= |Posted(deeds)|
      && var t := Posted(deeds)[n - 1].topicId;
         PostGone(deeds, n) || d == DeletePost(Id("post", n)) || d == DeleteTopic(t)
         || (d.DeletePost? && OpeningPost(deeds, t) == Some(d.postId))
  {
    hide Known, Acceptable, Posted, Opened, Founded, PostIdsOf, OpeningPost, LastEdit, EditCount, Id, TopicGone;
    OneMore(deeds, d);
    NextIsNew("topic", |Opened(deeds)|);
    NextIsNew("post", |Posted(deeds)|);
    TopicGoneStep(deeds, d, Posted(deeds + [d])[n - 1].topicId);
    if n > |Posted(deeds)| && d.CreateTopic? {
      NewTopicIsThere(deeds);
    }
  }

  lemma NewTopicIsThere(deeds: seq<Section>)
    requires Sound(deeds)
    ensures !TopicGone(deeds, NextTopic(deeds)) && OpeningPost(deeds, NextTopic(deeds)).None?
  {
    hide Known, Posted, Opened, PostIdsOf, OpeningPost, Id;
    NextIsNew("topic", |Opened(deeds)|);
  }

  // ----- what stays -----

  lemma SameCategories(categories: map<string, Category>, next: nat, deeds: seq<Section>, d: Section)
    requires CategoriesTold(categories, next, deeds) && !d.CreateCategory?
    ensures CategoriesTold(categories, next, deeds + [d])
  {
    hide Numbered, Id, Founded, Acceptable, Trim;
    OneMore(deeds, d);
  }

  lemma SameTopics(topics: map<string, Topic>, next: nat, deeds: seq<Section>, d: Section)
    requires TopicsTold(topics, next, deeds) && Sound(deeds) && Refusal(deeds, d).None?
    requires d.CreateCategory? || d.Reply? || d.EditPost?
    ensures TopicsTold(topics, next, deeds + [d])
  {
    hide Numbered, Id, Opened, Acceptable, Trim, TopicGone, Sound, Refusal;
    OneMore(deeds, d);
    NumberedHas(topics, "topic", next);
    forall n | 1 <= n <= |Opened(deeds)|
      ensures Id("topic", n) in topics && TopicTold(topics[Id("topic", n)], deeds + [d], n)
    {
      TopicGoneStep(deeds, d, Id("topic", n));
    }
  }

  /** Only `replyCount` differs. */
  lemma CountedTopics(topics: map<string, Topic>, next: nat, deeds: seq<Section>, id: string, t: Topic)
    requires TopicsTold(topics, next, deeds) && id in topics && t == topics[id].(replyCount := t.replyCount)
    ensures TopicsTold(topics[id := t], next, deeds)
  {
    hide Numbered, Id, Opened, Trim, TopicGone;
    NumberedHas(topics, "topic", next);
    NumberedUpdate(topics, "topic", next, id, t);
  }

  lemma SamePosts(posts: map<string, Post>, next: nat, render: string -> string, deeds: seq<Section>, d: Section)
    requires PostsTold(posts, next, render, deeds) && Sound(deeds) && Refusal(deeds, d).None?
    requires d.CreateCategory?
    ensures PostsTold(posts, next, render, deeds + [d])
  {
    hide Numbered, Id, Posted, Acceptable, Trim, PostGone, Sound, Refusal;
    OneMore(deeds, d);
    OneMoreEdit(deeds, d);
    NumberedHas(posts, "post", next);
    forall n | 1 <= n <= |Posted(deeds)|
      ensures Id("post", n) in posts && posts[Id("post", n)] == PostOf(deeds + [d], n, render)
    {
      PostGoneStep(deeds, d, n);
    }
  }

  lemma SameLists(s: State, deeds: seq<Section>, d: Section)
    requires ListsTold(s.postsByTopic, s.topicsByCategory, deeds) && !d.CreateTopic? && !d.Reply?
    ensures ListsTold(s.postsByTopic, s.topicsByCategory, deeds + [d])
  {
    hide ListOf, PostIdsOf, TopicIdsOf;
    OneMore(deeds, d);
  }

  // ----- creating -----

  lemma FoundedTold(categories: map<string, Category>, next: nat, deeds: seq<Section>, d: Founding, c: Category)
    requires CategoriesTold(categories, next, deeds)
    requires next == |Founded(deeds)| + 1 && c.id == Id("category", next)
    requires Founded(deeds + [d]) == Founded(deeds) + [d] ==> CategoryTold(c, deeds + [d], next)
    ensures CategoriesTold(categories[c.id := c], next + 1, deeds + [d])
  {
    hide Numbered, Id, Founded, Acceptable, Trim;
    OneMore(deeds, d);
    NumberedHas(categories, "category", next);
    NumberedInsert(categories, "category", next, c);
    NextIsNew("category", |Founded(deeds)|);
    forall n | 1 <= n <= next
      ensures Id("category", n) in categories[c.id := c]
              && CategoryTold(categories[c.id := c][Id("category", n)], deeds + [d], n)
    {
      if n < next {
        assert CategoryTold(categories[Id("category", n)], deeds, n);
      }
    }
  }

  lemma CreatingCategoryTold(s: State, deeds: seq<Section>, d: Founding)
    requires Told(s, deeds)
    ensures Follows(s, deeds, d)
  {
    hide Id, Acceptable, Trim, Told, CleanText, NewCategorySlug, Known, Founded;
    CleanIffAcceptable(d.name, 80);
    if d.parentId.Some? {
      CategoryKnown(s, deeds, d.parentId.value);
    }
    if Refusal(deeds, d).None? {
      CreatedCategoryTold(s, deeds, d);
    }
  }

  lemma CategoryKnown(s: State, deeds: seq<Section>, id: string)
    requires Told(s, deeds)
    ensures id in s.categories <==> Known("category", |Founded(deeds)|, id)
  {
    hide TopicsTold, PostsTold, ListsTold, Sound;
    KnownIffPresent(s.categories, "category", s.nextCategoryId, id);
  }

  lemma CreatedCategoryTold(s: State, deeds: seq<Section>, d: Founding)
    requires Told(s, deeds) && Refusal(deeds, d).None? && Perform(s, d).Success?
    ensures Told(Perform(s, d).value, deeds + [d])
  {
    hide Numbered, Id, Acceptable, Trim, CategoriesTold, TopicsTold, PostsTold, ListsTold, Sound, CleanText,
         NewCategorySlug, Founded, Refusal;
    CleanIffAcceptable(d.name, 80);
    if d.description.Some? {
      CleanIffAcceptable(d.description.value, 65_536);
    }
    var s1 := Perform(s, d).value;
    NextCategoryTold(s, deeds);
    OneMore(deeds, d);
    FoundedTold(s.categories, s.nextCategoryId, deeds, d, s1.categories[Id("category", s.nextCategoryId)]);
    SameTopics(s.topics, s.nextTopicId, deeds, d);
    SamePosts(s.posts, s.nextPostId, s.render, deeds, d);
    SameLists(s, deeds, d);
    SoundStep(deeds, d);
  }

  lemma NextCategoryTold(s: State, deeds: seq<Section>)
    requires Told(s, deeds)
    ensures s.nextCategoryId == |Founded(deeds)| + 1
  {
  }

  /** A section does what the earlier ones call for, or is refused with the error they call for. */
  ghost predicate Follows(s: State, deeds: seq<Section>, d: Section) {
    match Refusal(deeds, d)
    case Some(e) => Perform(s, d) == Failure(e)
    case None => Perform(s, d).Success? && Told(Perform(s, d).value, deeds + [d])
  }

  lemma PostMadeTold(posts: map<string, Post>, next: nat, render: string -> string, deeds: seq<Section>, d: Section,
                     p: Post)
    requires PostsTold(posts, next, render, deeds) && Sound(deeds) && Refusal(deeds, d).None?
    requires d.CreateTopic? || d.Reply?
    requires var made := PostingOf(deeds, d).value;
             p == Post(Id("post", next), made.topicId, made.authorId, Trim(made.content), render(Trim(made.content)), 1,
                       false)
    ensures PostsTold(posts[p.id := p], next + 1, render, deeds + [d])
  {
    hide Numbered, Id, Posted, Acceptable, Trim, PostGone, Refusal, PostIdsOf, OpeningPost, Opened, LastEdit, EditCount;
    OneMore(deeds, d);
    OneMoreEdit(deeds, d);
    NumberedHas(posts, "post", next);
    NumberedInsert(posts, "post", next, p);
    NextIsNew("post", |Posted(deeds)|);
    forall n | 1 <= n <= next
      ensures Id("post", n) in posts[p.id := p] && posts[p.id := p][Id("post", n)] == PostOf(deeds + [d], n, render)
    {
      PostGoneStep(deeds, d, n);
      if n < next {
        assert posts[Id("post", n)] == PostOf(deeds, n, render);
      }
    }
  }

  lemma TopicMadeTold(topics: map<string, Topic>, next: nat, deeds: seq<Section>, d: Opening, t: Topic)
    requires TopicsTold(topics, next, deeds) && Sound(deeds) && Refusal(deeds, d).None?
    requires t == Topic(Id("topic", next), d.categoryId, d.authorId, Trim(d.title), t.slug, t.replyCount, false, false)
    ensures TopicsTold(topics[t.id := t], next + 1, deeds + [d])
  {
    hide Numbered, Id, Opened, Acceptable, Trim, TopicGone, Refusal, Sound;
    OneMore(deeds, d);
    NumberedHas(topics, "topic", next);
    NumberedInsert(topics, "topic", next, t);
    NextIsNew("topic", |Opened(deeds)|);
    NewTopicIsThere(deeds);
    forall n | 1 <= n <= next
      ensures Id("topic", n) in topics[t.id := t] && TopicTold(topics[t.id := t][Id("topic", n)], deeds + [d], n)
    {
      TopicGoneStep(deeds, d, Id("topic", n));
      if n < next {
        assert TopicTold(topics[Id("topic", n)], deeds, n);
      }
    }
  }

  lemma ListedMore(lists: map<string, seq<string>>, key: string, id: string)
    ensures forall k :: ListOf(lists[key := ListOf(lists, key) + [id]], k)
                        == ListOf(lists, k) + if k == key then [id] else []
  {
  }

  lemma CreatingTopicTold(s: State, deeds: seq<Section>, d: Opening)
    requires Inv(s) && Told(s, deeds)
    ensures Follows(s, deeds, d)
  {
    hide Inv, Numbered, Id, Acceptable, Trim, TopicsTold, PostsTold, Sound, CleanText, NewTopicSlug, Known, Founded,
         Opened, Posted, ListOf, PostIdsOf, TopicIdsOf;
    CleanIffAcceptable(d.title, 160);
    CleanIffAcceptable(d.content, 65_536);
    KnownIffPresent(s.categories, "category", s.nextCategoryId, d.categoryId);
    NeverLocked(s);
    if Refusal(deeds, d).None? {
      OpenedTold(s, deeds, d);
    }
  }

  lemma NeverLocked(s: State)
    requires Inv(s)
    ensures forall id | id in s.categories :: !s.categories[id].isLocked
    ensures forall id | id in s.topics :: !s.topics[id].isLocked
  {
  }

  lemma NextsTold(s: State, deeds: seq<Section>)
    requires Told(s, deeds)
    ensures s.nextTopicId == |Opened(deeds)| + 1 && s.nextPostId == |Posted(deeds)| + 1
  {
  }

  lemma OpenedLists(s: State, deeds: seq<Section>, d: Opening)
    requires ListsTold(s.postsByTopic, s.topicsByCategory, deeds)
    ensures var t, p := NextTopic(deeds), NextPost(deeds);
            ListsTold(s.postsByTopic[t := ListOf(s.postsByTopic, t) + [p]],
                      s.topicsByCategory[d.categoryId := ListOf(s.topicsByCategory, d.categoryId) + [t]], deeds + [d])
  {
    hide ListOf, PostIdsOf, TopicIdsOf, Id;
    OneMore(deeds, d);
    ListedMore(s.postsByTopic, NextTopic(deeds), NextPost(deeds));
    ListedMore(s.topicsByCategory, d.categoryId, NextTopic(deeds));
  }

  lemma OpenedTold(s: State, deeds: seq<Section>, d: Opening)
    requires Told(s, deeds) && Refusal(deeds, d).None? && Perform(s, d).Success?
    ensures Told(Perform(s, d).value, deeds + [d])
  {
    hide Id, Acceptable, Trim, CategoriesTold, TopicsTold, PostsTold, ListsTold, Sound, NewTopicSlug, Refusal,
         Opened, Posted, ListOf, CleanText;
    CleanIffAcceptable(d.title, 160);
    CleanIffAcceptable(d.content, 65_536);
    NextsTold(s, deeds);
    var s1 := Perform(s, d).value;
    SameCategories(s.categories, s.nextCategoryId, deeds, d);
    TopicMadeTold(s.topics, s.nextTopicId, deeds, d, s1.topics[Id("topic", s.nextTopicId)]);
    PostMadeTold(s.posts, s.nextPostId, s.render, deeds, d, s1.posts[Id("post", s.nextPostId)]);
    OpenedLists(s, deeds, d);
    SoundStep(deeds, d);
  }

  lemma TopicStatusTold(s: State, deeds: seq<Section>, id: string)
    requires Told(s, deeds)
    ensures LiveTopic(s, id) <==> TopicThere(deeds, id)
    ensures id in s.topics <==> Known("topic", |Opened(deeds)|, id)
  {
    hide CategoriesTold, PostsTold, ListsTold, Sound, TopicGone, Trim;
    KnownIffPresent(s.topics, "topic", s.nextTopicId, id);
    if id in s.topics {
      assert TopicTold(s.topics[id], deeds, Number("topic", id));
    }
  }

  lemma PostStatusTold(s: State, deeds: seq<Section>, id: string)
    requires Told(s, deeds)
    ensures LivePost(s, id) <==> PostThere(deeds, id)
    ensures id in s.posts <==> Known("post", |Posted(deeds)|, id)
    ensures id in s.posts ==> s.posts[id] == PostOf(deeds, Number("post", id), s.render)
  {
    hide CategoriesTold, TopicsTold, ListsTold, Sound, PostGone, TextOf, RevisionOf;
    KnownIffPresent(s.posts, "post", s.nextPostId, id);
  }

  lemma ReplyingTold(s: State, deeds: seq<Section>, d: Section)
    requires Inv(s) && Told(s, deeds) && d.Reply?
    ensures Follows(s, deeds, d)
  {
    hide Inv, Told, Acceptable, Trim, CleanText, TopicThere, LiveTopic, Id;
    CleanIffAcceptable(d.content, 65_536);
    TopicStatusTold(s, deeds, d.topicId);
    NeverLocked(s);
    assert LiveTopic(s, d.topicId) ==> d.topicId in s.topics by { LiveIsIn(s, d.topicId); }
    if Refusal(deeds, d).None? {
      RepliedTold(s, deeds, d);
    }
  }

  lemma LiveIsIn(s: State, id: string)
    ensures LiveTopic(s, id) ==> id in s.topics
  {
  }

  lemma RepliedTold(s: State, deeds: seq<Section>, d: Section)
    requires Told(s, deeds) && Refusal(deeds, d).None? && d.Reply? && Perform(s, d).Success?
    ensures Told(Perform(s, d).value, deeds + [d])
  {
    hide Numbered, Id, Acceptable, Trim, CategoriesTold, TopicsTold, PostsTold, Sound, Known, Refusal,
         Opened, Posted, ListOf, PostIdsOf, TopicIdsOf, CleanText;
    CleanIffAcceptable(d.content, 65_536);
    NextsTold(s, deeds);
    var s1 := Perform(s, d).value;
    OneMore(deeds, d);
    SameCategories(s.categories, s.nextCategoryId, deeds, d);
    SameTopics(s.topics, s.nextTopicId, deeds, d);
    CountedTopics(s.topics, s.nextTopicId, deeds + [d], d.topicId, s1.topics[d.topicId]);
    PostMadeTold(s.posts, s.nextPostId, s.render, deeds, d, s1.posts[Id("post", s.nextPostId)]);
    ListedMore(s.postsByTopic, d.topicId, Id("post", s.nextPostId));
    SoundStep(deeds, d);
  }

  // ----- editing and deleting -----

  lemma EditedTold(posts: map<string, Post>, next: nat, render: string -> string, deeds: seq<Section>, d: Section,
                   p: Post)
    requires PostsTold(posts, next, render, deeds) && Sound(deeds) && Refusal(deeds, d).None?
    requires d.EditPost? && d.postId in posts
    requires p == posts[d.postId].(contentRaw := Trim(d.content), contentHtml := render(Trim(d.content)),
                                   revision := SaturatingIncrement(posts[d.postId].revision))
    ensures PostsTold(posts[d.postId := p], next, render, deeds + [d])
  {
    hide Numbered, Id, Posted, Acceptable, Trim, PostGone, Refusal, Sound, LastEdit, EditCount, Known;
    OneMore(deeds, d);
    OneMoreEdit(deeds, d);
    NumberedHas(posts, "post", next);
    NumberedUpdate(posts, "post", next, d.postId, p);
    forall n | 1 <= n <= |Posted(deeds)|
      ensures posts[d.postId := p][Id("post", n)] == PostOf(deeds + [d], n, render)
    {
      PostGoneStep(deeds, d, n);
      assert posts[Id("post", n)] == PostOf(deeds, n, render);
    }
  }

  lemma EditingTold(s: State, deeds: seq<Section>, d: Section)
    requires Told(s, deeds) && d.EditPost?
    ensures Follows(s, deeds, d)
  {
    hide Numbered, Id, Acceptable, Trim, CategoriesTold, TopicsTold, PostsTold, ListsTold, Sound, CleanText, PostThere,
         LivePost;
    CleanIffAcceptable(d.content, 65_536);
    PostStatusTold(s, deeds, d.postId);
    assert LivePost(s, d.postId) ==> d.postId in s.posts by { LivePostIsIn(s, d.postId); }
    if Refusal(deeds, d).None? {
      var s1 := Perform(s, d).value;
      SameCategories(s.categories, s.nextCategoryId, deeds, d);
      SameTopics(s.topics, s.nextTopicId, deeds, d);
      EditedTold(s.posts, s.nextPostId, s.render, deeds, d, s1.posts[d.postId]);
      SameLists(s, deeds, d);
      SoundStep(deeds, d);
    }
  }

  lemma LivePostIsIn(s: State, id: string)
    ensures LivePost(s, id) ==> id in s.posts
  {
  }

  /** The deletion takes the topic along. */
  predicate Drops(deeds: seq<Section>, d: Section, t: string) {
    d == DeleteTopic(t) || (d.DeletePost? && OpeningPost(deeds, t) == Some(d.postId))
  }

  ghost predicate TopicMarked(m: map<string, Topic>, m1: map<string, Topic>, id: Option<string>) {
    && m1.Keys == m.Keys
    && (forall t | t in m ::
          m1[t] == m[t].(replyCount := m1[t].replyCount, deleted := m[t].deleted || Some(t) == id))
  }

  ghost predicate PostsMarked(m: map<string, Post>, m1: map<string, Post>, post: Option<string>, topic: Option<string>)
  {
    && m1.Keys == m.Keys
    && (forall p | p in m ::
          m1[p] == m[p].(deleted := m[p].deleted || Some(p) == post || Some(m[p].topicId) == topic))
  }

  lemma DroppedTopics(topics: map<string, Topic>, topics1: map<string, Topic>, next: nat, deeds: seq<Section>,
                      d: Section, gone: Option<string>)
    requires TopicsTold(topics, next, deeds) && Sound(deeds) && Refusal(deeds, d).None?
    requires d.DeletePost? || d.DeleteTopic?
    requires TopicMarked(topics, topics1, gone) && forall t :: Drops(deeds, d, t) <==> Some(t) == gone
    ensures TopicsTold(topics1, next, deeds + [d])
  {
    hide Numbered, Id, Opened, Acceptable, Trim, TopicGone, Sound, Refusal, OpeningPost;
    OneMore(deeds, d);
    NumberedHas(topics, "topic", next);
    NumberedSameKeys(topics, topics1, "topic", next);
    forall n | 1 <= n <= |Opened(deeds)|
      ensures Id("topic", n) in topics1 && TopicTold(topics1[Id("topic", n)], deeds + [d], n)
    {
      var id := Id("topic", n);
      assert TopicTold(topics[id], deeds, n);
      TopicGoneStep(deeds, d, id);
      assert Drops(deeds, d, id) <==> Some(id) == gone;
    }
  }

  lemma DroppedPost(deeds: seq<Section>, d: Section, n: nat, render: string -> string, gone: Option<string>)
    requires Sound(deeds) && Refusal(deeds, d).None? && 1 <= n <= |Posted(deeds)|
    requires d.DeletePost? || d.DeleteTopic?
    requires forall t :: Drops(deeds, d, t) <==> Some(t) == gone
    ensures n <= |Posted(deeds + [d])|
    ensures var p := PostOf(deeds, n, render);
            PostOf(deeds + [d], n, render)
            == p.(deleted := p.deleted || d == DeletePost(Id("post", n)) || Some(p.topicId) == gone)
  {
    hide Id, Posted, Trim, PostGone, Sound, Refusal, LastEdit, EditCount, OpeningPost;
    PostedAfterDeletion(deeds, d);
    OneMoreEdit(deeds, d);
    DroppedGone(deeds, d, n, gone);
  }

  lemma PostedAfterDeletion(deeds: seq<Section>, d: Section)
    requires d.DeletePost? || d.DeleteTopic?
    ensures Posted(deeds + [d]) == Posted(deeds)
  {
    hide Posted;
    OneMore(deeds, d);
  }

  lemma DroppedGone(deeds: seq<Section>, d: Section, n: nat, gone: Option<string>)
    requires Sound(deeds) && Refusal(deeds, d).None? && 1 <= n <= |Posted(deeds)|
    requires d.DeletePost? || d.DeleteTopic?
    requires forall t :: Drops(deeds, d, t) <==> Some(t) == gone
    ensures n <= |Posted(deeds + [d])|
    ensures PostGone(deeds + [d], n) <==>
      PostGone(deeds, n) || d == DeletePost(Id("post", n)) || Some(Posted(deeds)[n - 1].topicId) == gone
  {
    hide Id, Posted, PostGone, Sound, Refusal, OpeningPost;
    PostedAfterDeletion(deeds, d);
    PostGoneStep(deeds, d, n);
    assert Drops(deeds, d, Posted(deeds)[n - 1].topicId) <==> Some(Posted(deeds)[n - 1].topicId) == gone;
  }

  lemma DroppedPosts(posts: map<string, Post>, posts1: map<string, Post>, next: nat, render: string -> string,
                     deeds: seq<Section>, d: Section, gone: Option<string>)
    requires PostsTold(posts, next, render, deeds) && Sound(deeds) && Refusal(deeds, d).None?
    requires d.DeletePost? || d.DeleteTopic?
    requires PostsMarked(posts, posts1, if d.DeletePost? then Some(d.postId) else None, gone)
    requires forall t :: Drops(deeds, d, t) <==> Some(t) == gone
    ensures PostsTold(posts1, next, render, deeds + [d])
  {
    hide Numbered, Id, Posted, Sound, Refusal, Drops, PostOf;
    OneMore(deeds, d);
    NumberedHas(posts, "post", next);
    NumberedSameKeys(posts, posts1, "post", next);
    forall n | 1 <= n <= |Posted(deeds)|
      ensures Id("post", n) in posts1 && posts1[Id("post", n)] == PostOf(deeds + [d], n, render)
    {
      DroppedPost(deeds, d, n, render, gone);
      assert posts[Id("post", n)] == PostOf(deeds, n, render);
    }
  }

  lemma TopicDeletionMarks(s: State, id: string)
    requires Inv(s) && LiveTopic(s, id)
    ensures var s1 := DoDeleteTopic(s, id).value;
            && s1 == s.(topics := s1.topics, posts := s1.posts)
            && TopicMarked(s.topics, s1.topics, Some(id)) && PostsMarked(s.posts, s1.posts, None, Some(id))
  {
    hide CategoriesInv, CategorySlugsInv, TopicsInv, TopicSlugsInv, PostsInv, AccountingInv, Partitions;
    var s1 := DoDeleteTopic(s, id).value;
    assert TopicMarked(s.topics, s1.topics, Some(id));
    hide TopicMarked;
    forall p | p in s.posts ensures p in ListOf(s.postsByTopic, id) <==> s.posts[p].topicId == id {
      ListedUnderOwnTopic(s, id, p);
    }
    hide ListOf;
  }

  /** What a deletion marks is what it drops. */
  lemma DeletionTold(s: State, s1: State, deeds: seq<Section>, d: Section, gone: Option<string>)
    requires Told(s, deeds) && Refusal(deeds, d).None? && (d.DeletePost? || d.DeleteTopic?)
    requires s1 == s.(topics := s1.topics, posts := s1.posts)
    requires TopicMarked(s.topics, s1.topics, gone)
    requires PostsMarked(s.posts, s1.posts, if d.DeletePost? then Some(d.postId) else None, gone)
    requires forall t :: Drops(deeds, d, t) <==> Some(t) == gone
    ensures Told(s1, deeds + [d])
  {
    hide CategoriesTold, TopicsTold, PostsTold, ListsTold, Sound, Refusal, Drops, TopicMarked, PostsMarked;
    SameCategories(s.categories, s.nextCategoryId, deeds, d);
    DroppedTopics(s.topics, s1.topics, s.nextTopicId, deeds, d, gone);
    DroppedPosts(s.posts, s1.posts, s.nextPostId, s.render, deeds, d, gone);
    SameLists(s, deeds, d);
    SoundStep(deeds, d);
  }

  lemma DeletingTopicTold(s: State, deeds: seq<Section>, d: Section)
    requires Inv(s) && Told(s, deeds) && d.DeleteTopic?
    ensures Follows(s, deeds, d)
  {
    hide Inv, Told, TopicThere, DoDeleteTopic, LiveTopic, TopicMarked, PostsMarked;
    TopicStatusTold(s, deeds, d.topicId);
    DeletesIffLive(s, d.topicId);
    if Refusal(deeds, d).None? {
      TopicDeletionMarks(s, d.topicId);
      DeletionTold(s, Perform(s, d).value, deeds, d, Some(d.topicId));
    }
  }

  lemma DeletesIffLive(s: State, id: string)
    ensures if LiveTopic(s, id) then DoDeleteTopic(s, id).Success? else DoDeleteTopic(s, id) == Failure(TopicNotFound)
  {
  }

  lemma AliveWithItsPosts(topic: Topic, posts: map<string, Post>, list: seq<string>, id: string)
    requires Accounts(topic, posts, list) && id in posts && posts[id].topicId == topic.id && !posts[id].deleted
    ensures !topic.deleted
  {
    assert id in LivePostsOf(posts, topic.id);
  }

  lemma LivePostHasLiveTopic(s: State, id: string)
    requires Inv(s) && LivePost(s, id)
    ensures var t := s.posts[id].topicId; LiveTopic(s, t) && ListOf(s.postsByTopic, t) != []
  {
    hide CategoriesInv, CategorySlugsInv, TopicsInv, TopicSlugsInv, Partitions, LivePostsOf, PostsOf, Numbered;
    var topic := s.posts[id].topicId;
    AliveWithItsPosts(s.topics[topic], s.posts, s.postsByTopic[topic], id);
  }

  /** Which topic a deleted post takes along: its own, if it is the opening post. */
  lemma FirstPostTold(s: State, deeds: seq<Section>, id: string, t: string)
    requires Inv(s) && Told(s, deeds) && LivePost(s, id)
    ensures OpeningPost(deeds, t) == Some(id) <==> IsFirstPost(s, id) && t == s.posts[id].topicId
  {
    hide CategoriesInv, CategorySlugsInv, TopicsInv, TopicSlugsInv, PostsInv, AccountingInv, CategoriesTold, TopicsTold,
         PostsTold, PostIdsOf, OpeningPost, Partitions, Known;
    LivePostHasLiveTopic(s, id);
    ListedUnderOwnTopic(s, t, id);
    ListedUnderOwnTopic(s, s.posts[id].topicId, id);
    assert ListOf(s.postsByTopic, t) == PostIdsOf(deeds, t);
    assert OpeningPost(deeds, t) == Some(id) ==> id in ListOf(s.postsByTopic, t);
  }

  lemma OnePostMarked(posts: map<string, Post>, id: string)
    requires id in posts
    ensures PostsMarked(posts, posts[id := posts[id].(deleted := true)], Some(id), None)
  {
  }

  lemma OneTopicCounted(topics: map<string, Topic>, id: string, n: u32)
    requires id in topics
    ensures TopicMarked(topics, topics[id := topics[id].(replyCount := n)], None)
  {
  }

  lemma ReplyDeletionMarks(s: State, id: string)
    requires id in s.posts
    ensures var s1 := DeleteReply(s, id);
            && s1 == s.(topics := s1.topics, posts := s1.posts)
            && TopicMarked(s.topics, s1.topics, None) && PostsMarked(s.posts, s1.posts, Some(id), None)
  {
    hide PostsMarked;
    OnePostMarked(s.posts, id);
    var t := s.posts[id].topicId;
    if t in s.topics {
      hide TopicMarked;
      OneTopicCounted(s.topics, t, SaturatingDecrement(s.topics[t].replyCount));
    }
  }

  lemma DeletingPostTold(s: State, deeds: seq<Section>, d: Section)
    requires Inv(s) && Told(s, deeds) && d.DeletePost?
    ensures Follows(s, deeds, d)
  {
    hide Inv, Told, PostThere, DoDeleteTopic, DeleteReply, IsFirstPost;
    PostStatusTold(s, deeds, d.postId);
    if Refusal(deeds, d).None? {
      var topic := s.posts[d.postId].topicId;
      LivePostHasLiveTopic(s, d.postId);
      DeletesIffLive(s, topic);
      DeletedPostTold(s, deeds, d);
    }
  }

  lemma DeletedPostTold(s: State, deeds: seq<Section>, d: Section)
    requires Inv(s) && Told(s, deeds) && d.DeletePost? && Refusal(deeds, d).None?
    requires LivePost(s, d.postId) && LiveTopic(s, s.posts[d.postId].topicId) && Perform(s, d).Success?
    ensures Told(Perform(s, d).value, deeds + [d])
  {
    hide Inv, Told, Refusal, DoDeleteTopic, DeleteReply, IsFirstPost, TopicMarked;
    var s1 := Perform(s, d).value;
    forall t ensures Drops(deeds, d, t) <==> IsFirstPost(s, d.postId) && t == s.posts[d.postId].topicId {
      FirstPostTold(s, deeds, d.postId, t);
    }
    if IsFirstPost(s, d.postId) {
      var topic := s.posts[d.postId].topicId;
      TopicDeletionMarks(s, topic);
      assert PostsMarked(s.posts, s1.posts, Some(d.postId), Some(topic));
      hide Drops, PostsMarked;
      DeletionTold(s, s1, deeds, d, Some(topic));
    } else {
      ReplyDeletionMarks(s, d.postId);
      hide Drops, PostsMarked;
      DeletionTold(s, s1, deeds, d, None);
    }
  }

  // ----- every run -----

  lemma StepTold(s: State, deeds: seq<Section>, d: Section)
    requires Inv(s) && Told(s, deeds)
    ensures Follows(s, deeds, d)
  {
    hide Inv, Told, Follows;
    match d
    case CreateCategory(_, _, _, _) => CreatingCategoryTold(s, deeds, d);
    case CreateTopic(_, _, _, _) => CreatingTopicTold(s, deeds, d);
    case Reply(_, _, _) => ReplyingTold(s, deeds, d);
    case EditPost(_, _) => EditingTold(s, deeds, d);
    case DeletePost(_) => DeletingPostTold(s, deeds, d);
    case DeleteTopic(_) => DeletingTopicTold(s, deeds, d);
  }

  /** After every run of sections, however callers interleave, the tables say exactly what those that took effect
      say. */
  lemma {:induction false} TablesFollowSections(render: string -> string, sections: seq<Section>)
    ensures Told(Run(Initial(render), sections), Book(sections))
  {
    if sections == [] {
      NothingTold(render);
    } else {
      hide Told, Perform, Refusal, Inv;
      var before := sections[..|sections| - 1];
      TablesFollowSections(render, before);
      InitialInv(render);
      RunKeepsInv(Initial(render), before);
      StepTold(Run(Initial(render), before), Book(before), sections[|sections| - 1]);
    }
  }

  lemma NothingTold(render: string -> string)
    ensures Told(Initial(render), [])
  {
  }

  /** Every section, after every run, is answered as the earlier ones call for: done, or refused with that error. */
  lemma AnswersFollowSections(render: string -> string, sections: seq<Section>, d: Section)
    ensures Follows(Run(Initial(render), sections), Book(sections), d)
  {
    hide Told, Follows, Run, Book, Inv;
    TablesFollowSections(render, sections);
    InitialInv(render);
    RunKeepsInv(Initial(render), sections);
    StepTold(Run(Initial(render), sections), Book(sections), d);
  }
}
