/** What every reachable state of the forum satisfies. */
module ForumTheorems {
  import opened Wrappers
  import opened Text
  import opened Order
  import opened Slugs
  import opened Indexes
  import opened Forum
  import opened ForumInvariant

  /** Topics and posts are each listed once, under their own category and topic; no list is empty. */
  lemma ListsPartition(s: State)
    requires IsReachable(s)
    ensures Partitions(s.topicsByCategory, TopicOwners(s.topics)) && Partitions(s.postsByTopic, PostOwners(s.posts))
    ensures s.postsByTopic.Keys == s.topics.Keys
  {
    hide CategoriesInv, CategorySlugsInv, TopicsInv, TopicSlugsInv, PostsInv, Accounts, Partitions, IsReachable;
    ReachableInv(s);
  }

  /** Deletion and counting: a topic dies with its first post, and otherwise counts its live replies. */
  lemma LivePostAccounting(s: State, t: string)
    requires IsReachable(s) && t in s.topics
    ensures t in s.postsByTopic && s.postsByTopic[t] != [] && s.postsByTopic[t][0] in s.posts
    ensures s.topics[t].deleted <==> s.posts[s.postsByTopic[t][0]].deleted
    ensures s.topics[t].deleted ==> LivePostsOf(s.posts, t) == {} && s.topics[t].replyCount == 0
    ensures !s.topics[t].deleted ==> s.topics[t].replyCount <= |LivePostsOf(s.posts, t)| - 1
    ensures !s.topics[t].deleted && |PostsOf(s.posts, t)| <= U32_MODULUS ==>
      s.topics[t].replyCount == |LivePostsOf(s.posts, t)| - 1
  {
    hide CategoriesInv, CategorySlugsInv, TopicsInv, TopicSlugsInv, PostsInv, Partitions, IsReachable,
         LivePostsOf, PostsOf;
    ReachableInv(s);
    assert Accounts(s.topics[t], s.posts, s.postsByTopic[t]);
  }

  /** A reply keeps the count exact if and only if the counter is not already full. */
  lemma ReplyExactIffNotFull(s: State, t: string, author: string, content: string)
    requires IsReachable(s) && DoReply(s, t, author, content).Success?
    requires s.topics[t].replyCount == |LivePostsOf(s.posts, t)| - 1
    ensures var s1 := DoReply(s, t, author, content).value;
            s1.topics[t].replyCount == |LivePostsOf(s1.posts, t)| - 1 <==> s.topics[t].replyCount < U32_MAX
  {
    hide CategoriesInv, CategorySlugsInv, TopicsInv, TopicSlugsInv, Partitions, Accounts, IsReachable,
         CleanContent, Id;
    ReachableInv(s);
    var s1 := DoReply(s, t, author, content).value;
    var p := Id("post", s.nextPostId);
    PostIdIsFresh(s);
    assert LivePostsOf(s1.posts, t) == LivePostsOf(s.posts, t) + {p};
  }

  ghost predicate CountExact(s: State, t: string) {
    LiveTopic(s, t) ==> s.topics[t].replyCount == |LivePostsOf(s.posts, t)| - 1
  }

  /** A reply that the full counter cannot count. */
  predicate Overfills(s: State, section: Section, t: string) {
    section.Reply? && section.topicId == t && DoReply(s, t, section.authorId, section.content).Success?
    && s.topics[t].replyCount == U32_MAX
  }

  /** Nothing happens to what a topic counts. */
  lemma SameCount(s: State, s1: State, t: string)
    requires CountExact(s, t) && LivePostsOf(s1.posts, t) == LivePostsOf(s.posts, t)
    requires LiveTopic(s1, t) ==> LiveTopic(s, t) && s1.topics[t].replyCount == s.topics[t].replyCount
    ensures CountExact(s1, t)
  {
  }

  lemma ReplyCounted(s: State, section: Section, t: string)
    requires IsReachable(s) && CountExact(s, t) && section.Reply? && Perform(s, section).Success?
    ensures CountExact(Step(s, section), t) <==> !Overfills(s, section, t)
  {
    hide IsReachable, Inv, CleanContent, Id, LivePostsOf;
    if section.topicId == t {
      ReplyExactIffNotFull(s, t, section.authorId, section.content);
    } else {
      OtherReply(s, section.topicId, section.authorId, section.content, t);
      SameCount(s, Step(s, section), t);
    }
  }

  lemma OneAdded(posts: map<string, Post>, p: Post, t: string)
    requires p.id !in posts && !p.deleted
    ensures LivePostsOf(posts[p.id := p], t) == LivePostsOf(posts, t) + if p.topicId == t then {p.id} else {}
  {
  }

  lemma OtherReply(s: State, id: string, author: string, content: string, t: string)
    requires IsReachable(s) && DoReply(s, id, author, content).Success? && id != t
    ensures LivePostsOf(DoReply(s, id, author, content).value.posts, t) == LivePostsOf(s.posts, t)
  {
    hide CategoriesInv, CategorySlugsInv, TopicsInv, TopicSlugsInv, Partitions, AccountingInv, IsReachable,
         CleanContent, Id;
    ReachableInv(s);
    PostIdIsFresh(s);
  }

  lemma NewIdsUnused(s: State)
    requires Inv(s)
    ensures Id("topic", s.nextTopicId) !in s.topics && Id("post", s.nextPostId) !in s.posts
    ensures LivePostsOf(s.posts, Id("topic", s.nextTopicId)) == {}
  {
    hide CategoriesInv, CategorySlugsInv, TopicSlugsInv, Partitions, AccountingInv, Id;
    PostIdIsFresh(s);
    NumberOfId("topic", s.nextTopicId);
  }

  lemma NewTopicCounted(s: State, section: Section, t: string)
    requires IsReachable(s) && CountExact(s, t) && section.CreateTopic? && Perform(s, section).Success?
    ensures CountExact(Step(s, section), t)
  {
    hide Inv, IsReachable, CleanText, CleanContent, Id, NewTopicSlug, LivePostsOf;
    ReachableInv(s);
    NewIdsUnused(s);
    OneAdded(s.posts, Step(s, section).posts[Id("post", s.nextPostId)], t);
  }

  lemma DeletionCounted(s: State, section: Section, t: string)
    requires IsReachable(s) && CountExact(s, t) && Perform(s, section).Success?
    requires section.DeletePost? || section.DeleteTopic?
    ensures CountExact(Step(s, section), t)
  {
    hide Inv, IsReachable, DoDeleteTopic, DeleteReply, IsFirstPost, CountExact;
    ReachableInv(s);
    if section.DeleteTopic? {
      TopicDeletionCounted(s, section.topicId, t);
    } else if IsFirstPost(s, section.postId) {
      TopicDeletionCounted(s, s.posts[section.postId].topicId, t);
    } else {
      ReplyDeletionCounted(s, section.postId, t);
    }
  }

  lemma TopicDeletionCounted(s: State, id: string, t: string)
    requires Inv(s) && CountExact(s, t) && DoDeleteTopic(s, id).Success?
    ensures CountExact(DoDeleteTopic(s, id).value, t)
  {
    hide CategoriesInv, CategorySlugsInv, TopicsInv, TopicSlugsInv, PostsInv, Partitions;
    if t != id {
      var s1 := DoDeleteTopic(s, id).value;
      forall p | p in s.posts && s.posts[p].topicId == t ensures s1.posts[p] == s.posts[p] {
        ListedUnderOwnTopic(s, id, p);
      }
      assert LivePostsOf(s1.posts, t) == LivePostsOf(s.posts, t);
    }
  }

  lemma OneMarked(posts: map<string, Post>, id: string, t: string)
    requires id in posts
    ensures LivePostsOf(posts[id := posts[id].(deleted := true)], t)
            == LivePostsOf(posts, t) - if posts[id].topicId == t then {id} else {}
  {
    if posts[id].topicId == t {
    } else {
      assert id !in LivePostsOf(posts, t);
    }
  }

  lemma ReplyDeleted(s: State, id: string, t: string)
    requires LivePost(s, id)
    ensures LivePostsOf(DeleteReply(s, id).posts, t)
            == LivePostsOf(s.posts, t) - if s.posts[id].topicId == t then {id} else {}
  {
    hide LivePostsOf;
    OneMarked(s.posts, id, t);
  }

  lemma TwoLivePosts(s: State, id: string)
    requires Inv(s) && LivePost(s, id) && !IsFirstPost(s, id)
    ensures s.posts[id].topicId in s.topics && |LivePostsOf(s.posts, s.posts[id].topicId)| >= 2
  {
    hide CategoriesInv, CategorySlugsInv, TopicsInv, TopicSlugsInv, PostsInv, Partitions;
    var t := s.posts[id].topicId;
    ReplyCountNeverClips(s, id);
    FirstIsOther(s, id);
    SubsetSize({id, s.postsByTopic[t][0]}, LivePostsOf(s.posts, t));
  }

  lemma ReplyDeletionCounted(s: State, id: string, t: string)
    requires Inv(s) && CountExact(s, t) && LivePost(s, id) && !IsFirstPost(s, id)
    ensures CountExact(DeleteReply(s, id), t)
  {
    hide Inv, IsFirstPost, LivePostsOf;
    ReplyDeleted(s, id, t);
    TwoLivePosts(s, id);
    assert id in LivePostsOf(s.posts, s.posts[id].topicId) by { LiveIsListed(s, id); }
  }

  lemma LiveIsListed(s: State, id: string)
    requires LivePost(s, id)
    ensures id in LivePostsOf(s.posts, s.posts[id].topicId)
  {
  }

  lemma StepExactIff(s: State, section: Section, t: string)
    requires IsReachable(s) && CountExact(s, t)
    ensures CountExact(Step(s, section), t) <==> !Overfills(s, section, t)
  {
    hide IsReachable, CountExact, DoCreateCategory, DoCreateTopic, DoReply, DoEditPost, DoDeletePost, DoDeleteTopic;
    if Perform(s, section).Success? {
      match section
      case Reply(_, _, _) => ReplyCounted(s, section, t);
      case CreateTopic(_, _, _, _) => NewTopicCounted(s, section, t);
      case DeletePost(_) => DeletionCounted(s, section, t);
      case DeleteTopic(_) => DeletionCounted(s, section, t);
      case CreateCategory(_, _, _, _) => OthersCounted(s, section, t);
      case EditPost(_, _) => OthersCounted(s, section, t);
    }
  }

  lemma OthersCounted(s: State, section: Section, t: string)
    requires CountExact(s, t) && (section.CreateCategory? || section.EditPost?) && Perform(s, section).Success?
    ensures CountExact(Step(s, section), t)
  {
    hide CleanText, CleanContent, NewCategorySlug, Id;
    assert LivePostsOf(Step(s, section).posts, t) == LivePostsOf(s.posts, t);
  }

  /** The count of a topic is exact at every point of a run. */
  ghost predicate AlwaysExact(render: string -> string, sections: seq<Section>, t: string) {
    CountExact(Run(Initial(render), sections), t)
    && (sections != [] ==> AlwaysExact(render, sections[..|sections| - 1], t))
  }

  ghost predicate NeverOverfilled(render: string -> string, sections: seq<Section>, t: string) {
    sections != [] ==>
      var before := sections[..|sections| - 1];
      !Overfills(Run(Initial(render), before), sections[|sections| - 1], t) && NeverOverfilled(render, before, t)
  }

  /** All along a run, through any number of posts, a topic's count is exact iff no reply met a full counter. */
  lemma {:induction false} AlwaysExactIffNeverOverfilled(render: string -> string, sections: seq<Section>, t: string)
    ensures AlwaysExact(render, sections, t) <==> NeverOverfilled(render, sections, t)
  {
    hide CountExact, Overfills, Step;
    if sections == [] {
      assert CountExact(Initial(render), t) by { NothingToCount(render, t); }
    } else {
      var before := sections[..|sections| - 1];
      AlwaysExactIffNeverOverfilled(render, before, t);
      if AlwaysExact(render, before, t) {
        StepExactIff(Run(Initial(render), before), sections[|sections| - 1], t);
      }
    }
  }

  lemma NothingToCount(render: string -> string, t: string)
    ensures CountExact(Initial(render), t)
  {
  }

  lemma AIsClean()
    ensures forall n | n >= 1 :: CleanText("a", n) == Some("a")
  {
    assert "a"[1..] == "";
    assert TrimStart("a") == "a" && TrimEnd("a") == "a";
    assert Utf8('a') == [97] && Bytes("a") == Utf8('a') + Bytes("");
  }

  /** A first topic with its first post, and nothing else. */
  lemma FirstTopic(render: string -> string) returns (sections: seq<Section>)
    ensures var s, t := Run(Initial(render), sections), Id("topic", 1);
            LiveTopic(s, t) && s.topics[t].replyCount == 0 && |LivePostsOf(s.posts, t)| == 1
  {
    hide CleanText, Id, NewCategorySlug, NewTopicSlug;
    AIsClean();
    var category := CreateCategory("a", None, None, false);
    var topic := CreateTopic(Id("category", 1), "u", "a", "a");
    sections := [category, topic];
    assert sections[..1] == [category] && [category][..0] == [];
    var s0 := Initial(render);
    assert Run(s0, []) == s0 && Run(s0, [category]) == Step(s0, category);
    assert Run(s0, sections) == Step(Step(s0, category), topic);
    assert LivePostsOf(Run(s0, sections).posts, Id("topic", 1)) == {Id("post", 1)};
  }

  /** Replies bring the counter to any value it can hold, each time exactly. */
  lemma {:induction false} CounterReaches(render: string -> string, n: u32) returns (sections: seq<Section>)
    ensures var s, t := Run(Initial(render), sections), Id("topic", 1);
            LiveTopic(s, t) && s.topics[t].replyCount == n == |LivePostsOf(s.posts, t)| - 1
  {
    hide LivePostsOf, Id, CleanText;
    if n == 0 {
      sections := FirstTopic(render);
    } else {
      var before := CounterReaches(render, n - 1);
      var s, t, reply := Run(Initial(render), before), Id("topic", 1), Reply(Id("topic", 1), "u", "a");
      sections := before + [reply];
      assert sections[..|before|] == before;
      ReplySucceeds(s, t);
      ReplyExactIffNotFull(s, t, "u", "a");
    }
  }

  lemma ReplySucceeds(s: State, t: string)
    requires IsReachable(s) && LiveTopic(s, t)
    ensures DoReply(s, t, "u", "a").Success?
    ensures var topics1 := DoReply(s, t, "u", "a").value.topics;
            t in topics1 && topics1[t] == s.topics[t].(replyCount := SaturatingIncrement(s.topics[t].replyCount))
  {
    hide CategoriesInv, CategorySlugsInv, TopicSlugsInv, PostsInv, Partitions, AccountingInv, IsReachable, CleanText,
         Numbered, Id;
    AIsClean();
    ReachableInv(s);
  }

  /** The counter does fill up, and from there a reply goes uncounted. */
  lemma FullCounterIsReached(render: string -> string) returns (sections: seq<Section>)
    ensures var s, t := Run(Initial(render), sections), Id("topic", 1);
            var r := DoReply(s, t, "u", "a");
            && IsReachable(s) && t in s.topics && s.topics[t].replyCount == U32_MAX == |LivePostsOf(s.posts, t)| - 1
            && r.Success? && t in r.value.topics
            && r.value.topics[t].replyCount != |LivePostsOf(r.value.posts, t)| - 1
  {
    hide Run, LivePostsOf, DoReply, Id;
    sections := CounterReaches(render, U32_MAX);
    var s := Run(Initial(render), sections);
    ReplySucceeds(s, Id("topic", 1));
    ReplyExactIffNotFull(s, Id("topic", 1), "u", "a");
  }

  lemma PostIdIsFresh(s: State)
    requires PostsInv(s.posts, s.nextPostId, s.topics, s.render)
    ensures Id("post", s.nextPostId) !in s.posts
  {
    NumberOfId("post", s.nextPostId);
    hide Id, Number;
  }

  /** Category slugs and categories correspond one to one. */
  lemma CategorySlugIndexIsBijection(s: State)
    requires IsReachable(s)
    ensures Inverts(s.categorySlugIndex, CategorySlugs(s.categories))
    ensures forall a, b | a in s.categories && b in s.categories ::
      s.categories[a].slug == s.categories[b].slug ==> a == b
  {
    hide CategoriesInv, TopicsInv, TopicSlugsInv, PostsInv, Partitions, AccountingInv, IsReachable, IsSlug;
    ReachableInv(s);
    assert forall a | a in s.categories :: CategorySlugs(s.categories)[a] == s.categories[a].slug;
  }

  /** Within a category a slug names one topic, although the index joins the two with a colon. */
  lemma TopicSlugIndexIsBijection(s: State, a: string, b: string)
    requires IsReachable(s) && a in s.topics && b in s.topics
    ensures Inverts(s.topicSlugIndex, TopicKeys(s.topics))
    ensures TopicKey(s.topics[a].categoryId, s.topics[a].slug) == TopicKey(s.topics[b].categoryId, s.topics[b].slug)
      <==> s.topics[a].categoryId == s.topics[b].categoryId && s.topics[a].slug == s.topics[b].slug
    ensures s.topics[a].categoryId == s.topics[b].categoryId && s.topics[a].slug == s.topics[b].slug ==> a == b
  {
    hide CategoriesInv, CategorySlugsInv, TopicsInv, PostsInv, Partitions, AccountingInv, IsReachable, IsSlug;
    ReachableInv(s);
    var ta, tb := s.topics[a], s.topics[b];
    assert TopicKeys(s.topics)[a] == TopicKey(ta.categoryId, ta.slug);
    assert TopicKeys(s.topics)[b] == TopicKey(tb.categoryId, tb.slug);
    if TopicKey(ta.categoryId, ta.slug) == TopicKey(tb.categoryId, tb.slug) {
      TopicKeyInjective(ta.categoryId, ta.slug, tb.categoryId, tb.slug);
    }
  }

  /** Nothing ever locks a category or topic, so the two lock errors never occur. */
  lemma LockErrorsNeverOccur(s: State, section: Section)
    requires IsReachable(s)
    ensures Perform(s, section) != Failure(CategoryLocked) && Perform(s, section) != Failure(TopicLocked)
  {
    hide CategorySlugsInv, TopicSlugsInv, PostsInv, Partitions, AccountingInv, IsReachable, CleanText, Numbered,
         NewTopicSlug, NewCategorySlug, Id;
    ReachableInv(s);
  }

  /** A stored post always shows the rendering of its own text. */
  lemma HtmlMatchesText(s: State, p: string)
    requires IsReachable(s) && p in s.posts
    ensures s.posts[p].contentHtml == s.render(s.posts[p].contentRaw)
  {
    hide CategoriesInv, CategorySlugsInv, TopicsInv, TopicSlugsInv, Partitions, AccountingInv, IsReachable, Numbered;
    ReachableInv(s);
  }
}
