/** What writing to the forum shows its readers, and what deletion takes away. */
module ForumEffects {
  import opened Wrappers
  import opened Text
  import opened Indexes
  import opened Slugs
  import opened Forum
  import opened ForumInvariant
  import opened ForumTree
  import opened ForumReads
  import opened ForumTheorems
  import opened ForumLedger
  import opened ForumHistory

  lemma SectionsOf(s: State) returns (deeds: seq<Section>)
    requires IsReachable(s)
    ensures Told(s, deeds)
  {
    hide Told, Run, Book;
    var render, sections :| s == Run(Initial(render), sections);
    TablesFollowSections(render, sections);
    deeds := Book(sections);
  }

  // ----- reading -----

  ghost predicate Increasing(kind: string, ids: seq<string>) {
    forall i, j | 0 <= i < j < |ids| :: Number(kind, ids[i]) < Number(kind, ids[j])
  }

  lemma {:induction false} PostIdsIncrease(deeds: seq<Section>, t: string)
    ensures Increasing("post", PostIdsOf(deeds, t))
    ensures forall id | id in PostIdsOf(deeds, t) :: Number("post", id) <= |Posted(deeds)|
  {
    hide Number, Id;
    if deeds == [] {
    } else {
      PostIdsIncrease(deeds[..|deeds| - 1], t);
      NumberOfId("post", |Posted(deeds[..|deeds| - 1])| + 1);
    }
  }

  lemma {:induction false} TopicIdsIncrease(deeds: seq<Section>, c: string)
    ensures Increasing("topic", TopicIdsOf(deeds, c))
    ensures forall id | id in TopicIdsOf(deeds, c) :: Number("topic", id) <= |Opened(deeds)|
  {
    hide Number, Id;
    if deeds == [] {
    } else {
      TopicIdsIncrease(deeds[..|deeds| - 1], c);
      NumberOfId("topic", |Opened(deeds[..|deeds| - 1])| + 1);
    }
  }

  /** The lists the readers go through are in the order things were made. */
  lemma ListsInOrder(s: State, key: string)
    requires IsReachable(s)
    ensures Increasing("post", ListOf(s.postsByTopic, key)) && Increasing("topic", ListOf(s.topicsByCategory, key))
  {
    hide IsReachable, CategoriesTold, TopicsTold, PostsTold, Sound, ListOf, PostIdsOf, TopicIdsOf, Increasing;
    var deeds := SectionsOf(s);
    PostIdsIncrease(deeds, key);
    TopicIdsIncrease(deeds, key);
  }

  ghost predicate OldestFirst(shown: seq<Post>) {
    forall i, j | 0 <= i < j < |shown| :: Number("post", shown[i].id) < Number("post", shown[j].id)
  }

  lemma OldestAhead(first: Post, rest: seq<Post>)
    requires OldestFirst(rest) && forall p | p in rest :: Number("post", first.id) < Number("post", p.id)
    ensures OldestFirst([first] + rest)
  {
    hide Number;
  }

  lemma {:induction false} VisibleIds(posts: map<string, Post>, ids: seq<string>, r: Reader)
    requires forall id | id in ids :: id in posts && posts[id].id == id
    ensures forall p | p in VisiblePosts(posts, ids, r) :: p.id in ids
  {
    hide SeesAuthor;
    if ids == [] {
    } else {
      assert ids[0] in ids && forall id | id in ids[1..] :: id in ids;
      VisibleIds(posts, ids[1..], r);
    }
  }

  lemma {:induction false} VisiblePostsInOrder(posts: map<string, Post>, ids: seq<string>, r: Reader)
    requires forall id | id in ids :: id in posts && posts[id].id == id
    requires Increasing("post", ids)
    ensures OldestFirst(VisiblePosts(posts, ids, r))
  {
    hide Number, SeesAuthor, OldestFirst;
    if ids == [] {
      assert OldestFirst([]) by { NothingInOrder(); }
    } else {
      assert ids[0] in ids && forall id | id in ids[1..] :: id in ids;
      VisiblePostsInOrder(posts, ids[1..], r);
      VisibleIds(posts, ids[1..], r);
      var rest := VisiblePosts(posts, ids[1..], r);
      forall p | p in rest ensures Number("post", ids[0]) < Number("post", p.id) {
        var k :| 0 <= k < |ids[1..]| && ids[1..][k] == p.id;
        assert ids[k + 1] == p.id;
      }
      OldestAhead(posts[ids[0]], rest);
      assert VisiblePosts(posts, ids, r) == rest || VisiblePosts(posts, ids, r) == [posts[ids[0]]] + rest;
    }
  }

  lemma NothingInOrder()
    ensures OldestFirst([])
  {
  }

  /** The reader may see what this author wrote. */
  predicate MaySee(r: Reader, author: string) {
    author in r.hidden ==> r.viewer == Some(author)
  }

  /** A topic opens exactly when it is alive, its author visible and nothing private at or above it is in the way; then
      it shows exactly its live posts by visible authors, in the order they were made. */
  lemma OpenedTopicShowsExactly(s: State, r: Reader, id: string)
    requires IsReachable(s)
    ensures ParentsEarlier(s.categories)
    ensures GetTopic(s, r, id).Success? <==>
      && id in s.topics && !s.topics[id].deleted && MaySee(r, s.topics[id].authorId)
      && (!r.canReadPrivate ==> forall a | a in s.categories ::
            AtOrAbove(s.categories, a, s.topics[id].categoryId) ==> !s.categories[a].isPrivate)
    ensures GetTopic(s, r, id).Success? ==>
      var shown := GetTopic(s, r, id).value;
      && shown.topic == s.topics[id]
      && (forall p :: p in shown.posts <==>
            p.id in s.posts && s.posts[p.id] == p && p.topicId == id && !p.deleted && MaySee(r, p.authorId))
      && OldestFirst(shown.posts)
  {
    hide CategorySlugsInv, TopicSlugsInv, TopicsInv, AccountingInv, IsReachable, IsPrivate, Numbered, VisiblePosts,
         Number, Partitions;
    ReachableInv(s);
    if id in s.topics {
      PrivateIffMarkedAtOrAbove(s.categories, s.topics[id].categoryId);
    }
    if GetTopic(s, r, id).Success? {
      ShownPostsExactly(s, r, id);
    }
  }

  lemma ShownPostsExactly(s: State, r: Reader, id: string)
    requires IsReachable(s)
    ensures var shown := VisiblePosts(s.posts, ListOf(s.postsByTopic, id), r);
            && (forall p :: p in shown <==>
                  p.id in s.posts && s.posts[p.id] == p && p.topicId == id && !p.deleted && MaySee(r, p.authorId))
            && OldestFirst(shown)
  {
    hide CategoriesInv, CategorySlugsInv, TopicSlugsInv, TopicsInv, AccountingInv, IsReachable, Numbered, VisiblePosts,
         Number, Partitions, Increasing, ListOf, OldestFirst;
    ReachableInv(s);
    var ids := ListOf(s.postsByTopic, id);
    PostsListed(s, id);
    ListsInOrder(s, id);
    VisiblePostsInOrder(s.posts, ids, r);
    forall p ensures p in VisiblePosts(s.posts, ids, r) <==>
      p.id in s.posts && s.posts[p.id] == p && p.topicId == id && !p.deleted && MaySee(r, p.authorId)
    {
      ShownPostIsListed(s.posts, ids, r, p);
      ListedHere(s, id, p.id);
    }
  }

  lemma ListedHere(s: State, t: string, p: string)
    requires Partitions(s.postsByTopic, PostOwners(s.posts))
    ensures p in s.posts && s.posts[p].topicId == t <==> p in ListOf(s.postsByTopic, t)
  {
    hide Partitions;
    ListedUnderOwnTopic(s, t, p);
  }

  // ----- replies and edits -----

  lemma {:induction false} VisibleFrame(posts: map<string, Post>, posts1: map<string, Post>, ids: seq<string>,
                                        r: Reader)
    requires forall id | id in ids :: id in posts && id in posts1 && posts1[id] == posts[id]
    ensures VisiblePosts(posts, ids, r) == VisiblePosts(posts1, ids, r)
  {
    hide SeesAuthor;
    if ids == [] {
    } else {
      assert ids[0] in ids && forall id | id in ids[1..] :: id in ids;
      VisibleFrame(posts, posts1, ids[1..], r);
    }
  }

  lemma {:induction false} VisibleAppend(posts: map<string, Post>, xs: seq<string>, ys: seq<string>, r: Reader)
    ensures VisiblePosts(posts, xs + ys, r) == VisiblePosts(posts, xs, r) + VisiblePosts(posts, ys, r)
  {
    hide SeesAuthor;
    if xs == [] {
      assert xs + ys == ys;
    } else {
      assert (xs + ys)[1..] == xs[1..] + ys;
      VisibleAppend(posts, xs[1..], ys, r);
    }
  }

  lemma OneVisible(posts: map<string, Post>, id: string, r: Reader)
    requires id in posts && !posts[id].deleted
    ensures VisiblePosts(posts, [id], r) == if SeesAuthor(r, posts[id].authorId) then [posts[id]] else []
  {
    assert [id][1..] == [];
    assert VisiblePosts(posts, [], r) == [];
  }

  /** A reply shows up at the end of its topic, as it was written, to everybody who may see its author. */
  lemma ReplyShowsLast(s: State, id: string, author: string, content: string, r: Reader)
    requires IsReachable(s) && DoReply(s, id, author, content).Success?
    requires ParentsEarlier(s.categories) && GetTopic(s, r, id).Success?
    ensures var s1 := DoReply(s, id, author, content).value;
            var made := Post(Id("post", s.nextPostId), id, author, Trim(content), s.render(Trim(content)), 1, false);
            && s1.categories == s.categories && GetTopic(s1, r, id).Success?
            && GetTopic(s1, r, id).value.posts
               == GetTopic(s, r, id).value.posts + if MaySee(r, author) then [made] else []
  {
    hide CategoriesInv, CategorySlugsInv, TopicSlugsInv, TopicsInv, AccountingInv, IsReachable, Numbered, VisiblePosts,
         CleanText, Id, IsPrivate, Partitions, Trim;
    CleanIffAcceptable(content, MAX_POST_CONTENT_BYTES);
    ReachableInv(s);
    PostIdIsFresh(s);
    PostsListed(s, id);
    var s1 := DoReply(s, id, author, content).value;
    var ids, p := ListOf(s.postsByTopic, id), Id("post", s.nextPostId);
    assert ListOf(s1.postsByTopic, id) == ids + [p];
    VisibleAppend(s1.posts, ids, [p], r);
    VisibleFrame(s.posts, s1.posts, ids, r);
    OneVisible(s1.posts, p, r);
  }

  /** An edited post reads as edited, and every other post reads as before. */
  lemma EditShowsNewText(s: State, id: string, content: string, r: Reader, other: string)
    requires DoEditPost(s, id, content).Success? && ParentsEarlier(s.categories)
    ensures var s1 := DoEditPost(s, id, content).value;
            && s1.categories == s.categories
            && (GetPost(s, r, id).Success? ==>
                  var p := GetPost(s, r, id).value;
                  GetPost(s1, r, id)
                  == Success(p.(contentRaw := Trim(content), contentHtml := s.render(Trim(content)),
                                revision := if p.revision == U32_MAX then U32_MAX else p.revision + 1)))
            && (other != id ==> GetPost(s1, r, other) == GetPost(s, r, other))
  {
    hide CleanText, IsPrivate, Trim;
    CleanIffAcceptable(content, MAX_POST_CONTENT_BYTES);
  }

  // ----- deletion -----

  /** Deleting a post that is not the first takes exactly that post: the others, their topics and everything else stay,
      and the count of its topic goes down by one, unless it is stuck at zero after more than 2^32 posts. */
  lemma ReplyDeletionIsExact(s: State, id: string)
    requires IsReachable(s) && LivePost(s, id) && !IsFirstPost(s, id)
    ensures DoDeletePost(s, id).Success?
    ensures var s1, t := DoDeletePost(s, id).value, s.posts[id].topicId;
            && LivePostsOf(s1.posts, t) == LivePostsOf(s.posts, t) - {id} && id in LivePostsOf(s.posts, t)
            && s1.posts == s.posts[id := s.posts[id].(deleted := true)]
            && t in s.topics && s1.topics.Keys == s.topics.Keys
            && (forall x | x in s.topics && x != t :: s1.topics[x] == s.topics[x])
            && s1.topics[t] == s.topics[t].(replyCount := s1.topics[t].replyCount)
            && (s.topics[t].replyCount > 0 ==> s1.topics[t].replyCount == s.topics[t].replyCount - 1)
            && (|PostsOf(s.posts, t)| <= U32_MODULUS ==> s.topics[t].replyCount > 0)
            && s1 == s.(posts := s1.posts, topics := s1.topics)
  {
    hide IsReachable, Inv, LivePostsOf, PostsOf, IsFirstPost;
    ReachableInv(s);
    ReplyCountNeverClips(s, id);
    ReplyDeleted(s, id, s.posts[id].topicId);
    LiveIsListed(s, id);
  }

  lemma {:induction false} BookGrows(sections: seq<Section>, more: seq<Section>)
    ensures Book(sections) <= Book(sections + more)
  {
    hide Refusal;
    if more == [] {
      assert sections + more == sections;
    } else {
      assert (sections + more)[..|sections + more| - 1] == sections + more[..|more| - 1];
      BookGrows(sections, more[..|more| - 1]);
    }
  }

  lemma DeedIsBooked(render: string -> string, sections: seq<Section>, d: Section, more: seq<Section>)
    requires Perform(Run(Initial(render), sections), d).Success?
    ensures d in Book(sections + [d] + more)
  {
    hide Run, Refusal, Perform, Told;
    AnswersFollowSections(render, sections, d);
    assert (sections + [d])[..|sections|] == sections;
    BookGrows(sections + [d], more);
    assert Book(sections + [d]) == Book(sections) + [d];
    assert Book(sections + [d])[|Book(sections)|] == d;
  }

  /** A deleted post is gone for good: in no continuation of the run is it alive or shown to anybody. */
  lemma DeletedPostStaysGone(render: string -> string, sections: seq<Section>, id: string, more: seq<Section>,
                             r: Reader, topicId: string)
    requires Perform(Run(Initial(render), sections), DeletePost(id)).Success?
    ensures var s := Run(Initial(render), sections + [DeletePost(id)] + more);
            && id in s.posts && s.posts[id].deleted
            && ParentsEarlier(s.categories) && GetPost(s, r, id).Failure?
            && (GetTopic(s, r, topicId).Success? ==> forall p | p in GetTopic(s, r, topicId).value.posts :: p.id != id)
  {
    hide Run, Book, IsReachable, Inv, Told, Perform, IsPrivate, VisiblePosts;
    var all := sections + [DeletePost(id)] + more;
    var s := Run(Initial(render), all);
    DeedIsBooked(render, sections, DeletePost(id), more);
    TablesFollowSections(render, all);
    assert IsReachable(s) by { Reached(render, all); }
    ReachableInv(s);
    assert ParentsEarlier(s.categories) by { ParentsOf(s); }
    BookedDeletionIsGone(s, Book(all), id);
    if GetTopic(s, r, topicId).Success? {
      NothingHiddenIsShown(s, r, topicId);
      OpenedTopicShowsExactly(s, r, topicId);
    }
  }

  lemma Reached(render: string -> string, sections: seq<Section>)
    ensures IsReachable(Run(Initial(render), sections))
  {
    hide Run;
  }

  lemma ParentsOf(s: State)
    requires Inv(s)
    ensures ParentsEarlier(s.categories)
  {
  }

  lemma BookedDeletionIsGone(s: State, deeds: seq<Section>, id: string)
    requires Told(s, deeds) && DeletePost(id) in deeds
    ensures id in s.posts && s.posts[id].deleted
  {
    hide CategoriesTold, TopicsTold, PostsTold, ListsTold, TopicGone, Posted, Opened, PostIdsOf, OpeningPost, Trim;
    PostStatusTold(s, deeds, id);
  }

  /** A deleted topic is gone for good, with every post of it, whenever made. */
  lemma DeletedTopicStaysGone(render: string -> string, sections: seq<Section>, t: string, more: seq<Section>,
                              r: Reader, id: string)
    requires Perform(Run(Initial(render), sections), DeleteTopic(t)).Success?
    ensures var s := Run(Initial(render), sections + [DeleteTopic(t)] + more);
            && t in s.topics && s.topics[t].deleted
            && ParentsEarlier(s.categories) && GetTopic(s, r, t).Failure?
            && (id in s.posts && s.posts[id].topicId == t ==> s.posts[id].deleted && GetPost(s, r, id).Failure?)
  {
    hide Run, Book, IsReachable, Inv, Told, Perform, IsPrivate, VisiblePosts;
    var all := sections + [DeleteTopic(t)] + more;
    var s := Run(Initial(render), all);
    DeedIsBooked(render, sections, DeleteTopic(t), more);
    TablesFollowSections(render, all);
    assert IsReachable(s) by { Reached(render, all); }
    ReachableInv(s);
    assert ParentsEarlier(s.categories) by { ParentsOf(s); }
    BookedTopicIsGone(s, Book(all), t, id);
  }

  lemma BookedTopicIsGone(s: State, deeds: seq<Section>, t: string, id: string)
    requires Told(s, deeds) && DeleteTopic(t) in deeds
    ensures t in s.topics && s.topics[t].deleted
    ensures id in s.posts && s.posts[id].topicId == t ==> s.posts[id].deleted
  {
    hide CategoriesTold, TopicsTold, PostsTold, ListsTold, Posted, Opened, PostIdsOf, OpeningPost, Trim;
    TopicStatusTold(s, deeds, t);
    PostStatusTold(s, deeds, id);
  }

  // ----- the slugs new items get -----

  /** The names the search tries: the stem, then `stem-2`, `stem-3` and so on. */
  function NameTried(stem: string, k: nat): string {
    if k == 1 then stem else stem + "-" + Decimal(k)
  }

  ghost predicate CategorySlugTaken(s: State, slug: string) {
    exists c :: c in s.categories && s.categories[c].slug == slug
  }

  lemma CategorySlugIndexed(s: State, slug: string)
    requires CategorySlugsInv(s.categories, s.categorySlugIndex)
    ensures CategorySlugTaken(s, slug) <==> slug in s.categorySlugIndex
  {
    hide IsSlug;
    if slug in s.categorySlugIndex {
      var c := s.categorySlugIndex[slug];
      assert CategorySlugs(s.categories)[c] == s.categories[c].slug;
    }
    if c :| c in s.categories && s.categories[c].slug == slug {
      assert CategorySlugs(s.categories)[c] == s.categories[c].slug;
    }
  }

  /** A new category gets the first name of the search that no category has. */
  lemma CategorySlugIsFirstFree(s: State, name: string, description: Option<string>, parent: Option<string>,
                                isPrivate: bool) returns (k: nat)
    requires IsReachable(s) && DoCreateCategory(s, name, description, parent, isPrivate).Success?
    ensures var s1, id := DoCreateCategory(s, name, description, parent, isPrivate).value,
                          Id("category", s.nextCategoryId);
            k >= 1 && id in s1.categories && s1.categories[id].slug == NameTried(Slug(Trim(name)), k)
    ensures !CategorySlugTaken(s, NameTried(Slug(Trim(name)), k))
    ensures forall j | 1 <= j < k :: CategorySlugTaken(s, NameTried(Slug(Trim(name)), j))
  {
    hide CategoriesInv, CategorySlugsInv, TopicsInv, TopicSlugsInv, PostsInv, Partitions, AccountingInv, IsReachable,
         Slug, CleanText, Trim, Id, CategorySlugTaken, FirstFree;
    CleanIffAcceptable(name, MAX_CATEGORY_NAME_LEN);
    ReachableInv(s);
    var base := Slug(Trim(name));
    assert forall j | j >= 1 :: NameTried(base, j) == Candidate(base, j);
    hide Candidate, NameTried;
    k := FirstFree(base, s.categorySlugIndex.Keys, 1);
    CategorySlugIndexed(s, Candidate(base, k));
    forall j | 1 <= j < k ensures CategorySlugTaken(s, NameTried(base, j)) {
      assert Candidate(base, j) in s.categorySlugIndex.Keys;
      CategorySlugIndexed(s, Candidate(base, j));
    }
  }

  ghost predicate TopicSlugTaken(s: State, categoryId: string, slug: string) {
    exists t :: t in s.topics && s.topics[t].categoryId == categoryId && s.topics[t].slug == slug
  }

  /** A new topic gets the first name of the search that no topic of its category has. */
  lemma TopicSlugIsFirstFree(s: State, categoryId: string, author: string, title: string, content: string)
    returns (k: nat)
    requires IsReachable(s) && DoCreateTopic(s, categoryId, author, title, content).Success?
    ensures var s1, id := DoCreateTopic(s, categoryId, author, title, content).value, Id("topic", s.nextTopicId);
            && k >= 1 && id in s1.topics && s1.topics[id].slug == NameTried(Slug(Trim(title)), k)
    ensures !TopicSlugTaken(s, categoryId, NameTried(Slug(Trim(title)), k))
    ensures forall j | 1 <= j < k :: TopicSlugTaken(s, categoryId, NameTried(Slug(Trim(title)), j))
  {
    hide CategoriesInv, CategorySlugsInv, TopicsInv, TopicSlugsInv, PostsInv, Partitions, AccountingInv, IsReachable,
         Slug, CleanText, CleanContent, Trim, Id, TopicKey, FirstFree;
    CleanIffAcceptable(title, MAX_TOPIC_TITLE_LEN);
    ReachableInv(s);
    var base := Slug(Trim(title));
    var stem := TopicKey(categoryId, base);
    assert forall j | j >= 1 :: NameTried(base, j) == Candidate(base, j);
    hide Candidate, NameTried;
    k := FirstFree(stem, s.topicSlugIndex.Keys, 1);
    TopicKeyOfCandidate(categoryId, base, k);
    forall t | t in s.topics && s.topics[t].categoryId == categoryId ensures s.topics[t].slug != Candidate(base, k) {
      TopicIndexed(s, t);
    }
    hide TopicSlugTaken;
    forall j | 1 <= j < k ensures TopicSlugTaken(s, categoryId, Candidate(base, j)) {
      assert Candidate(stem, j) in s.topicSlugIndex.Keys;
      TakenTopicSlug(s, categoryId, title, j);
    }
  }

  lemma TakenTopicSlug(s: State, categoryId: string, title: string, j: nat)
    requires TopicSlugsInv(s.topics, s.topicSlugIndex)
    requires Candidate(TopicKey(categoryId, Slug(Trim(title))), j) in s.topicSlugIndex
    ensures TopicSlugTaken(s, categoryId, Candidate(Slug(Trim(title)), j))
  {
    hide TopicSlugsInv, TopicKey, IsSlug, Slug, Candidate, Trim;
    var base := Slug(Trim(title));
    TopicKeyOfCandidate(categoryId, base, j);
    SlugIsCanonical(Trim(title));
    CandidateIsSlug(base, j);
    var t := TopicAt(s, categoryId, Candidate(base, j));
  }

  lemma TopicIndexed(s: State, t: string)
    requires TopicSlugsInv(s.topics, s.topicSlugIndex) && t in s.topics
    ensures TopicKey(s.topics[t].categoryId, s.topics[t].slug) in s.topicSlugIndex
  {
    hide TopicKey, IsSlug;
    assert TopicKeys(s.topics)[t] == TopicKey(s.topics[t].categoryId, s.topics[t].slug);
  }

  lemma TopicAt(s: State, categoryId: string, slug: string) returns (t: string)
    requires TopicSlugsInv(s.topics, s.topicSlugIndex) && IsSlug(slug)
    requires TopicKey(categoryId, slug) in s.topicSlugIndex
    ensures t in s.topics && s.topics[t].categoryId == categoryId && s.topics[t].slug == slug
  {
    hide TopicKey, IsSlug;
    t := s.topicSlugIndex[TopicKey(categoryId, slug)];
    assert TopicKeys(s.topics)[t] == TopicKey(s.topics[t].categoryId, s.topics[t].slug);
    TopicKeyInjective(categoryId, slug, s.topics[t].categoryId, s.topics[t].slug);
  }

  // ----- permission targets -----

  /** A permission target is found for exactly the live items, and names their owner and category. */
  lemma TargetsDescribeItems(s: State, id: string)
    requires IsReachable(s)
    ensures TopicTarget(s, id).Success? <==> LiveTopic(s, id)
    ensures TopicTarget(s, id).Success? ==>
      TopicTarget(s, id).value == PermissionTarget(s.topics[id].authorId, s.topics[id].categoryId, Some(id), false)
    ensures PostTarget(s, id).Success? <==> LivePost(s, id)
    ensures PostTarget(s, id).Success? ==>
      var p := s.posts[id];
      && p.topicId in s.topics && p.topicId in s.postsByTopic && s.postsByTopic[p.topicId] != []
      && PostTarget(s, id).value
         == PermissionTarget(p.authorId, s.topics[p.topicId].categoryId, Some(p.topicId),
                             s.postsByTopic[p.topicId][0] == id)
  {
    hide CategoriesInv, CategorySlugsInv, TopicSlugsInv, PostsInv, Partitions, AccountingInv, IsReachable, Numbered;
    ReachableInv(s);
    if LivePost(s, id) {
      LivePostHasLiveTopic(s, id);
    }
  }
}
