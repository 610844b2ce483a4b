/** The read paths of the forum and how they agree with each other. */
module ForumReads {
  import opened Wrappers
  import opened Text
  import opened Order
  import opened Indexes
  import opened Forum
  import opened ForumInvariant
  import opened ForumTree

  const USIZE_MAX := 0xFFFF_FFFF_FFFF_FFFF

  /** Who is reading: an optional viewer, whether private categories show, and the authors hidden from others. */
  datatype Reader = Reader(viewer: Option<string>, canReadPrivate: bool, hidden: set<string>)

  /** `author_is_visible`: hidden authors still see themselves. */
  predicate SeesAuthor(r: Reader, author: string) {
    author !in r.hidden || r.viewer == Some(author)
  }

  predicate SeesCategory(s: State, r: Reader, id: string)
    requires ParentsEarlier(s.categories)
  {
    r.canReadPrivate || !IsPrivate(s.categories, id)
  }

  // ----- list_topics_visible -----

  function VisibleTopics(topics: map<string, Topic>, ids: seq<string>, r: Reader): seq<Topic> {
    if ids == [] then []
    else
      (if ids[0] in topics && !topics[ids[0]].deleted && SeesAuthor(r, topics[ids[0]].authorId)
       then [topics[ids[0]]] else [])
      + VisibleTopics(topics, ids[1..], r)
  }

  /** `skip(start).take(size)` */
  function SkipTake<T>(xs: seq<T>, start: nat, size: nat): seq<T> {
    if start >= |xs| then [] else if start + size >= |xs| then xs[start..] else xs[start..start + size]
  }

  function ClampSize(size: nat): (n: nat)
    ensures 1 <= n <= MAX_PAGE_SIZE
  {
    if size < 1 then 1 else if size > MAX_PAGE_SIZE then MAX_PAGE_SIZE else size
  }

  /** `page.saturating_sub(1).saturating_mul(page_size)` on 64-bit words. */
  function PageStart(page: nat, size: nat): nat {
    var before := if page == 0 then 0 else page - 1;
    if before * size > USIZE_MAX then USIZE_MAX else before * size
  }

  function Page<T>(xs: seq<T>, page: nat, size: nat): seq<T> {
    SkipTake(xs, PageStart(page, ClampSize(size)), ClampSize(size))
  }

  function ListTopics(s: State, r: Reader, category: string, page: nat, size: nat): Result<seq<Topic>, Error>
    requires ParentsEarlier(s.categories)
  {
    if category !in s.categories || !SeesCategory(s, r, category) then Failure(CategoryNotFound)
    else Success(Page(VisibleTopics(s.topics, ListOf(s.topicsByCategory, category), r), page, size))
  }

  // ----- get_topic_visible and get_post_visible -----

  function VisiblePosts(posts: map<string, Post>, ids: seq<string>, r: Reader): seq<Post> {
    if ids == [] then []
    else
      (if ids[0] in posts && !posts[ids[0]].deleted && SeesAuthor(r, posts[ids[0]].authorId)
       then [posts[ids[0]]] else [])
      + VisiblePosts(posts, ids[1..], r)
  }

  function GetTopic(s: State, r: Reader, id: string): Result<TopicDetail, Error>
    requires ParentsEarlier(s.categories)
  {
    if !LiveTopic(s, id) then Failure(TopicNotFound)
    else if !SeesAuthor(r, s.topics[id].authorId) then Failure(TopicNotFound)
    else if !SeesCategory(s, r, s.topics[id].categoryId) then Failure(TopicNotFound)
    else Success(TopicDetail(s.topics[id], VisiblePosts(s.posts, ListOf(s.postsByTopic, id), r)))
  }

  function GetPost(s: State, r: Reader, id: string): Result<Post, Error>
    requires ParentsEarlier(s.categories)
  {
    if !LivePost(s, id) then Failure(PostNotFound)
    else if !SeesAuthor(r, s.posts[id].authorId) then Failure(PostNotFound)
    else if !LiveTopic(s, s.posts[id].topicId) then Failure(TopicNotFound)
    else if !SeesAuthor(r, s.topics[s.posts[id].topicId].authorId) then Failure(PostNotFound)
    else if !SeesCategory(s, r, s.topics[s.posts[id].topicId].categoryId) then Failure(PostNotFound)
    else Success(s.posts[id])
  }

  // ----- pages -----

  /** Pages 1 to `n`, one after the other. */
  function Pages<T>(xs: seq<T>, size: nat, n: nat): seq<T> {
    if n == 0 then [] else Pages(xs, size, n - 1) + Page(xs, n, size)
  }

  function UpTo<T>(xs: seq<T>, n: nat): seq<T> {
    if n >= |xs| then xs else xs[..n]
  }

  lemma NextStretch<T>(xs: seq<T>, start: nat, capped: nat, size: nat)
    requires |xs| <= USIZE_MAX && capped == if start > USIZE_MAX then USIZE_MAX else start
    ensures UpTo(xs, start) + SkipTake(xs, capped, size) == UpTo(xs, start + size)
  {
  }

  /** The first n pages are the first n * size items: none is skipped and none comes twice. */
  lemma {:induction false} PagesConcatenate<T>(xs: seq<T>, size: nat, n: nat)
    requires |xs| <= USIZE_MAX
    ensures Pages(xs, size, n) == UpTo(xs, n * ClampSize(size))
  {
    hide SkipTake, ClampSize, UpTo;
    var k := ClampSize(size);
    if n == 0 {
      assert UpTo(xs, 0) == [] by { NothingUpToZero(xs); }
      assert n * k == 0;
    } else {
      PagesConcatenate(xs, size, n - 1);
      NextStretch(xs, (n - 1) * k, PageStart(n, k), k);
      assert (n - 1) * k + k == n * k;
    }
  }

  /** Page k of a size from 1 to 100 is the k-th stretch of that size; other sizes count as the nearest of those. */
  lemma PageIsStretch<T>(xs: seq<T>, page: nat, size: nat)
    requires page >= 1 && |xs| <= USIZE_MAX
    ensures 1 <= size <= 100 ==> Page(xs, page, size) == UpTo(xs, page * size)[|UpTo(xs, (page - 1) * size)|..]
    ensures Page(xs, page, 0) == Page(xs, page, 1)
    ensures size > 100 ==> Page(xs, page, size) == Page(xs, page, 100)
  {
    if 1 <= size <= 100 {
      NextStretch(xs, (page - 1) * size, PageStart(page, size), size);
      assert (page - 1) * size + size == page * size;
      hide PageStart, SkipTake, UpTo;
      assert Page(xs, page, size) == SkipTake(xs, PageStart(page, size), size);
    }
  }

  lemma NothingUpToZero<T>(xs: seq<T>)
    ensures UpTo(xs, 0) == []
  {
  }

  /** Page 0 is page 1. */
  lemma PageZeroIsFirst<T>(xs: seq<T>, size: nat)
    ensures Page(xs, 0, size) == Page(xs, 1, size)
  {
    assert 0 * ClampSize(size) == 0;
  }

  // ----- agreement -----

  function TopicIds(shown: seq<Topic>): seq<string> {
    if shown == [] then [] else [shown[0].id] + TopicIds(shown[1..])
  }

  /** `a` is `b` with some items left out. */
  ghost predicate IsSubsequence(a: seq<string>, b: seq<string>) {
    a == [] || (b != [] && (IsSubsequence(a, b[1..]) || (a[0] == b[0] && IsSubsequence(a[1..], b[1..]))))
  }

  /** What the listing shows comes from the id list, in its order. */
  lemma {:induction false} VisibleTopicsInOrder(topics: map<string, Topic>, ids: seq<string>, r: Reader)
    requires forall id | id in ids :: id in topics && topics[id].id == id
    ensures IsSubsequence(TopicIds(VisibleTopics(topics, ids, r)), ids)
  {
    if ids == [] {
    } else {
      var shown, rest := VisibleTopics(topics, ids, r), VisibleTopics(topics, ids[1..], r);
      VisibleTopicsInOrder(topics, ids[1..], r);
      assert ids[0] in ids;
      if shown != rest {
        assert shown == [topics[ids[0]]] + rest;
        assert TopicIds(shown) == [ids[0]] + TopicIds(rest);
      }
    }
  }

  /** A topic is shown iff its id is listed and the topic is alive with a visible author. */
  lemma {:induction false} ShownIsListed(topics: map<string, Topic>, ids: seq<string>, r: Reader, t: Topic)
    requires forall id | id in ids :: id in topics && topics[id].id == id
    ensures t in VisibleTopics(topics, ids, r) <==>
      t.id in ids && topics[t.id] == t && !t.deleted && SeesAuthor(r, t.authorId)
  {
    if ids == [] {
    } else {
      assert ids == [ids[0]] + ids[1..];
      ShownIsListed(topics, ids[1..], r, t);
    }
  }

  lemma {:induction false} ShownPostIsListed(posts: map<string, Post>, ids: seq<string>, r: Reader, p: Post)
    requires forall id | id in ids :: id in posts && posts[id].id == id
    ensures p in VisiblePosts(posts, ids, r) <==>
      p.id in ids && posts[p.id] == p && !p.deleted && SeesAuthor(r, p.authorId)
  {
    if ids == [] {
    } else {
      assert ids == [ids[0]] + ids[1..];
      ShownPostIsListed(posts, ids[1..], r, p);
    }
  }

  /** What `list_topics_visible` lists on pages 1 to `n`, one page after the other; an error lists nothing. */
  function ListedUpTo(s: State, r: Reader, category: string, size: nat, n: nat): seq<Topic>
    requires ParentsEarlier(s.categories)
  {
    if n == 0 then []
    else
      ListedUpTo(s, r, category, size, n - 1)
      + match ListTopics(s, r, category, n, size)
        case Success(topics) => topics
        case Failure(_) => []
  }

  lemma {:induction false} ListedUpToIsPages(s: State, r: Reader, category: string, size: nat, n: nat)
    requires ParentsEarlier(s.categories)
    ensures ListedUpTo(s, r, category, size, n) ==
            if category !in s.categories || !SeesCategory(s, r, category) then []
            else Pages(VisibleTopics(s.topics, ListOf(s.topicsByCategory, category), r), size, n)
  {
    hide Page, VisibleTopics, IsPrivate;
    if n == 0 {
    } else {
      ListedUpToIsPages(s, r, category, size, n - 1);
    }
  }

  /** Listing a category fails iff it is unknown or not seen, on every page alike. */
  lemma ListingFailsIff(s: State, r: Reader, category: string, page: nat, size: nat)
    requires IsReachable(s)
    ensures ParentsEarlier(s.categories)
    ensures ListTopics(s, r, category, page, size).Failure? <==>
      category !in s.categories
      || (!r.canReadPrivate
          && exists a :: a in s.categories && AtOrAbove(s.categories, a, category) && s.categories[a].isPrivate)
  {
    hide CategorySlugsInv, TopicSlugsInv, PostsInv, TopicsInv, AccountingInv, IsReachable, IsPrivate, Numbered;
    ReachableInv(s);
    if category in s.categories {
      PrivateIffMarkedAtOrAbove(s.categories, category);
    }
  }

  lemma {:induction false} OnSomePage(s: State, r: Reader, category: string, size: nat, n: nat, t: Topic)
    requires ParentsEarlier(s.categories) && t in ListedUpTo(s, r, category, size, n)
    ensures exists page :: 1 <= page <= n && ListTopics(s, r, category, page, size).Success?
                           && t in ListTopics(s, r, category, page, size).value
  {
    hide ListTopics;
    if t in ListedUpTo(s, r, category, size, n - 1) {
      OnSomePage(s, r, category, size, n - 1, t);
    } else {
      assert ListTopics(s, r, category, n, size).Success? && t in ListTopics(s, r, category, n, size).value;
    }
  }

  lemma PageIsPart<T>(xs: seq<T>, page: nat, size: nat)
    ensures forall x | x in Page(xs, page, size) :: x in xs
  {
    hide PageStart, ClampSize;
  }

  lemma ListedIsOpenable(s: State, r: Reader, id: string, page: nat, size: nat)
    requires Inv(s) && id in s.topics
    requires var listed := ListTopics(s, r, s.topics[id].categoryId, page, size);
             listed.Success? && s.topics[id] in listed.value
    ensures GetTopic(s, r, id).Success?
  {
    hide CategorySlugsInv, TopicSlugsInv, PostsInv, AccountingInv, IsPrivate, Numbered, Partitions, Page, VisibleTopics;
    var ids := ListOf(s.topicsByCategory, s.topics[id].categoryId);
    PageIsPart(VisibleTopics(s.topics, ids, r), page, size);
    TopicsListed(s, s.topics[id].categoryId);
    ShownIsListed(s.topics, ids, r, s.topics[id]);
  }

  /** A topic is listed on some page of its category, whatever the page size, iff the same reader can open it. */
  lemma ListingAgreesWithOpening(s: State, r: Reader, id: string, size: nat)
    requires IsReachable(s) && id in s.topics
    requires |ListOf(s.topicsByCategory, s.topics[id].categoryId)| <= USIZE_MAX
    ensures ParentsEarlier(s.categories)
    ensures var t := s.topics[id];
            GetTopic(s, r, id).Success? <==>
            exists page :: ListTopics(s, r, t.categoryId, page, size).Success?
                           && t in ListTopics(s, r, t.categoryId, page, size).value
  {
    hide CategorySlugsInv, TopicSlugsInv, PostsInv, AccountingInv, IsReachable, IsPrivate, Numbered, Partitions,
         ListTopics, GetTopic;
    ReachableInv(s);
    var t := s.topics[id];
    var n := |ListOf(s.topicsByCategory, t.categoryId)|;
    assert n * ClampSize(size) >= n;
    PagesShowOpenableTopics(s, r, t.categoryId, size, n);
    if GetTopic(s, r, id).Success? {
      OnSomePage(s, r, t.categoryId, size, n, t);
    }
    if page :| ListTopics(s, r, t.categoryId, page, size).Success?
               && t in ListTopics(s, r, t.categoryId, page, size).value {
      ListedIsOpenable(s, r, id, page, size);
    }
  }

  lemma TopicsListed(s: State, category: string)
    requires TopicsInv(s.topics, s.nextTopicId, s.categories) && Partitions(s.topicsByCategory, TopicOwners(s.topics))
    ensures forall id | id in ListOf(s.topicsByCategory, category) :: id in s.topics && s.topics[id].id == id
    ensures NoDup(ListOf(s.topicsByCategory, category))
  {
    hide Numbered;
    forall id | id in ListOf(s.topicsByCategory, category) ensures id in s.topics {
      assert id in s.topicsByCategory[category];
      assert id in TopicOwners(s.topics);
    }
  }

  lemma PostsListed(s: State, topic: string)
    requires PostsInv(s.posts, s.nextPostId, s.topics, s.render) && Partitions(s.postsByTopic, PostOwners(s.posts))
    ensures forall id | id in ListOf(s.postsByTopic, topic) :: id in s.posts && s.posts[id].id == id
  {
    hide Numbered;
    forall id | id in ListOf(s.postsByTopic, topic) ensures id in s.posts {
      assert id in s.postsByTopic[topic];
      assert id in PostOwners(s.posts);
    }
  }

  /** Reading the pages of a category in turn shows each openable topic of it once, oldest first, and nothing else. */
  lemma PagesShowOpenableTopics(s: State, r: Reader, category: string, size: nat, n: nat)
    requires IsReachable(s)
    requires |ListOf(s.topicsByCategory, category)| <= USIZE_MAX
    requires n * ClampSize(size) >= |ListOf(s.topicsByCategory, category)|
    ensures ParentsEarlier(s.categories)
    ensures var listed := ListedUpTo(s, r, category, size, n);
            && (forall t :: t in listed <==>
                  t.id in s.topics && s.topics[t.id] == t && t.categoryId == category && GetTopic(s, r, t.id).Success?)
            && NoDup(ListOf(s.topicsByCategory, category))
            && IsSubsequence(TopicIds(listed), ListOf(s.topicsByCategory, category))
  {
    hide CategorySlugsInv, TopicSlugsInv, PostsInv, AccountingInv, IsReachable, IsPrivate, Numbered,
         VisibleTopics, SkipTake, ListedUpTo;
    ReachableInv(s);
    TopicsListed(s, category);
    ListedUpToIsPages(s, r, category, size, n);
    if category in s.categories && SeesCategory(s, r, category) {
      var ids := ListOf(s.topicsByCategory, category);
      var shown := VisibleTopics(s.topics, ids, r);
      ShownIsShorter(s.topics, ids, r);
      PagesConcatenate(shown, size, n);
      forall t ensures t in shown <==>
        t.id in s.topics && s.topics[t.id] == t && t.categoryId == category && GetTopic(s, r, t.id).Success?
      {
        ShownIsListed(s.topics, ids, r, t);
        assert t.id in s.topics ==> TopicOwners(s.topics)[t.id] == s.topics[t.id].categoryId;
      }
      VisibleTopicsInOrder(s.topics, ids, r);
    }
  }

  lemma {:induction false} ShownIsShorter(topics: map<string, Topic>, ids: seq<string>, r: Reader)
    ensures |VisibleTopics(topics, ids, r)| <= |ids|
  {
    if ids == [] {
    } else {
      ShownIsShorter(topics, ids[1..], r);
    }
  }

  /** A post can be read on its own iff it shows up when its topic is opened. */
  lemma PostReadIffInTopic(s: State, r: Reader, id: string)
    requires IsReachable(s) && id in s.posts
    ensures ParentsEarlier(s.categories)
    ensures var topic := GetTopic(s, r, s.posts[id].topicId);
            && (GetPost(s, r, id).Success? <==> topic.Success? && s.posts[id] in topic.value.posts)
            && (GetPost(s, r, id).Success? ==> GetPost(s, r, id).value == s.posts[id])
  {
    hide CategorySlugsInv, TopicSlugsInv, TopicsInv, AccountingInv, IsReachable, IsPrivate, Numbered;
    ReachableInv(s);
    var ids := ListOf(s.postsByTopic, s.posts[id].topicId);
    assert PostOwners(s.posts)[id] == s.posts[id].topicId;
    PostsListed(s, s.posts[id].topicId);
    ShownPostIsListed(s.posts, ids, r, s.posts[id]);
  }

  lemma {:induction false} PostShownAt(posts: map<string, Post>, ids: seq<string>, r: Reader, p: Post)
    requires p in VisiblePosts(posts, ids, r)
    ensures exists id :: id in ids && id in posts && posts[id] == p && !p.deleted && SeesAuthor(r, p.authorId)
  {
    if p !in VisiblePosts(posts, ids[1..], r) {
      assert ids[0] in ids;
    } else {
      PostShownAt(posts, ids[1..], r, p);
    }
  }

  /** An opened topic shows nothing deleted, nothing of hidden authors but their own, nothing of other topics, and
      nothing from below a private category without the right to read those. */
  lemma NothingHiddenIsShown(s: State, r: Reader, id: string)
    requires IsReachable(s) && ParentsEarlier(s.categories) && GetTopic(s, r, id).Success?
    ensures var shown := GetTopic(s, r, id).value;
            && !shown.topic.deleted && (shown.topic.authorId in r.hidden ==> r.viewer == Some(shown.topic.authorId))
            && (forall p | p in shown.posts ::
                  && p.topicId == id && !p.deleted && (p.authorId in r.hidden ==> r.viewer == Some(p.authorId)))
            && (!r.canReadPrivate ==> forall a | a in s.categories ::
                  AtOrAbove(s.categories, a, shown.topic.categoryId) ==> !s.categories[a].isPrivate)
  {
    hide CategorySlugsInv, TopicSlugsInv, TopicsInv, AccountingInv, IsReachable, IsPrivate, Numbered, VisiblePosts;
    ReachableInv(s);
    PrivateIffMarkedAtOrAbove(s.categories, s.topics[id].categoryId);
    var ids := ListOf(s.postsByTopic, id);
    forall p | p in VisiblePosts(s.posts, ids, r)
      ensures p.topicId == id && !p.deleted && SeesAuthor(r, p.authorId)
    {
      PostShownAt(s.posts, ids, r, p);
      var x :| x in ids && x in s.posts && s.posts[x] == p;
      ListedUnderOwnTopic(s, id, x);
    }
  }
}
