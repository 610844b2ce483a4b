/** Callers that check permission in one locked section and act in a later one, with anything in between. */
module ForumClients {
  import opened Wrappers
  import opened Text
  import opened Indexes
  import opened Forum
  import opened ForumInvariant

  // ----- what no section ever changes -----

  ghost predicate TopicsStable(m: map<string, Topic>, m1: map<string, Topic>) {
    forall id | id in m ::
      && id in m1 && m1[id] == m[id].(replyCount := m1[id].replyCount, deleted := m1[id].deleted)
      && (m[id].deleted ==> m1[id].deleted)
  }

  ghost predicate PostsStable(m: map<string, Post>, m1: map<string, Post>) {
    forall id | id in m ::
      && id in m1 && m1[id].topicId == m[id].topicId && m1[id].authorId == m[id].authorId && m1[id].id == m[id].id
      && (m[id].deleted ==> m1[id].deleted)
  }

  /** Lists only grow at the end, so first positions never change. */
  ghost predicate ListsStable(m: map<string, seq<string>>, m1: map<string, seq<string>>) {
    forall t | t in m :: t in m1 && m[t] <= m1[t]
  }

  ghost predicate Stable(s: State, s1: State) {
    && TopicsStable(s.topics, s1.topics)
    && PostsStable(s.posts, s1.posts)
    && ListsStable(s.postsByTopic, s1.postsByTopic)
    && (forall id | id in s.categories :: id in s1.categories && s1.categories[id] == s.categories[id])
  }

  lemma StableTransitive(a: State, b: State, c: State)
    requires Stable(a, b) && Stable(b, c)
    ensures Stable(a, c)
  {
  }

  lemma NewIdsAreFresh(s: State)
    requires Inv(s)
    ensures Id("category", s.nextCategoryId) !in s.categories
    ensures Id("topic", s.nextTopicId) !in s.topics && Id("post", s.nextPostId) !in s.posts
  {
    NumberOfId("category", s.nextCategoryId);
    NumberOfId("topic", s.nextTopicId);
    NumberOfId("post", s.nextPostId);
    hide Id, Number, Partitions, AccountingInv, TopicSlugsInv, CategorySlugsInv;
  }

  lemma CreateCategoryIsStable(s: State, name: string, description: Option<string>, parent: Option<string>,
                               isPrivate: bool)
    requires Id("category", s.nextCategoryId) !in s.categories
    requires DoCreateCategory(s, name, description, parent, isPrivate).Success?
    ensures Stable(s, DoCreateCategory(s, name, description, parent, isPrivate).value)
  {
    hide CleanText, NewCategorySlug, Id;
  }

  lemma TopicAndPostIsStable(s: State, t: Topic, p: Post)
    requires t.id !in s.topics && p.id !in s.posts
    ensures Stable(s, AddPost(AddTopic(s, t), p))
  {
  }

  lemma CreateTopicIsStable(s: State, categoryId: string, author: string, title: string, content: string)
    requires Id("topic", s.nextTopicId) !in s.topics && Id("post", s.nextPostId) !in s.posts
    requires DoCreateTopic(s, categoryId, author, title, content).Success?
    ensures Stable(s, DoCreateTopic(s, categoryId, author, title, content).value)
  {
    hide CleanText, NewTopicSlug, Id, Stable, AddTopic, AddPost;
    var cleanTitle := CleanText(title, MAX_TOPIC_TITLE_LEN).value;
    var t := Topic(Id("topic", s.nextTopicId), categoryId, author, cleanTitle,
                   NewTopicSlug(categoryId, cleanTitle, s.topicSlugIndex), 0, false, false);
    TopicAndPostIsStable(s, t, NewPost(s, t.id, author, CleanContent(content).value));
  }

  lemma ReplyIsStable(s: State, id: string, author: string, content: string)
    requires Id("post", s.nextPostId) !in s.posts
    requires DoReply(s, id, author, content).Success?
    ensures Stable(s, DoReply(s, id, author, content).value)
  {
    hide CleanContent, Id;
  }

  lemma EditIsStable(s: State, id: string, content: string)
    requires DoEditPost(s, id, content).Success?
    ensures Stable(s, DoEditPost(s, id, content).value)
  {
    hide CleanContent;
  }

  lemma DeleteTopicIsStable(s: State, id: string)
    requires DoDeleteTopic(s, id).Success?
    ensures Stable(s, DoDeleteTopic(s, id).value)
  {
    var s1 := DoDeleteTopic(s, id).value;
    assert PostsStable(s.posts, s1.posts);
    hide MarkDeleted;
  }

  lemma MarkingIsStable(s: State, id: string)
    requires id in s.posts
    ensures Stable(s, s.(posts := s.posts[id := s.posts[id].(deleted := true)]))
  {
  }

  lemma CountingIsStable(s: State, id: string, n: u32)
    requires id in s.topics
    ensures Stable(s, SetReplyCount(s, id, n))
  {
  }

  lemma DeleteReplyIsStable(s: State, id: string)
    requires id in s.posts
    ensures Stable(s, DeleteReply(s, id))
  {
    hide Stable, SetReplyCount;
    var t := s.posts[id].topicId;
    var s1 := s.(posts := s.posts[id := s.posts[id].(deleted := true)]);
    MarkingIsStable(s, id);
    if t in s.topics {
      CountingIsStable(s1, t, SaturatingDecrement(s.topics[t].replyCount));
      StableTransitive(s, s1, DeleteReply(s, id));
    }
  }

  lemma DeletePostIsStable(s: State, id: string)
    requires DoDeletePost(s, id).Success?
    ensures Stable(s, DoDeletePost(s, id).value)
  {
    hide DoDeleteTopic, DeleteReply, Stable, IsFirstPost;
    if IsFirstPost(s, id) {
      DeleteTopicIsStable(s, s.posts[id].topicId);
    } else {
      DeleteReplyIsStable(s, id);
    }
  }

  lemma StepIsStable(s: State, section: Section)
    requires Inv(s)
    ensures Stable(s, Step(s, section))
  {
    StableReflexive(s);
    NewIdsAreFresh(s);
    hide Inv, Stable, Id, DoCreateCategory, DoCreateTopic, DoReply, DoEditPost, DoDeleteTopic, DoDeletePost;
    if Perform(s, section).Success? {
      match section
      case CreateCategory(name, description, parent, isPrivate) =>
        CreateCategoryIsStable(s, name, description, parent, isPrivate);
      case CreateTopic(categoryId, author, title, content) =>
        CreateTopicIsStable(s, categoryId, author, title, content);
      case Reply(id, author, content) => ReplyIsStable(s, id, author, content);
      case EditPost(id, content) => EditIsStable(s, id, content);
      case DeletePost(id) => DeletePostIsStable(s, id);
      case DeleteTopic(id) => DeleteTopicIsStable(s, id);
    }
  }

  lemma StableReflexive(s: State)
    ensures Stable(s, s)
  {
  }

  // ----- the two-section calls -----

  /** Calls that look up a permission target first: the owner-only methods and the HTTP handlers. */
  datatype Request =
    | EditOwn(postId: string, actor: string, content: string)
    | DeleteOwnPost(postId: string, actor: string)
    | DeleteOwnTopic(topicId: string, actor: string)
    | HandlerEdit(postId: string, actor: string, content: string)
    | HandlerDelete(postId: string, actor: string)
    | HandlerDeleteTopic(topicId: string, actor: string)

  /** The answers of the permission service, which may change from one moment to the next: at the given moment, does
      `actor` have `capability` on what `owner` has in `category`? */
  type Grants = (nat, string, string, string, string) -> bool

  predicate OnTopic(r: Request) {
    r.DeleteOwnTopic? || r.HandlerDeleteTopic?
  }

  predicate FromHandler(r: Request) {
    r.HandlerEdit? || r.HandlerDelete? || r.HandlerDeleteTopic?
  }

  function Lookup(s: State, r: Request): Result<PermissionTarget, Error> {
    if OnTopic(r) then TopicTarget(s, r.topicId) else PostTarget(s, r.postId)
  }

  /** The capability a handler asks for; deleting a first post needs the one for the whole topic. */
  function Required(r: Request, target: PermissionTarget): string {
    if r.HandlerEdit? then "post.edit.own"
    else if OnTopic(r) || target.isFirstPost then "topic.delete.own"
    else "post.delete.own"
  }

  predicate Authorized(grants: Grants, moment: nat, r: Request, target: PermissionTarget) {
    if FromHandler(r) then grants(moment, r.actor, Required(r, target), target.ownerId, target.categoryId)
    else target.ownerId == r.actor
  }

  function ActionOf(r: Request): Section {
    match r
    case EditOwn(id, _, content) => EditPost(id, content)
    case DeleteOwnPost(id, _) => DeletePost(id)
    case DeleteOwnTopic(id, _) => DeleteTopic(id)
    case HandlerEdit(id, _, content) => EditPost(id, content)
    case HandlerDelete(id, _) => DeletePost(id)
    case HandlerDeleteTopic(id, _) => DeleteTopic(id)
  }

  /** A call that has passed its check, and the moment it did so. */
  datatype Pending = Pending(request: Request, target: PermissionTarget, moment: nat)

  /** The forum with the callers that have passed their check and not acted yet. */
  datatype System = System(forum: State, pending: map<nat, Pending>)

  /** One locked section of some caller. */
  datatype Event =
    | Check(client: nat, request: Request, moment: nat)
    | Finish(client: nat)
    | Single(section: Section)

  function Next(grants: Grants, y: System, e: Event): System {
    match e
    case Check(client, request, moment) =>
      var target := Lookup(y.forum, request);
      if target.Success? && Authorized(grants, moment, request, target.value) then
        y.(pending := y.pending[client := Pending(request, target.value, moment)])
      else y
    case Finish(client) =>
      if client in y.pending then
        System(Step(y.forum, ActionOf(y.pending[client].request)), y.pending - {client})
      else y
    case Single(section) => y.(forum := Step(y.forum, section))
  }

  function Trace(grants: Grants, y: System, events: seq<Event>): System {
    if events == [] then y else Next(grants, Trace(grants, y, events[..|events| - 1]), events[|events| - 1])
  }

  /** The remembered answer still describes the item, except that it may have been deleted meanwhile. */
  ghost predicate StillTrue(s: State, r: Request, target: PermissionTarget) {
    if OnTopic(r) then
      && r.topicId in s.topics
      && target == PermissionTarget(s.topics[r.topicId].authorId, s.topics[r.topicId].categoryId,
                                    Some(s.topics[r.topicId].id), false)
    else
      && r.postId in s.posts && s.posts[r.postId].topicId in s.topics && s.posts[r.postId].topicId in s.postsByTopic
      && s.postsByTopic[s.posts[r.postId].topicId] != []
      && target == PermissionTarget(s.posts[r.postId].authorId, s.topics[s.posts[r.postId].topicId].categoryId,
                                    Some(s.posts[r.postId].topicId), IsFirstPost(s, r.postId))
  }

  ghost predicate SystemInv(grants: Grants, y: System) {
    && Inv(y.forum)
    && (forall c | c in y.pending ::
          && StillTrue(y.forum, y.pending[c].request, y.pending[c].target)
          && Authorized(grants, y.pending[c].moment, y.pending[c].request, y.pending[c].target))
  }

  lemma LookupIsTrue(s: State, r: Request)
    requires Inv(s) && Lookup(s, r).Success?
    ensures StillTrue(s, r, Lookup(s, r).value)
  {
    hide CategoriesInv, CategorySlugsInv, TopicsInv, TopicSlugsInv, PostsInv, Partitions;
    if !OnTopic(r) {
      assert Accounts(s.topics[s.posts[r.postId].topicId], s.posts, s.postsByTopic[s.posts[r.postId].topicId]);
    }
  }

  lemma StaysTrue(s: State, s1: State, r: Request, target: PermissionTarget)
    requires Stable(s, s1) && StillTrue(s, r, target)
    ensures StillTrue(s1, r, target)
  {
  }

  /** No section makes a remembered answer wrong. */
  lemma SectionKeepsInv(grants: Grants, y: System, section: Section)
    requires SystemInv(grants, y)
    ensures SystemInv(grants, y.(forum := Step(y.forum, section)))
  {
    hide Inv, Step, StillTrue, Stable, Authorized;
    StepKeepsInv(y.forum, section);
    StepIsStable(y.forum, section);
    forall c | c in y.pending {
      StaysTrue(y.forum, Step(y.forum, section), y.pending[c].request, y.pending[c].target);
    }
  }

  lemma NextKeepsInv(grants: Grants, y: System, e: Event)
    requires SystemInv(grants, y)
    ensures SystemInv(grants, Next(grants, y, e))
  {
    hide Inv, Step, StillTrue, Authorized, Lookup;
    match e
    case Check(client, request, _) =>
      if Lookup(y.forum, request).Success? {
        LookupIsTrue(y.forum, request);
      }
    case Finish(client) =>
      if client in y.pending {
        SectionKeepsInv(grants, y, ActionOf(y.pending[client].request));
      }
    case Single(section) =>
      SectionKeepsInv(grants, y, section);
  }

  lemma {:induction false} TraceKeepsInv(grants: Grants, y: System, events: seq<Event>)
    requires SystemInv(grants, y)
    ensures SystemInv(grants, Trace(grants, y, events))
  {
    if events == [] {
    } else {
      hide SystemInv, Next;
      TraceKeepsInv(grants, y, events[..|events| - 1]);
      NextKeepsInv(grants, Trace(grants, y, events[..|events| - 1]), events[|events| - 1]);
    }
  }

  ghost predicate Interleaved(grants: Grants, y: System) {
    exists render, events :: y == Trace(grants, System(Initial(render), map[]), events)
  }

  lemma InterleavedInv(grants: Grants, y: System)
    requires Interleaved(grants, y)
    ensures SystemInv(grants, y)
  {
    hide Inv, Trace;
    var render, events :| y == Trace(grants, System(Initial(render), map[]), events);
    InitialInv(render);
    TraceKeepsInv(grants, System(Initial(render), map[]), events);
  }

  /** The live item an action succeeds on is the caller's own, whatever ran since the check. */
  lemma ActionsHitOwnItems(grants: Grants, y: System, client: nat)
    requires Interleaved(grants, y) && client in y.pending && !FromHandler(y.pending[client].request)
    requires Perform(y.forum, ActionOf(y.pending[client].request)).Success?
    ensures var r := y.pending[client].request;
            if OnTopic(r) then LiveTopic(y.forum, r.topicId) && y.forum.topics[r.topicId].authorId == r.actor
            else LivePost(y.forum, r.postId) && y.forum.posts[r.postId].authorId == r.actor
  {
    hide Inv, CleanContent, Interleaved;
    InterleavedInv(grants, y);
    assert StillTrue(y.forum, y.pending[client].request, y.pending[client].target);
    assert Authorized(grants, y.pending[client].moment, y.pending[client].request, y.pending[client].target);
  }

  /** A handler's action is covered by the capability granted when it checked, on the item's owner and category as they
      are now. */
  lemma HandlersAskedForTheRightCapability(grants: Grants, y: System, client: nat)
    requires Interleaved(grants, y) && client in y.pending && FromHandler(y.pending[client].request)
    requires Perform(y.forum, ActionOf(y.pending[client].request)).Success?
    ensures var r, moment := y.pending[client].request, y.pending[client].moment;
            if OnTopic(r) then
              && LiveTopic(y.forum, r.topicId)
              && var t := y.forum.topics[r.topicId];
                 grants(moment, r.actor, "topic.delete.own", t.authorId, t.categoryId)
            else
              && LivePost(y.forum, r.postId) && y.forum.posts[r.postId].topicId in y.forum.topics
              && var p := y.forum.posts[r.postId];
                 var needed := if r.HandlerEdit? then "post.edit.own"
                               else if IsFirstPost(y.forum, r.postId) then "topic.delete.own" else "post.delete.own";
                 grants(moment, r.actor, needed, p.authorId, y.forum.topics[p.topicId].categoryId)
  {
    hide Inv, CleanContent, Interleaved;
    InterleavedInv(grants, y);
    assert StillTrue(y.forum, y.pending[client].request, y.pending[client].target);
    assert Authorized(grants, y.pending[client].moment, y.pending[client].request, y.pending[client].target);
  }

  /** Deleting a live post takes its whole topic along iff it is the first one. */
  lemma TopicGoesIffFirstPost(s: State, id: string)
    requires Inv(s) && LivePost(s, id) && DoDeletePost(s, id).Success?
    ensures LiveTopic(s, s.posts[id].topicId)
    ensures LiveTopic(DoDeletePost(s, id).value, s.posts[id].topicId) <==> !IsFirstPost(s, id)
  {
    hide Inv;
    if !IsFirstPost(s, id) {
      ReplyCountNeverClips(s, id);
    }
  }
}
