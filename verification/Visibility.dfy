/** Shadowbans reach the forum: readers are served with the authors the moderation service hides. */
module Visibility {
  import opened Wrappers
  import opened Indexes
  import M = Moderation
  import ML = ModerationLedger
  import MH = ModerationHistory
  import opened Forum
  import opened ForumInvariant
  import opened ForumTree
  import opened ForumReads

  /** `shadowbanned_user_ids`, as the set the handlers make of it. */
  function ShadowbannedUserIds(m: M.State): set<string> {
    set u | u in m.users && m.users[u].shadowbanned
  }

  /** `can_view_author_content` */
  predicate CanViewAuthorContent(m: M.State, viewer: Option<string>, author: string) {
    !M.UserOf(m.users, author).shadowbanned || viewer == Some(author)
  }

  /** The reader a handler makes up: its list of hidden authors comes from an earlier section. */
  function ServedReader(m: M.State, viewer: Option<string>, canReadPrivate: bool): Reader {
    Reader(viewer, canReadPrivate, ShadowbannedUserIds(m))
  }

  /** The forum and the moderation service decide alike who sees an author, and as the shadowban changes made
      have it. */
  lemma SeesAuthorIffAllowed(commands: seq<M.Command>, viewer: Option<string>, canReadPrivate: bool, author: string)
    ensures var m := M.Run(M.INITIAL, commands);
            && (SeesAuthor(ServedReader(m, viewer, canReadPrivate), author) <==>
                CanViewAuthorContent(m, viewer, author))
            && (CanViewAuthorContent(m, viewer, author) <==>
                (ML.Flag(ML.Book(commands).deeds, author) ==> viewer == Some(author)))
  {
    hide M.Run, ML.Book;
    MH.FlagFollowsCommands(commands, author);
  }

  /** Nothing a reader opens or lists is by an author the last shadowban change on whom set the flag, save the
      reader's own. */
  lemma ShadowbannedAreUnseen(commands: seq<M.Command>, s: State, viewer: Option<string>, canReadPrivate: bool,
                              author: string)
    requires IsReachable(s)
    requires ML.Flag(ML.Book(commands).deeds, author) && viewer != Some(author)
    ensures ParentsEarlier(s.categories)
    ensures var r := ServedReader(M.Run(M.INITIAL, commands), viewer, canReadPrivate);
            && (forall id | GetTopic(s, r, id).Success? ::
                  var shown := GetTopic(s, r, id).value;
                  shown.topic.authorId != author && forall p | p in shown.posts :: p.authorId != author)
            && (forall id | GetPost(s, r, id).Success? :: GetPost(s, r, id).value.authorId != author)
            && (forall category, page, size | ListTopics(s, r, category, page, size).Success? ::
                  forall t | t in ListTopics(s, r, category, page, size).value :: t.authorId != author)
  {
    hide M.Run, ML.Book, IsReachable, Inv, IsPrivate, Page, VisibleTopics;
    ReachableInv(s);
    assert ParentsEarlier(s.categories) by { ParentsOf(s); }
    var r := ServedReader(M.Run(M.INITIAL, commands), viewer, canReadPrivate);
    SeesAuthorIffAllowed(commands, viewer, canReadPrivate, author);
    forall id | GetTopic(s, r, id).Success?
      ensures forall p | p in GetTopic(s, r, id).value.posts :: p.authorId != author
    {
      NothingHiddenIsShown(s, r, id);
    }
    forall category, page, size, t
      | ListTopics(s, r, category, page, size).Success? && t in ListTopics(s, r, category, page, size).value
      ensures t.authorId != author
    {
      ListedAuthorIsSeen(s, r, category, page, size, t);
    }
  }

  lemma ParentsOf(s: State)
    requires Inv(s)
    ensures ParentsEarlier(s.categories)
  {
  }

  lemma ListedAuthorIsSeen(s: State, r: Reader, category: string, page: nat, size: nat, t: Topic)
    requires Inv(s) && ListTopics(s, r, category, page, size).Success?
    requires t in ListTopics(s, r, category, page, size).value
    ensures SeesAuthor(r, t.authorId)
  {
    hide CategorySlugsInv, TopicSlugsInv, PostsInv, AccountingInv, IsPrivate, Partitions, Page, VisibleTopics;
    var ids := ListOf(s.topicsByCategory, category);
    PageIsPart(VisibleTopics(s.topics, ids, r), page, size);
    TopicsListed(s, category);
    ShownIsListed(s.topics, ids, r, t);
  }
}
