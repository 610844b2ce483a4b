/** The in-memory forum service: each method body between lock and unlock is one atomic section. */
module ForumEngine {
  import opened Wrappers
  import opened Text
  import opened Slugs
  import opened Indexes
  import opened Forum

  class ForumService {
    const render: string -> string
    var nextCategoryId: nat
    var nextTopicId: nat
    var nextPostId: nat
    var categories: map<string, Category>
    var categorySlugIndex: map<string, string>
    var topics: map<string, Topic>
    var topicSlugIndex: map<string, string>
    var posts: map<string, Post>
    var postsByTopic: map<string, seq<string>>
    var topicsByCategory: map<string, seq<string>>

    ghost function Snapshot(): State
      reads this
    {
      State(render, nextCategoryId, nextTopicId, nextPostId, categories, categorySlugIndex, topics, topicSlugIndex,
            posts, postsByTopic, topicsByCategory)
    }

    constructor (render: string -> string)
      ensures Snapshot() == Initial(render)
    {
      this.render := render;
      nextCategoryId, nextTopicId, nextPostId := 1, 1, 1;
      categories, categorySlugIndex, topics, topicSlugIndex := map[], map[], map[], map[];
      posts, postsByTopic, topicsByCategory := map[], map[], map[];
    }

    method CreateCategory(rawName: string, description: Option<string>, parent: Option<string>, isPrivate: bool)
      returns (r: Result<Category, Error>)
      modifies this
      ensures Reflects(old(Snapshot()), DoCreateCategory(old(Snapshot()), rawName, description, parent, isPrivate),
                       Snapshot(), r)
      ensures r.Success? ==> r.value.id in categories && r.value == categories[r.value.id]
    {
      hide CleanText, Slug, FirstFree;
      var cleaned := CleanText(rawName, MAX_CATEGORY_NAME_LEN);
      if cleaned.None? {
        return Failure(InvalidCategoryName);
      }
      if parent.Some? && parent.value !in categories {
        return Failure(CategoryNotFound);
      }
      var slug := UniqueSlug(cleaned.value, categorySlugIndex);
      var category := Category(Id("category", nextCategoryId), cleaned.value, slug, CleanDescription(description),
                               parent, false, isPrivate);
      InsertCategory(category);
      return Success(category);
    }

    method InsertCategory(category: Category)
      modifies this
      ensures Snapshot() == AddCategory(old(Snapshot()), category)
    {
      nextCategoryId := nextCategoryId + 1;
      categorySlugIndex := categorySlugIndex[category.slug := category.id];
      categories := categories[category.id := category];
    }

    method CreateTopic(categoryId: string, author: string, rawTitle: string, rawContent: string)
      returns (r: Result<TopicDetail, Error>)
      modifies this
      ensures Reflects(old(Snapshot()), DoCreateTopic(old(Snapshot()), categoryId, author, rawTitle, rawContent),
                       Snapshot(), r)
      ensures r.Success? ==>
        && r.value.topic.id in topics && r.value.topic == topics[r.value.topic.id]
        && |r.value.posts| == 1 && r.value.posts[0].id in posts && r.value.posts[0] == posts[r.value.posts[0].id]
    {
      hide CleanText, Slug, FirstFree, CleanContent;
      ghost var start := Snapshot();
      var title := CleanText(rawTitle, MAX_TOPIC_TITLE_LEN);
      if title.None? {
        return Failure(InvalidTopicTitle);
      }
      var content :- CleanContent(rawContent);
      var html := render(content);
      if categoryId !in categories {
        return Failure(CategoryNotFound);
      }
      if categories[categoryId].isLocked {
        return Failure(CategoryLocked);
      }
      var slug := UniqueTopicSlug(categoryId, title.value, topicSlugIndex);
      var topic := Topic(Id("topic", nextTopicId), categoryId, author, title.value, slug, 0, false, false);
      var post := Post(Id("post", nextPostId), topic.id, author, content, html, 1, false);
      InsertTopic(topic);
      InsertPost(post);
      return Success(TopicDetail(topic, [post]));
    }

    method InsertTopic(topic: Topic)
      modifies this
      ensures Snapshot() == AddTopic(old(Snapshot()), topic)
    {
      nextTopicId := nextTopicId + 1;
      topicSlugIndex := topicSlugIndex[TopicKey(topic.categoryId, topic.slug) := topic.id];
      topicsByCategory := topicsByCategory[topic.categoryId := ListOf(topicsByCategory, topic.categoryId) + [topic.id]];
      topics := topics[topic.id := topic];
    }

    method InsertPost(post: Post)
      modifies this
      ensures Snapshot() == AddPost(old(Snapshot()), post)
    {
      nextPostId := nextPostId + 1;
      postsByTopic := postsByTopic[post.topicId := ListOf(postsByTopic, post.topicId) + [post.id]];
      posts := posts[post.id := post];
    }

    method Reply(topicId: string, author: string, rawContent: string) returns (r: Result<Post, Error>)
      modifies this
      ensures Reflects(old(Snapshot()), DoReply(old(Snapshot()), topicId, author, rawContent), Snapshot(), r)
      ensures r.Success? ==> r.value.id in posts && r.value == posts[r.value.id]
    {
      hide CleanContent;
      var content :- CleanContent(rawContent);
      var html := render(content);
      if topicId !in topics || topics[topicId].deleted {
        return Failure(TopicNotFound);
      }
      if topics[topicId].isLocked {
        return Failure(TopicLocked);
      }
      topics := topics[topicId := topics[topicId].(replyCount := SaturatingIncrement(topics[topicId].replyCount))];
      var post := Post(Id("post", nextPostId), topicId, author, content, html, 1, false);
      InsertPost(post);
      return Success(post);
    }

    method EditPostAuthorized(id: string, rawContent: string) returns (r: Result<Post, Error>)
      modifies this
      ensures Reflects(old(Snapshot()), DoEditPost(old(Snapshot()), id, rawContent), Snapshot(), r)
      ensures r.Success? ==> id in posts && r.value == posts[id]
    {
      hide CleanContent;
      var content :- CleanContent(rawContent);
      var html := render(content);
      if id !in posts || posts[id].deleted {
        return Failure(PostNotFound);
      }
      var post := posts[id].(contentRaw := content, contentHtml := html,
                             revision := SaturatingIncrement(posts[id].revision));
      posts := posts[id := post];
      return Success(post);
    }

    /** `delete_topic_locked`: the topic first, then its posts one by one. */
    method DeleteTopicLocked(id: string) returns (r: Result<(), Error>)
      modifies this
      ensures Reflects(old(Snapshot()), DoDeleteTopic(old(Snapshot()), id), Snapshot(), r)
    {
      if id !in topics || topics[id].deleted {
        return Failure(TopicNotFound);
      }
      topics := topics[id := topics[id].(deleted := true, replyCount := 0)];
      var ids := ListOf(postsByTopic, id);
      ghost var posts0 := posts;
      assert MarkDeleted(posts0, ids[..0]) == posts0;
      for i := 0 to |ids|
        modifies this`posts
        invariant posts == MarkDeleted(posts0, ids[..i])
      {
        MarkOneMore(posts0, ids, i);
        if ids[i] in posts {
          posts := posts[ids[i] := posts[ids[i]].(deleted := true)];
        }
      }
      assert ids[..|ids|] == ids;
      return Success(());
    }

    method DeletePostAuthorized(id: string) returns (r: Result<(), Error>)
      modifies this
      ensures Reflects(old(Snapshot()), DoDeletePost(old(Snapshot()), id), Snapshot(), r)
    {
      if id !in posts || posts[id].deleted {
        return Failure(PostNotFound);
      }
      var topicId := posts[id].topicId;
      var list := ListOf(postsByTopic, topicId);
      if list != [] && list[0] == id {
        r := DeleteTopicLocked(topicId);
      } else {
        posts := posts[id := posts[id].(deleted := true)];
        if topicId in topics {
          topics := topics[topicId := topics[topicId].(replyCount := SaturatingDecrement(topics[topicId].replyCount))];
        }
        return Success(());
      }
    }

    method TopicPermissionTarget(id: string) returns (r: Result<PermissionTarget, Error>)
      ensures r == TopicTarget(Snapshot(), id)
    {
      if id !in topics || topics[id].deleted {
        return Failure(TopicNotFound);
      }
      return Success(PermissionTarget(topics[id].authorId, topics[id].categoryId, Some(topics[id].id), false));
    }

    method PostPermissionTarget(id: string) returns (r: Result<PermissionTarget, Error>)
      ensures r == PostTarget(Snapshot(), id)
    {
      if id !in posts || posts[id].deleted {
        return Failure(PostNotFound);
      }
      var topicId := posts[id].topicId;
      if topicId !in topics || topics[topicId].deleted {
        return Failure(TopicNotFound);
      }
      var list := ListOf(postsByTopic, topicId);
      return Success(PermissionTarget(posts[id].authorId, topics[topicId].categoryId, Some(topicId),
                                      list != [] && list[0] == id));
    }

    /** Two sections: the ownership check, then the edit. */
    method EditPost(id: string, actor: string, rawContent: string) returns (r: Result<Post, Error>)
      modifies this
      ensures var target := PostTarget(old(Snapshot()), id);
              Reflects(old(Snapshot()),
                       if target.Failure? then Failure(target.error)
                       else if target.value.ownerId != actor then Failure(Forbidden)
                       else DoEditPost(old(Snapshot()), id, rawContent),
                       Snapshot(), r)
      ensures r.Success? ==> id in posts && r.value == posts[id]
    {
      var target :- PostPermissionTarget(id);
      if target.ownerId != actor {
        return Failure(Forbidden);
      }
      r := EditPostAuthorized(id, rawContent);
    }

    method DeletePost(id: string, actor: string) returns (r: Result<(), Error>)
      modifies this
      ensures var target := PostTarget(old(Snapshot()), id);
              Reflects(old(Snapshot()),
                       if target.Failure? then Failure(target.error)
                       else if target.value.ownerId != actor then Failure(Forbidden)
                       else DoDeletePost(old(Snapshot()), id),
                       Snapshot(), r)
    {
      var target :- PostPermissionTarget(id);
      if target.ownerId != actor {
        return Failure(Forbidden);
      }
      r := DeletePostAuthorized(id);
    }

    method DeleteTopic(id: string, actor: string) returns (r: Result<(), Error>)
      modifies this
      ensures var target := TopicTarget(old(Snapshot()), id);
              Reflects(old(Snapshot()),
                       if target.Failure? then Failure(target.error)
                       else if target.value.ownerId != actor then Failure(Forbidden)
                       else DoDeleteTopic(old(Snapshot()), id),
                       Snapshot(), r)
    {
      var target :- TopicPermissionTarget(id);
      if target.ownerId != actor {
        return Failure(Forbidden);
      }
      r := DeleteTopicLocked(id);
    }
  }

  lemma MarkOneMore(posts: map<string, Post>, ids: seq<string>, i: nat)
    requires i < |ids|
    ensures var now, next := MarkDeleted(posts, ids[..i]), MarkDeleted(posts, ids[..i + 1]);
            next == if ids[i] in now then now[ids[i] := now[ids[i]].(deleted := true)] else now
  {
    assert forall p :: p in ids[..i + 1] <==> p in ids[..i] || p == ids[i];
  }
}
