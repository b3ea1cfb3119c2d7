/** The post handlers. A post is listed by the channel named at creation; it records
    no channel of its own (`postedOn` stays `None`). */
module Posts {
  import opened Store
  import opened Outcome

  /** A new post `nextId`, pushed onto the channel's list when that channel exists. */
  function PostCreated(t: Tables, u: Id, title: string, body: string, channelId: Option<Id>): Tables {
    var n := t.nextId;
    var channels :=
      if channelId.Some? && channelId.value in t.channels
      then t.channels[channelId.value := t.channels[channelId.value].(posts := t.channels[channelId.value].posts + [n])]
      else t.channels;
    t.(posts := t.posts[n := Post(title, body, u, None, [], NoReactions)], channels := channels, nextId := n + 1)
  }

  function PostEdited(t: Tables, p: Id, title: string, body: string): Tables
    requires p in t.posts
  {
    t.(posts := t.posts[p := t.posts[p].(title := title, body := body)])
  }

  /** The post pulled from channel `ch`, the comments and the Like and Dislike rows on it
      deleted, then the post itself; replies to those comments stay. */
  function PostDeleted(t: Tables, p: Id, ch: Id): Tables
    requires ch in t.channels
  {
    t.(channels := t.channels[ch := t.channels[ch].(posts := Pull(t.channels[ch].posts, p))],
       comments := t.comments - CommentsOn(t.comments, {p}),
       likes := t.likes - LikesOn(t.likes, {p}),
       dislikes := t.dislikes - DislikesOn(t.dislikes, {p}),
       posts := t.posts - {p})
  }

  /** `createPost`: an empty title or body is missing; any channel id is accepted. */
  method CreatePost(db: Db, actor: Actor, title: string, body: string, channelId: Option<Id>) returns (r: Response)
    requires db.Valid()
    modifies db
    ensures db.Valid()
    ensures title == [] || body == [] ==> r == MissingFields && db.State() == old(db.State())
    ensures title != [] && body != [] ==>
      && r == Ok(Created(old(db.nextId)))
      && db.State() == PostCreated(old(db.State()), actor.id, title, body, channelId)
  {
    if title == [] || body == [] {
      return MissingFields;
    }
    var id := db.CreatePost(Post(title, body, actor.id, None, [], NoReactions));
    if channelId.Some? && channelId.value in db.channels {
      var channel := db.channels[channelId.value];
      db.SetChannel(channelId.value, channel.(posts := channel.posts + [id]));
    }
    r := Ok(Created(id));
  }

  /** `editPost`: a missing post and someone else's post are both refused with 403. */
  method EditPost(db: Db, actor: Actor, postId: Option<Id>, title: string, body: string) returns (r: Response)
    requires db.Valid()
    modifies db
    ensures db.Valid()
    ensures postId.None? || title == [] || body == [] ==> r == MissingFields
    ensures postId.Some? && title != [] && body != [] ==>
      var t, p := old(db.State()), postId.value;
      && (p !in t.posts || t.posts[p].postedBy != actor.id ==> r == Forbidden)
      && ((p in t.posts && t.posts[p].postedBy == actor.id && t.posts[p].title == title && t.posts[p].body == body)
            ==> r == BadRequest(Unchanged))
      && ((p in t.posts && t.posts[p].postedBy == actor.id && (t.posts[p].title != title || t.posts[p].body != body))
            ==> r == Ok(Nothing))
    ensures !r.Ok? ==> db.State() == old(db.State())
    ensures r.Ok? ==>
      && postId.Some? && postId.value in old(db.posts)
      && db.State() == PostEdited(old(db.State()), postId.value, title, body)
  {
    if postId.None? || title == [] || body == [] {
      return MissingFields;
    }
    var p := postId.value;
    if p !in db.posts || db.posts[p].postedBy != actor.id {
      return Forbidden;
    }
    var post := db.posts[p];
    if post.title == title && post.body == body {
      return BadRequest(Unchanged);
    }
    assert Below(post.comments, db.nextId) && TallyBelow(post.tally, db.nextId);
    db.SetPost(p, post.(title := title, body := body));
    r := Ok(Nothing);
  }

  /** `deletePost`: the channel named in the request need not be the one listing the post. */
  method DeletePost(db: Db, actor: Actor, postId: Option<Id>, channelId: Option<Id>) returns (r: Response)
    requires db.Valid()
    modifies db
    ensures db.Valid()
    ensures postId.None? || channelId.None? ==> r == MissingFields
    ensures postId.Some? && channelId.Some? ==>
      var t, p, ch := old(db.State()), postId.value, channelId.value;
      && (p !in t.posts || t.posts[p].postedBy != actor.id ==> r == Forbidden)
      && ((p in t.posts && t.posts[p].postedBy == actor.id && ch !in t.channels) ==> r == BadRequest(ChannelMissing))
      && ((p in t.posts && t.posts[p].postedBy == actor.id && ch in t.channels) ==> r == Ok(Nothing))
    ensures !r.Ok? ==> db.State() == old(db.State())
    ensures r.Ok? ==>
      && postId.Some? && channelId.Some? && channelId.value in old(db.channels)
      && db.State() == PostDeleted(old(db.State()), postId.value, channelId.value)
  {
    if postId.None? || channelId.None? {
      return MissingFields;
    }
    var p, ch := postId.value, channelId.value;
    if p !in db.posts || db.posts[p].postedBy != actor.id {
      return Forbidden;
    }
    if ch !in db.channels {
      return BadRequest(ChannelMissing);
    }
    var channel := db.channels[ch];
    db.SetChannel(ch, channel.(posts := Pull(channel.posts, p)));
    db.DeleteComments(CommentsOn(db.comments, {p}));
    db.DeleteLikes(LikesOn(db.likes, {p}));
    db.DeleteDislikes(DislikesOn(db.dislikes, {p}));
    db.DeletePosts({p});
    r := Ok(Nothing);
  }

  /** No comment and no reaction refers to an id not yet handed out. */
  predicate NoForwardReferences(t: Tables) {
    && (forall c :: c in t.comments ==> t.comments[c].commentedOn < t.nextId)
    && (forall l :: l in t.likes ==> t.likes[l].likedOn < t.nextId)
    && (forall d :: d in t.dislikes ==> t.dislikes[d].dislikedOn < t.nextId)
  }

  /** Deleting a post just created, from the channel it was created in, gives back the store
      it was created in, with one id used up. */
  lemma {:induction false} CreateThenDeletePost(t: Tables, u: Id, title: string, body: string, ch: Id)
    requires t.WellFormed() && NoForwardReferences(t) && ch in t.channels
    ensures PostDeleted(PostCreated(t, u, title, body, Some(ch)), t.nextId, ch) == t.(nextId := t.nextId + 1)
  {
    ChannelRestored(t.channels, ch, t.nextId);
    NothingOnFresh(t);
    RemoveFresh(t.posts, t.nextId, Post(title, body, u, None, [], NoReactions));
  }

  lemma ChannelRestored(channels: map<Id, Channel>, ch: Id, n: Id)
    requires ch in channels && ChannelsBelow(channels, n)
    ensures var pushed := channels[ch := channels[ch].(posts := channels[ch].posts + [n])];
      pushed[ch := pushed[ch].(posts := Pull(pushed[ch].posts, n))] == channels
  {
    PullPushed(channels[ch].posts, n);
  }

  lemma NothingOnFresh(t: Tables)
    requires NoForwardReferences(t)
    ensures CommentsOn(t.comments, {t.nextId}) == {}
    ensures LikesOn(t.likes, {t.nextId}) == {}
    ensures DislikesOn(t.dislikes, {t.nextId}) == {}
  {
  }

  lemma RemoveFresh<V>(m: map<Id, V>, n: Id, v: V)
    requires n !in m
    ensures m[n := v] - {n} == m
  {
  }

  /** `deletePost` removes the comments on the post but not their replies: every such reply
      survives and now points at a comment that no longer exists. */
  lemma {:induction false} DeletedPostOrphansReplies(t: Tables, p: Id, ch: Id, x: Id)
    requires ch in t.channels && x in t.replies && t.replies[x].repliedOn in t.comments
    requires t.comments[t.replies[x].repliedOn].commentedOn == p
    ensures var after := PostDeleted(t, p, ch);
      && x in after.replies && after.replies[x].repliedOn !in after.comments
      && p !in after.posts && p !in after.channels[ch].posts
  {
    assert t.replies[x].repliedOn in CommentsOn(t.comments, {p});
  }
}
