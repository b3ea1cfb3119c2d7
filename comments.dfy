/** The comment handlers. A comment hangs off a post, whose `comments` list holds its id. */
module Comments {
  import opened Store
  import opened Outcome
  import opened Text
  import opened Content

  /** The duplicate lookup: a comment with this body by this author on this post. */
  predicate DuplicateComment(comments: map<Id, Comment>, body: string, u: Id, x: Id) {
    exists c :: c in comments && comments[c].body == body && comments[c].commentBy == u && comments[c].commentedOn == x
  }

  /** A new comment `nextId` on post `x`, its id pushed onto the post's list. */
  function CommentCreated(t: Tables, u: Id, x: Id, body: string): Tables
    requires x in t.posts
  {
    var n := t.nextId;
    t.(comments := t.comments[n := Comment(body, u, x, [], NoReactions)],
       posts := t.posts[x := t.posts[x].(comments := t.posts[x].comments + [n])],
       nextId := n + 1)
  }

  function CommentEdited(t: Tables, c: Id, body: string): Tables
    requires c in t.comments
  {
    t.(comments := t.comments[c := t.comments[c].(body := body)])
  }

  /** The comment pulled from its post (if the post is still there), the replies on it
      deleted, then the comment itself; reactions on any of them stay. */
  function CommentDeleted(t: Tables, c: Id): Tables
    requires c in t.comments
  {
    var p := t.comments[c].commentedOn;
    var posts := if p in t.posts then t.posts[p := t.posts[p].(comments := Pull(t.posts[p].comments, c))] else t.posts;
    t.(posts := posts, replies := t.replies - RepliesOn(t.replies, {c}), comments := t.comments - {c})
  }

  /** `createComment`. `content` is absent when the request has none: its `trim()` throws. */
  method CreateComment(db: Db, actor: Actor, commentedOn: Option<Id>, content: Option<string>, isProfane: string -> bool)
    returns (r: Response)
    requires db.Valid()
    modifies db
    ensures db.Valid()
    ensures content.None? ==> r == ServerError
    ensures content.Some? ==>
      var t, body := old(db.State()), Trim(content.value);
      var verdict := CheckBody(body, isProfane);
      && (commentedOn.None? || body == [] ==> r == MissingFields)
      && (commentedOn.Some? && body != [] ==>
            var x := commentedOn.value;
            && (verdict != Accepted ==> r == BadRequest(Rejected(verdict)))
            && (verdict == Accepted && DuplicateComment(t.comments, body, actor.id, x) ==> r == BadRequest(Duplicate))
            && ((verdict == Accepted && !DuplicateComment(t.comments, body, actor.id, x) && x !in t.posts)
                  ==> r == BadRequest(ParentMissing))
            && ((verdict == Accepted && !DuplicateComment(t.comments, body, actor.id, x) && x in t.posts)
                  ==> r == Ok(Created(t.nextId))))
    ensures !r.Ok? ==> db.State() == old(db.State())
    ensures r.Ok? ==>
      && content.Some? && commentedOn.Some? && commentedOn.value in old(db.posts)
      && db.State() == CommentCreated(old(db.State()), actor.id, commentedOn.value, Trim(content.value))
  {
    if content.None? {
      return ServerError;
    }
    var body := Trim(content.value);
    if commentedOn.None? || body == [] {
      return MissingFields;
    }
    var verdict := CheckBody(body, isProfane);
    if verdict != Accepted {
      return BadRequest(Rejected(verdict));
    }
    var x := commentedOn.value;
    if DuplicateComment(db.comments, body, actor.id, x) {
      return BadRequest(Duplicate);
    }
    if x !in db.posts {
      return BadRequest(ParentMissing);
    }
    var id := db.CreateComment(Comment(body, actor.id, x, [], NoReactions));
    var post := db.posts[x];
    db.SetPost(x, post.(comments := post.comments + [id]));
    r := Ok(Created(id));
  }

  /** `editComment`: the author may replace the body; nothing else of the comment changes. */
  method EditComment(db: Db, actor: Actor, commentId: Option<Id>, content: Option<string>, isProfane: string -> bool)
    returns (r: Response)
    requires db.Valid()
    modifies db
    ensures db.Valid()
    ensures content.None? ==> r == ServerError
    ensures content.Some? ==>
      var t, body := old(db.State()), Trim(content.value);
      var verdict := CheckBody(body, isProfane);
      && (commentId.None? || body == [] ==> r == MissingFields)
      && (commentId.Some? && body != [] ==>
            var c := commentId.value;
            && (c !in t.comments ==> r == NotFound)
            && (c in t.comments && t.comments[c].commentBy != actor.id ==> r == Forbidden)
            && ((c in t.comments && t.comments[c].commentBy == actor.id && verdict != Accepted)
                  ==> r == BadRequest(Rejected(verdict)))
            && ((c in t.comments && t.comments[c].commentBy == actor.id && verdict == Accepted)
                  ==> r == Ok(Nothing)))
    ensures !r.Ok? ==> db.State() == old(db.State())
    ensures r.Ok? ==>
      && content.Some? && commentId.Some? && commentId.value in old(db.comments)
      && db.State() == CommentEdited(old(db.State()), commentId.value, Trim(content.value))
  {
    if content.None? {
      return ServerError;
    }
    var body := Trim(content.value);
    if body == [] || commentId.None? {
      return MissingFields;
    }
    var c := commentId.value;
    if c !in db.comments {
      return NotFound;
    }
    if db.comments[c].commentBy != actor.id {
      return Forbidden;
    }
    var verdict := CheckBody(body, isProfane);
    if verdict != Accepted {
      return BadRequest(Rejected(verdict));
    }
    TallyBelowOfComment(db.State(), c);
    db.SetComment(c, db.comments[c].(body := body));
    r := Ok(Nothing);
  }

  lemma TallyBelowOfComment(t: Tables, c: Id)
    requires t.WellFormed() && c in t.comments
    ensures Below(t.comments[c].replies, t.nextId) && TallyBelow(t.comments[c].tally, t.nextId)
  {
  }

  /** `deleteComment`. */
  method DeleteComment(db: Db, actor: Actor, commentId: Option<Id>) returns (r: Response)
    requires db.Valid()
    modifies db
    ensures db.Valid()
    ensures commentId.None? ==> r == MissingFields
    ensures commentId.Some? ==>
      var t, c := old(db.State()), commentId.value;
      && (c !in t.comments ==> r == NotFound)
      && (c in t.comments && t.comments[c].commentBy != actor.id ==> r == Forbidden)
      && (c in t.comments && t.comments[c].commentBy == actor.id ==> r == Ok(Nothing))
    ensures !r.Ok? ==> db.State() == old(db.State())
    ensures r.Ok? ==>
      && commentId.Some? && commentId.value in old(db.comments)
      && db.State() == CommentDeleted(old(db.State()), commentId.value)
  {
    if commentId.None? {
      return MissingFields;
    }
    var c := commentId.value;
    if c !in db.comments {
      return NotFound;
    }
    if db.comments[c].commentBy != actor.id {
      return Forbidden;
    }
    var p := db.comments[c].commentedOn;
    if p in db.posts {
      var post := db.posts[p];
      db.SetPost(p, post.(comments := Pull(post.comments, c)));
    }
    db.DeleteReplies(RepliesOn(db.replies, {c}));
    db.DeleteComments({c});
    r := Ok(Nothing);
  }

  /** A created comment stores the trimmed body, which is non-empty, accepted by the content
      check and its own trim; the same request made again is refused as a duplicate. */
  lemma {:induction false} CreatedCommentIsDuplicate(t: Tables, u: Id, x: Id, content: string, isProfane: string -> bool)
    requires x in t.posts && CheckBody(Trim(content), isProfane) == Accepted
    ensures var after := CommentCreated(t, u, x, Trim(content));
      && after.comments[t.nextId].body == Trim(content)
      && Trim(after.comments[t.nextId].body) == after.comments[t.nextId].body
      && DuplicateComment(after.comments, Trim(content), u, x)
  {
    TrimIdempotent(content);
    var after := CommentCreated(t, u, x, Trim(content));
    assert after.comments[t.nextId].commentBy == u && after.comments[t.nextId].commentedOn == x;
  }

  /** After `deleteComment` the comment is gone, its post no longer lists it, no reply
      points to it, and every Like and Dislike row is still there. */
  lemma {:induction false} DeletedCommentLeavesNoReplies(t: Tables, c: Id)
    requires c in t.comments
    ensures var after := CommentDeleted(t, c);
      && c !in after.comments
      && (t.comments[c].commentedOn in after.posts ==> c !in after.posts[t.comments[c].commentedOn].comments)
      && (forall r :: r in after.replies ==> after.replies[r].repliedOn != c)
      && after.likes == t.likes && after.dislikes == t.dislikes
  {
  }
}
