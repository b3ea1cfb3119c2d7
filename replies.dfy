/** The reply handlers. A reply hangs off a comment and records the comment's post as its root. */
module Replies {
  import opened Store
  import opened Outcome
  import opened Text
  import opened Content

  predicate DuplicateReply(replies: map<Id, Reply>, body: string, c: Id, u: Id) {
    exists x :: x in replies && replies[x].body == body && replies[x].repliedOn == c && replies[x].repliedBy == u
  }

  /** A new reply `nextId` on comment `c`, rooted at the comment's post, pushed onto the
      comment's list. */
  function ReplyCreated(t: Tables, u: Id, c: Id, body: string): Tables
    requires c in t.comments
  {
    var n := t.nextId;
    var comment := t.comments[c];
    t.(replies := t.replies[n := Reply(body, u, c, comment.commentedOn, NoReactions)],
       comments := t.comments[c := comment.(replies := comment.replies + [n])],
       nextId := n + 1)
  }

  function ReplyEdited(t: Tables, x: Id, body: string): Tables
    requires x in t.replies
  {
    t.(replies := t.replies[x := t.replies[x].(body := body)])
  }

  /** The Like rows on the reply deleted; the Dislike query filters on a path Dislike rows
      never carry, so it deletes every row when the store drops such paths and none when it
      does not; then the reply itself. The comment keeps the id in its list. */
  function ReplyDeleted(t: Tables, x: Id, strict: bool): Tables {
    t.(likes := t.likes - LikesOn(t.likes, {x}),
       dislikes := if strict then map[] else t.dislikes,
       replies := t.replies - {x})
  }

  /** `createReply`. */
  method CreateReply(db: Db, actor: Actor, repliedOn: Option<Id>, content: Option<string>, isProfane: string -> bool)
    returns (r: Response)
    requires db.Valid()
    modifies db
    ensures db.Valid()
    ensures content.None? ==> r == ServerError
    ensures content.Some? ==>
      var t, body := old(db.State()), Trim(content.value);
      var verdict := CheckBody(body, isProfane);
      && (repliedOn.None? || body == [] ==> r == MissingFields)
      && (repliedOn.Some? && body != [] ==>
            var c := repliedOn.value;
            && (verdict != Accepted ==> r == BadRequest(Rejected(verdict)))
            && ((verdict == Accepted && c !in t.comments) ==> r == BadRequest(ParentMissing))
            && ((verdict == Accepted && c in t.comments && DuplicateReply(t.replies, body, c, actor.id))
                  ==> r == BadRequest(Duplicate))
            && ((verdict == Accepted && c in t.comments && !DuplicateReply(t.replies, body, c, actor.id))
                  ==> r == Ok(Created(t.nextId))))
    ensures !r.Ok? ==> db.State() == old(db.State())
    ensures r.Ok? ==>
      && content.Some? && repliedOn.Some? && repliedOn.value in old(db.comments)
      && db.State() == ReplyCreated(old(db.State()), actor.id, repliedOn.value, Trim(content.value))
  {
    if content.None? {
      return ServerError;
    }
    var body := Trim(content.value);
    if repliedOn.None? || body == [] {
      return MissingFields;
    }
    var verdict := CheckBody(body, isProfane);
    if verdict != Accepted {
      return BadRequest(Rejected(verdict));
    }
    var c := repliedOn.value;
    if c !in db.comments {
      return BadRequest(ParentMissing);
    }
    if DuplicateReply(db.replies, body, c, actor.id) {
      return BadRequest(Duplicate);
    }
    var comment := db.comments[c];
    var id := db.CreateReply(Reply(body, actor.id, c, comment.commentedOn, NoReactions));
    PushReply(db, c, id);
    r := Ok(Created(id));
  }

  /** `Comment.findByIdAndUpdate(c, {$push: {replies: id}})` for a reply just created. */
  method PushReply(db: Db, c: Id, id: Id)
    requires db.Valid() && c in db.comments && id < db.nextId
    modifies db
    ensures db.Valid()
    ensures db.State() == old(db.State()).(comments := old(db.comments)[c := old(db.comments)[c].(replies := old(db.comments)[c].replies + [id])])
  {
    var comment := db.comments[c];
    assert Below(comment.replies, db.nextId) && TallyBelow(comment.tally, db.nextId);
    db.SetComment(c, comment.(replies := comment.replies + [id]));
  }

  /** `updateReply`: a caller who is not the author is answered with status 400 and a body
      that reports success. */
  method UpdateReply(db: Db, actor: Actor, replyId: Option<Id>, content: Option<string>, isProfane: string -> bool)
    returns (r: Response)
    requires db.Valid()
    modifies db
    ensures db.Valid()
    ensures content.None? ==> r == ServerError
    ensures content.Some? ==>
      var t, body := old(db.State()), Trim(content.value);
      var verdict := CheckBody(body, isProfane);
      && (replyId.None? || body == [] ==> r == MissingFields)
      && (replyId.Some? && body != [] ==>
            var x := replyId.value;
            && (verdict != Accepted ==> r == BadRequest(Rejected(verdict)))
            && ((verdict == Accepted && x !in t.replies) ==> r == BadRequest(ReplyMissing))
            && ((verdict == Accepted && x in t.replies && t.replies[x].repliedBy != actor.id)
                  ==> r == RefusedAsSuccess(400))
            && ((verdict == Accepted && x in t.replies && t.replies[x].repliedBy == actor.id)
                  ==> r == Ok(Nothing)))
    ensures !r.Ok? ==> db.State() == old(db.State())
    ensures r.Ok? ==>
      && content.Some? && replyId.Some? && replyId.value in old(db.replies)
      && db.State() == ReplyEdited(old(db.State()), replyId.value, Trim(content.value))
  {
    if content.None? {
      return ServerError;
    }
    var body := Trim(content.value);
    if replyId.None? || body == [] {
      return MissingFields;
    }
    var verdict := CheckBody(body, isProfane);
    if verdict != Accepted {
      return BadRequest(Rejected(verdict));
    }
    var x := replyId.value;
    if x !in db.replies {
      return BadRequest(ReplyMissing);
    }
    if db.replies[x].repliedBy != actor.id {
      return RefusedAsSuccess(400);
    }
    var reply := db.replies[x];
    assert TallyBelow(reply.tally, db.nextId);
    db.SetReply(x, reply.(body := body));
    r := Ok(Nothing);
  }

  /** `DeleteReply`: on success no response is sent at all. */
  method DeleteReply(db: Db, actor: Actor, replyId: Option<Id>) returns (r: Response)
    requires db.Valid()
    modifies db
    ensures db.Valid()
    ensures replyId.None? ==> r == MissingFields
    ensures replyId.Some? ==>
      var t, x := old(db.State()), replyId.value;
      && (x !in t.replies ==> r == BadRequest(ReplyMissing))
      && (x in t.replies && t.replies[x].repliedBy != actor.id ==> r == RefusedAsSuccess(403))
      && (x in t.replies && t.replies[x].repliedBy == actor.id ==> r == NoResponse)
    ensures r != NoResponse ==> db.State() == old(db.State())
    ensures r == NoResponse ==>
      && replyId.Some? && db.State() == ReplyDeleted(old(db.State()), replyId.value, db.strictQuery)
  {
    if replyId.None? {
      return MissingFields;
    }
    var x := replyId.value;
    if x !in db.replies {
      return BadRequest(ReplyMissing);
    }
    if db.replies[x].repliedBy != actor.id {
      return RefusedAsSuccess(403);
    }
    db.DeleteLikes(LikesOn(db.likes, {x}));
    if db.strictQuery {
      db.DeleteDislikes(db.dislikes.Keys);
    }
    db.DeleteReplies({x});
    r := NoResponse;
  }

  /** A created reply is rooted at the post its comment hangs off, is listed by that comment
      and is the last entry of its list; the same request made again is refused as a duplicate. */
  lemma {:induction false} CreatedReplyIsDuplicate(t: Tables, u: Id, c: Id, body: string)
    requires c in t.comments
    ensures var after := ReplyCreated(t, u, c, body);
      && after.replies[t.nextId].root == t.comments[c].commentedOn
      && after.comments[c].replies[|after.comments[c].replies| - 1] == t.nextId
      && DuplicateReply(after.replies, body, c, u)
  {
    var after := ReplyCreated(t, u, c, body);
    assert after.replies[t.nextId].body == body && after.replies[t.nextId].repliedOn == c;
  }

  /** After `DeleteReply` no Like row points at the reply, yet the comment still lists the
      deleted id, and the Dislike rows on the reply survive exactly when the store keeps
      unknown filter paths. */
  lemma {:induction false} DeletedReplyStaysListed(t: Tables, x: Id, strict: bool)
    requires t.WellFormed() && x in t.replies && t.replies[x].repliedOn in t.comments
    requires x in t.comments[t.replies[x].repliedOn].replies
    ensures var after := ReplyDeleted(t, x, strict);
      && x !in after.replies
      && (forall l :: l in after.likes ==> after.likes[l].likedOn != x)
      && x in after.comments[t.replies[x].repliedOn].replies
      && (strict ==> after.dislikes == map[])
      && (!strict ==> after.dislikes == t.dislikes)
  {
  }
}
