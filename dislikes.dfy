/** The dislike handlers: Dislike rows in their own collection, with each target keeping a
    `dislike_count` counter (its `dislikes` list is never pushed to) and, on a like's
    removal, a `like_count` counter. */
module Dislikes {
  import opened Store
  import opened Outcome

  /** The membership gate of both handlers: a channel of type "college" refuses a caller
      without `private_member`; an open channel, and a channel id that matches nothing, pass. */
  predicate GateRefuses(channels: map<Id, Channel>, channelId: Id, actor: Actor) {
    channelId in channels && channels[channelId].channelType == "college" && !actor.privateMember
  }

  /** The already-disliked lookup, which queries the Like collection with the Dislike
      field names `disliked_by` and `disliked_on`. Under `strictQuery` both paths are dropped
      and the filter keeps only `on_model`, so any Like row of that kind matches; otherwise
      no Like row carries those paths and nothing matches. */
  predicate StrayLikeFound(likes: map<Id, Like>, onModel: string, strict: bool) {
    strict && exists l :: l in likes && likes[l].onModel.Name() == onModel
  }

  /** `dislike_count` of the target raised by one and a new Dislike row `nextId` of `u`. */
  function Disliked(t: Tables, u: Id, x: Id, k: Kind): Tables
    requires t.Has(k, x)
  {
    var tl := t.TallyOf(k, x);
    t.WithTally(k, x, tl.(dislikeCount := tl.dislikeCount + 1))
      .(dislikes := t.dislikes[t.nextId := Dislike(u, x, k)], nextId := t.nextId + 1)
  }

  /** Like row `l` deleted and `like_count` lowered by one; the id stays in the likes list. */
  function LikeDropped(t: Tables, x: Id, k: Kind, l: Id): Tables
    requires t.Has(k, x)
  {
    var tl := t.TallyOf(k, x);
    t.WithTally(k, x, tl.(likeCount := tl.likeCount - 1)).(likes := t.likes - {l})
  }

  /** Dislike row `d` deleted and `dislike_count` lowered by one. */
  function Undisliked(t: Tables, x: Id, k: Kind, d: Id): Tables
    requires t.Has(k, x)
  {
    var tl := t.TallyOf(k, x);
    t.WithTally(k, x, tl.(dislikeCount := tl.dislikeCount - 1)).(dislikes := t.dislikes - {d})
  }

  /** The store after a successful `addDislike`: `dropped` is the caller's Like row, if any. */
  function AfterDislike(t: Tables, u: Id, x: Id, k: Kind, dropped: Option<Id>): Tables
    requires t.Has(k, x)
  {
    var d := Disliked(t, u, x, k);
    if dropped.None? then d else LikeDropped(d, x, k, dropped.value)
  }

  /** A successful `addDislike` raises `dislike_count` by exactly one and adds exactly one
      Dislike row, of the caller on the target; `like_count` drops by one exactly when a
      Like row of the caller was deleted; the id lists stay as they were. */
  lemma {:induction false} AfterDislikeCounters(t: Tables, u: Id, x: Id, k: Kind, dropped: Option<Id>)
    requires t.WellFormed() && t.Has(k, x)
    ensures var after := AfterDislike(t, u, x, k, dropped);
      && after.Has(k, x)
      && var b, a := t.TallyOf(k, x), after.TallyOf(k, x);
      && a.dislikeCount == b.dislikeCount + 1
      && a.likeCount == b.likeCount - (if dropped.Some? then 1 else 0)
      && a.likes == b.likes && a.dislikes == b.dislikes
      && after.dislikes == t.dislikes[t.nextId := Dislike(u, x, k)] && t.nextId !in t.dislikes
  {
    var d := Disliked(t, u, x, k);
    assert d.Has(k, x) && d.TallyOf(k, x).dislikeCount == t.TallyOf(k, x).dislikeCount + 1;
    assert t.nextId !in t.dislikes;
  }

  /** The `$inc` of `dislike_count` followed by `Dislike.create`. */
  method PutDislike(db: Db, u: Id, x: Id, k: Kind)
    requires db.Valid() && db.State().Has(k, x)
    modifies db
    ensures db.Valid() && db.State() == Disliked(old(db.State()), u, x, k)
  {
    TallyOfBelow(db.State(), k, x);
    var tl := db.State().TallyOf(k, x);
    db.SetTally(k, x, tl.(dislikeCount := tl.dislikeCount + 1));
    var id := db.CreateDislike(Dislike(u, x, k));
  }

  /** `Like.findOneAndDelete` followed by the `$inc` of `like_count` by -1. */
  method DropLike(db: Db, x: Id, k: Kind, l: Id)
    requires db.Valid() && db.State().Has(k, x)
    modifies db
    ensures db.Valid() && db.State() == LikeDropped(old(db.State()), x, k, l)
  {
    db.DeleteLikes({l});
    TallyOfBelow(db.State(), k, x);
    var tl := db.State().TallyOf(k, x);
    db.SetTally(k, x, tl.(likeCount := tl.likeCount - 1));
  }

  /** `addDislike`. `dropped` is the caller's Like row on the target, deleted on the way. */
  method AddDislike(db: Db, actor: Actor, dislikedOn: Option<Id>, onModel: string, channelId: Option<Id>)
    returns (r: Response, ghost dropped: Option<Id>)
    requires db.Valid()
    modifies db
    ensures db.Valid()
    ensures dislikedOn.None? || onModel == "" || channelId.None? ==> r == MissingFields
    ensures dislikedOn.Some? && onModel != "" && channelId.Some? ==>
      var t, x, kind := old(db.State()), dislikedOn.value, ParseKind(onModel);
      var gate, stray := GateRefuses(t.channels, channelId.value, actor), StrayLikeFound(t.likes, onModel, db.strictQuery);
      && (gate ==> r == Forbidden)
      && (!gate && stray ==> r == BadRequest(AlreadyLiked))
      && (!gate && !stray && (kind.None? || !t.Has(kind.value, x)) ==> r == NotFound)
      && (!gate && !stray && kind.Some? && t.Has(kind.value, x) ==> r.Ok?)
    ensures !r.Ok? ==> db.State() == old(db.State()) && dropped.None?
    ensures r.Ok? ==>
      && dislikedOn.Some? && ParseKind(onModel).Some?
      && var t, x, k := old(db.State()), dislikedOn.value, ParseKind(onModel).value;
      && t.Has(k, x)
      && (dropped.None? ==> !HasLike(t.likes, actor.id, x, onModel))
      && (dropped.Some? ==> dropped.value in t.likes && t.likes[dropped.value] == Like(actor.id, x, k))
      && db.State() == AfterDislike(t, actor.id, x, k, dropped)
      && r == Ok(Counts(db.State().TallyOf(k, x).likeCount, db.State().TallyOf(k, x).dislikeCount))
      && !HasLike(db.likes, actor.id, x, onModel)
  {
    dropped := None;
    if dislikedOn.None? || onModel == "" || channelId.None? {
      return MissingFields, None;
    }
    var x := dislikedOn.value;
    if GateRefuses(db.channels, channelId.value, actor) {
      return Forbidden, None;
    }
    if StrayLikeFound(db.likes, onModel, db.strictQuery) {
      return BadRequest(AlreadyLiked), None;
    }
    var kind := ParseKind(onModel);
    if kind.None? || !db.State().Has(kind.value, x) {
      return NotFound, None;
    }
    var k := kind.value;
    dropped := DislikeTarget(db, actor.id, x, k);
    var after := db.State().TallyOf(k, x);
    r := Ok(Counts(after.likeCount, after.dislikeCount));
  }

  /** The writes of a successful `addDislike`, from the counter increment on. */
  method DislikeTarget(db: Db, u: Id, x: Id, k: Kind) returns (ghost dropped: Option<Id>)
    requires db.Valid() && db.State().Has(k, x)
    modifies db
    ensures db.Valid()
    ensures var t := old(db.State());
      && (dropped.None? ==> !HasLike(t.likes, u, x, k.Name()))
      && (dropped.Some? ==> dropped.value in t.likes && t.likes[dropped.value] == Like(u, x, k))
      && db.State() == AfterDislike(t, u, x, k, dropped)
      && db.State().Has(k, x)
      && !HasLike(db.likes, u, x, k.Name())
  {
    ghost var t := db.State();
    dropped := None;
    PutDislike(db, u, x, k);
    if HasLike(db.likes, u, x, k.Name()) {
      var l :| l in db.likes && LikeMatches(db.likes[l], u, x, k.Name());
      ghost var t1 := db.State();
      DropLike(db, x, k, l);
      dropped := Some(l);
      NoLikeLeft(t1, u, x, k, l);
    }
  }

  /** Deleting the caller's Like row leaves none: Like rows are unique per caller and target. */
  lemma {:induction false} NoLikeLeft(t: Tables, u: Id, x: Id, k: Kind, l: Id)
    requires t.WellFormed() && t.Has(k, x) && l in t.likes && LikeMatches(t.likes[l], u, x, k.Name())
    ensures !HasLike(LikeDropped(t, x, k, l).likes, u, x, k.Name())
  {
    var after := LikeDropped(t, x, k, l).likes;
    assert t.likes[l] == Like(u, x, k);
    forall m | m in after ensures !LikeMatches(after[m], u, x, k.Name()) {
      assert t.likes[m] == after[m];
    }
  }

  /** The dislike-removing `removeLike`. The Dislike row is deleted first; only then is the
      target looked up, so a target that is gone answers 404 with the row already deleted.
      The counts answered are those from before the decrement. */
  method RemoveDislike(db: Db, actor: Actor, dislikedOn: Option<Id>, onModel: string, channelId: Option<Id>)
    returns (r: Response, ghost removed: Option<Id>)
    requires db.Valid()
    modifies db
    ensures db.Valid()
    ensures dislikedOn.None? || onModel == "" || channelId.None? ==> r == MissingFields
    ensures dislikedOn.Some? && onModel != "" && channelId.Some? ==>
      var t, x := old(db.State()), dislikedOn.value;
      var gate := GateRefuses(t.channels, channelId.value, actor);
      && (gate ==> r == Forbidden)
      && (!gate && !HasDislike(t.dislikes, actor.id, x, onModel) ==> r == BadRequest(NotDisliked))
      && (!gate && HasDislike(t.dislikes, actor.id, x, onModel) ==> r.Ok? || r == NotFound)
    ensures !(r.Ok? || r == NotFound) ==> db.State() == old(db.State()) && removed.None?
    ensures r.Ok? || r == NotFound ==>
      && dislikedOn.Some? && ParseKind(onModel).Some? && removed.Some?
      && var t, x, k, d := old(db.State()), dislikedOn.value, ParseKind(onModel).value, removed.value;
      && d in t.dislikes && DislikeMatches(t.dislikes[d], actor.id, x, onModel)
      && (r == NotFound <==> !t.Has(k, x))
      && (r == NotFound ==> db.State() == t.(dislikes := t.dislikes - {d}))
      && (r.Ok? ==>
            && db.State() == Undisliked(t, x, k, d)
            && db.State().TallyOf(k, x).dislikeCount == t.TallyOf(k, x).dislikeCount - 1
            && r == Ok(Counts(t.TallyOf(k, x).likeCount, t.TallyOf(k, x).dislikeCount)))
  {
    removed := None;
    if dislikedOn.None? || onModel == "" || channelId.None? {
      return MissingFields, None;
    }
    var x := dislikedOn.value;
    if GateRefuses(db.channels, channelId.value, actor) {
      return Forbidden, None;
    }
    if !HasDislike(db.dislikes, actor.id, x, onModel) {
      return BadRequest(NotDisliked), None;
    }
    var d :| d in db.dislikes && DislikeMatches(db.dislikes[d], actor.id, x, onModel);
    removed := Some(d);
    db.DeleteDislikes({d});
    var kind := ParseKind(onModel);
    if kind.None? || !db.State().Has(kind.value, x) {
      return NotFound, removed;
    }
    var k := kind.value;
    var before := db.State().TallyOf(k, x);
    TallyOfBelow(db.State(), k, x);
    db.SetTally(k, x, before.(dislikeCount := before.dislikeCount - 1));
    r := Ok(Counts(before.likeCount, before.dislikeCount));
  }
}
