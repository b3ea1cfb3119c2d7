/** The like handlers: Like rows in their own collection, with each target keeping the
    list of its Like row ids. */
module Likes {
  import opened Store
  import opened Outcome

  /** A new Like row `nextId` of `u` on (k, x), its id pushed onto the target's likes. */
  function Liked(t: Tables, u: Id, x: Id, k: Kind): Tables
    requires t.Has(k, x)
  {
    var tl := t.TallyOf(k, x);
    t.WithTally(k, x, tl.(likes := tl.likes + [t.nextId]))
      .(likes := t.likes[t.nextId := Like(u, x, k)], nextId := t.nextId + 1)
  }

  /** The Dislike row `d` pulled from the target's dislikes and deleted. */
  function DislikeCleared(t: Tables, x: Id, k: Kind, d: Id): Tables
    requires t.Has(k, x)
  {
    var tl := t.TallyOf(k, x);
    t.WithTally(k, x, tl.(dislikes := Pull(tl.dislikes, d))).(dislikes := t.dislikes - {d})
  }

  /** The Like row `l` pulled from the target's likes and deleted. */
  function Unliked(t: Tables, x: Id, k: Kind, l: Id): Tables
    requires t.Has(k, x)
  {
    var tl := t.TallyOf(k, x);
    t.WithTally(k, x, tl.(likes := Pull(tl.likes, l))).(likes := t.likes - {l})
  }

  /** `Like.create` followed by the `$push` of its id onto the target. */
  method PushLike(db: Db, u: Id, x: Id, k: Kind)
    requires db.Valid() && db.State().Has(k, x)
    requires forall j :: j in db.likes ==> db.likes[j] != Like(u, x, k)
    modifies db
    ensures db.Valid() && db.State() == Liked(old(db.State()), u, x, k)
  {
    var id := db.CreateLike(Like(u, x, k));
    TallyOfBelow(db.State(), k, x);
    var tl := db.State().TallyOf(k, x);
    db.SetTally(k, x, tl.(likes := tl.likes + [id]));
  }

  /** The `$pull` of Dislike row `d` from the target followed by the row's deletion. */
  method ClearDislike(db: Db, x: Id, k: Kind, d: Id)
    requires db.Valid() && db.State().Has(k, x)
    modifies db
    ensures db.Valid() && db.State() == DislikeCleared(old(db.State()), x, k, d)
  {
    TallyOfBelow(db.State(), k, x);
    var tl := db.State().TallyOf(k, x);
    db.SetTally(k, x, tl.(dislikes := Pull(tl.dislikes, d)));
    db.DeleteDislikes({d});
  }

  /** `addLike`. `cleared` is the Dislike row the handler's `Dislike.findOne` picked, if any. */
  method AddLike(db: Db, actor: Actor, likedOn: Option<Id>, onModel: string)
    returns (r: Response, ghost cleared: Option<Id>)
    requires db.Valid()
    modifies db
    ensures db.Valid()
    ensures likedOn.None? || onModel == "" ==> r == MissingFields
    ensures likedOn.Some? && onModel != "" ==>
      var t, x, kind := old(db.State()), likedOn.value, ParseKind(onModel);
      && (HasLike(t.likes, actor.id, x, onModel) ==> r == BadRequest(AlreadyLiked))
      && (!HasLike(t.likes, actor.id, x, onModel) && kind.None? ==> r == BadRequest(UnknownKind))
      && (!HasLike(t.likes, actor.id, x, onModel) && kind.Some? && !t.Has(kind.value, x) ==> r == NotFound)
      && (!HasLike(t.likes, actor.id, x, onModel) && kind.Some? && t.Has(kind.value, x) ==> r.Ok?)
    ensures !r.Ok? ==> db.State() == old(db.State()) && cleared.None?
    ensures r.Ok? ==>
      && likedOn.Some? && ParseKind(onModel).Some?
      && var t, x, k := old(db.State()), likedOn.value, ParseKind(onModel).value;
      && t.Has(k, x) && !HasLike(t.likes, actor.id, x, onModel)
      && (cleared.None? ==>
            !HasDislike(t.dislikes, actor.id, x, onModel) && db.State() == Liked(t, actor.id, x, k))
      && (cleared.Some? ==>
            && cleared.value in t.dislikes && DislikeMatches(t.dislikes[cleared.value], actor.id, x, onModel)
            && db.State() == DislikeCleared(Liked(t, actor.id, x, k), x, k, cleared.value))
      && r == Ok(Target(db.State().TallyOf(k, x)))
  {
    cleared := None;
    if likedOn.None? || onModel == "" {
      return MissingFields, None;
    }
    var x := likedOn.value;
    if HasLike(db.likes, actor.id, x, onModel) {
      return BadRequest(AlreadyLiked), None;
    }
    var kind := ParseKind(onModel);
    if kind.None? {
      return BadRequest(UnknownKind), None;
    }
    var k := kind.value;
    if !db.State().Has(k, x) {
      return NotFound, None;
    }
    PushLike(db, actor.id, x, k);
    if HasDislike(db.dislikes, actor.id, x, onModel) {
      var d :| d in db.dislikes && DislikeMatches(db.dislikes[d], actor.id, x, onModel);
      ClearDislike(db, x, k, d);
      cleared := Some(d);
    }
    r := Ok(Target(db.State().TallyOf(k, x)));
  }

  /** The `$pull` of Like row `l` from the target followed by the row's deletion. */
  method PullLike(db: Db, x: Id, k: Kind, l: Id)
    requires db.Valid() && db.State().Has(k, x)
    modifies db
    ensures db.Valid() && db.State() == Unliked(old(db.State()), x, k, l)
  {
    TallyOfBelow(db.State(), k, x);
    var tl := db.State().TallyOf(k, x);
    db.SetTally(k, x, tl.(likes := Pull(tl.likes, l)));
    db.DeleteLikes({l});
  }

  /** `removeLike`. `removed` is the caller's Like row on the target, which is unique. */
  method RemoveLike(db: Db, actor: Actor, likedOn: Option<Id>, onModel: string)
    returns (r: Response, ghost removed: Id)
    requires db.Valid()
    modifies db
    ensures db.Valid()
    ensures likedOn.None? || onModel == "" ==> r == MissingFields
    ensures likedOn.Some? && onModel != "" ==>
      var t, x, kind := old(db.State()), likedOn.value, ParseKind(onModel);
      && (kind.None? ==> r == BadRequest(UnknownKind))
      && (kind.Some? && !t.Has(kind.value, x) ==> r == NotFound)
      && (kind.Some? && t.Has(kind.value, x) && !HasLike(t.likes, actor.id, x, onModel) ==> r == BadRequest(NotLiked))
      && (kind.Some? && t.Has(kind.value, x) && HasLike(t.likes, actor.id, x, onModel) ==> r.Ok?)
    ensures !r.Ok? ==> db.State() == old(db.State())
    ensures r.Ok? ==>
      && likedOn.Some? && ParseKind(onModel).Some?
      && var t, x, k := old(db.State()), likedOn.value, ParseKind(onModel).value;
      && t.Has(k, x)
      && removed in t.likes && t.likes[removed] == Like(actor.id, x, k)
      && db.State() == Unliked(t, x, k, removed)
      && r == Ok(Target(db.State().TallyOf(k, x)))
  {
    removed := 0;
    if likedOn.None? || onModel == "" {
      return MissingFields, 0;
    }
    var x := likedOn.value;
    var kind := ParseKind(onModel);
    if kind.None? {
      return BadRequest(UnknownKind), 0;
    }
    var k := kind.value;
    if !db.State().Has(k, x) {
      return NotFound, 0;
    }
    if !HasLike(db.likes, actor.id, x, onModel) {
      return BadRequest(NotLiked), 0;
    }
    var l :| l in db.likes && LikeMatches(db.likes[l], actor.id, x, onModel);
    PullLike(db, x, k, l);
    removed := l;
    r := Ok(Target(db.State().TallyOf(k, x)));
  }

  /** After `addLike` the caller holds a Like row on the target. */
  lemma {:induction false} LikedHoldsLike(t: Tables, u: Id, x: Id, k: Kind)
    requires t.Has(k, x)
    ensures HasLike(Liked(t, u, x, k).likes, u, x, k.Name())
  {
    var n := t.nextId;
    assert n in Liked(t, u, x, k).likes && LikeMatches(Liked(t, u, x, k).likes[n], u, x, k.Name());
  }

  /** Clearing the only matching Dislike row leaves the caller without a dislike on the target. */
  lemma {:induction false} ClearedHoldsNoDislike(t: Tables, u: Id, x: Id, k: Kind, d: Id)
    requires t.Has(k, x) && d in t.dislikes && DislikeMatches(t.dislikes[d], u, x, k.Name())
    requires AtMostOneDislike(t.dislikes, u, x, k.Name())
    ensures !HasDislike(DislikeCleared(t, x, k, d).dislikes, u, x, k.Name())
  {
    var after := DislikeCleared(t, x, k, d).dislikes;
    forall e | e in after ensures !DislikeMatches(after[e], u, x, k.Name()) {
      assert e in t.dislikes && e != d;
    }
  }

  /** After `removeLike` the caller holds no Like row on the target: rows are unique. */
  lemma {:induction false} UnlikedHoldsNoLike(t: Tables, u: Id, x: Id, k: Kind, l: Id)
    requires t.WellFormed() && t.Has(k, x) && l in t.likes && t.likes[l] == Like(u, x, k)
    ensures !HasLike(Unliked(t, x, k, l).likes, u, x, k.Name())
  {
  }

  /** Without a dislike on the target, liking and then unliking it gives back every table:
      only the id counter has moved. */
  lemma {:induction false} LikeThenUnlike(t: Tables, u: Id, x: Id, k: Kind)
    requires t.WellFormed() && t.Has(k, x)
    ensures Unliked(Liked(t, u, x, k), x, k, t.nextId) == t.(nextId := t.nextId + 1)
  {
    var n := t.nextId;
    TallyOfBelow(t, k, x);
    var tl := t.TallyOf(k, x);
    var pushed := tl.(likes := tl.likes + [n]);
    var rows := t.likes[n := Like(u, x, k)];
    PullPushed(tl.likes, n);
    assert pushed.(likes := Pull(pushed.likes, n)) == tl;
    var liked := Liked(t, u, x, k);
    assert liked == t.WithTally(k, x, pushed).(likes := rows, dislikes := t.dislikes, nextId := n + 1);
    WithTallyCommutes(t.WithTally(k, x, pushed), k, x, tl, rows, t.dislikes, n + 1);
    WithTallyTwice(t, k, x, pushed, tl);
    WithTallyUnchanged(t, k, x);
    assert liked.WithTally(k, x, tl) == t.(likes := rows, nextId := n + 1);
    assert rows - {n} == t.likes;
  }

  /** The two handlers composed: like a target, then unlike it. */
  method LikeThenUnlikeRestores(db: Db, actor: Actor, x: Id, k: Kind)
    requires db.Valid() && db.State().Has(k, x)
    requires !HasLike(db.likes, actor.id, x, k.Name()) && !HasDislike(db.dislikes, actor.id, x, k.Name())
    modifies db
    ensures db.Valid() && db.State() == old(db.State()).(nextId := old(db.nextId) + 1)
  {
    ParseName(k);
    ghost var t := db.State();
    var liked, cleared := AddLike(db, actor, Some(x), k.Name());
    assert liked.Ok? && cleared.None?;
    ghost var t1 := Liked(t, actor.id, x, k);
    assert db.State() == t1;
    LikedHoldsLike(t, actor.id, x, k);
    assert t1.Has(k, x);
    var unliked, removed := RemoveLike(db, actor, Some(x), k.Name());
    assert unliked.Ok?;
    assert t1.likes[t.nextId] == Like(actor.id, x, k);
    assert removed == t.nextId;
    LikeThenUnlike(t, actor.id, x, k);
  }
}
