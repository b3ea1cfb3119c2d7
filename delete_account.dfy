/** `deleteAccount`: an account and everything written by it or hanging off its posts. */
module Accounts {
  import opened Store
  import opened Outcome
  import opened Counting
  import Posts

  function PostsOf(posts: map<Id, Post>, u: Id): set<Id> {
    set p | p in posts && posts[p].postedBy == u
  }

  function CommentsBy(comments: map<Id, Comment>, u: Id): set<Id> {
    set c | c in comments && comments[c].commentBy == u
  }

  function RepliesBy(replies: map<Id, Reply>, u: Id): set<Id> {
    set r | r in replies && replies[r].repliedBy == u
  }

  function LikesBy(likes: map<Id, Like>, u: Id): set<Id> {
    set l | l in likes && likes[l].likedBy == u
  }

  function DislikesBy(dislikes: map<Id, Dislike>, u: Id): set<Id> {
    set d | d in dislikes && dislikes[d].dislikedBy == u
  }

  /** Some post of `ps` records no channel: reading its channel id throws. */
  predicate SomeUnplaced(posts: map<Id, Post>, ps: set<Id>) {
    exists p :: p in ps && p in posts && posts[p].postedOn.None?
  }

  /** The posts of `ps` recorded on channel `c`. */
  function PostsOnChannel(posts: map<Id, Post>, ps: set<Id>, c: Id): set<Id> {
    set p | p in ps && p in posts && posts[p].postedOn == Some(c)
  }

  /** Every channel's post count lowered by the number of posts of `ps` recorded on it. */
  function ChannelsDebited(channels: map<Id, Channel>, posts: map<Id, Post>, ps: set<Id>): map<Id, Channel> {
    map c | c in channels :: channels[c].(postCount := channels[c].postCount - |PostsOnChannel(posts, ps, c)|)
  }

  /** The user's posts; the comments on those posts or by the user; the replies to those
      comments or by the user; every Like and Dislike row by the user or on any of these;
      all deleted with the user, and the channels' post counts lowered. Channel and post
      lists keep the ids they held. */
  function AccountDeleted(t: Tables, u: Id): Tables {
    var ps := PostsOf(t.posts, u);
    var cs := CommentsOn(t.comments, ps) + CommentsBy(t.comments, u);
    var rs := RepliesOn(t.replies, cs) + RepliesBy(t.replies, u);
    var all := ps + cs + rs;
    t.(likes := t.likes - (LikesBy(t.likes, u) + LikesOn(t.likes, all)),
       dislikes := t.dislikes - (DislikesBy(t.dislikes, u) + DislikesOn(t.dislikes, all)),
       replies := t.replies - rs,
       comments := t.comments - cs,
       channels := ChannelsDebited(t.channels, t.posts, ps),
       posts := t.posts - ps,
       users := t.users - {u})
  }

  /** `deleteAccount`: an admin, a super admin or the account's owner may delete it. */
  method DeleteAccount(db: Db, actor: Actor, userId: Option<Id>) returns (r: Response)
    requires db.Valid()
    modifies db
    ensures db.Valid()
    ensures userId.None? ==> r == MissingFields
    ensures userId.Some? ==>
      var t, u := old(db.State()), userId.value;
      var allowed := IsElevated(actor.role) || u == actor.id;
      && (!allowed ==> r == Forbidden)
      && ((allowed && u !in t.users) ==> r == NotFound)
      && ((allowed && u in t.users && SomeUnplaced(t.posts, PostsOf(t.posts, u))) ==> r == ServerError)
      && ((allowed && u in t.users && !SomeUnplaced(t.posts, PostsOf(t.posts, u))) ==> r == Ok(Nothing))
    ensures !r.Ok? ==> db.State() == old(db.State())
    ensures r.Ok? ==> userId.Some? && db.State() == AccountDeleted(old(db.State()), userId.value)
  {
    if userId.None? {
      return MissingFields;
    }
    var u := userId.value;
    if !(IsElevated(actor.role) || u == actor.id) {
      return Forbidden;
    }
    if u !in db.users {
      return NotFound;
    }
    var ps := PostsOf(db.posts, u);
    if SomeUnplaced(db.posts, ps) {
      return ServerError;
    }
    var cs := CommentsOn(db.comments, ps) + CommentsBy(db.comments, u);
    var rs := RepliesOn(db.replies, cs) + RepliesBy(db.replies, u);
    var all := ps + cs + rs;
    DebitChannelsOf(db, ps);
    db.DeleteLikes(LikesBy(db.likes, u) + LikesOn(db.likes, all));
    db.DeleteDislikes(DislikesBy(db.dislikes, u) + DislikesOn(db.dislikes, all));
    db.DeleteReplies(rs);
    db.DeleteComments(cs);
    db.DeletePosts(ps);
    db.DeleteUsers({u});
    r := Ok(Nothing);
  }

  /** Each channel of `counts` debited by its count; an id with no channel matches nothing.
      The same fold as `Channels.Debited`, over channels instead of users. */
  function Debited(channels: map<Id, Channel>, counts: map<Id, nat>): map<Id, Channel> {
    map c | c in channels :: if c in counts then channels[c].(postCount := channels[c].postCount - counts[c]) else channels[c]
  }

  /** The channels after the debits of the keys `ks`, applied one after the other. */
  function DebitedAlong(channels: map<Id, Channel>, counts: map<Id, nat>, ks: seq<Id>): map<Id, Channel>
    requires forall k :: k in ks ==> k in counts
  {
    if ks == [] then channels
    else
      var m := DebitedAlong(channels, counts, ks[..|ks| - 1]);
      var c := ks[|ks| - 1];
      if c in m then m[c := m[c].(postCount := m[c].postCount - counts[c])] else m
  }

  /** Debiting distinct keys one after the other debits each listed channel once. */
  lemma {:induction false} DebitedAlongOnce(channels: map<Id, Channel>, counts: map<Id, nat>, ks: seq<Id>)
    requires Distinct(ks) && forall k :: k in ks ==> k in counts
    ensures DebitedAlong(channels, counts, ks)
         == map c | c in channels :: if c in ks then channels[c].(postCount := channels[c].postCount - counts[c]) else channels[c]
  {
    if ks != [] {
      var init := ks[..|ks| - 1];
      assert forall k :: k in init ==> k in ks;
      assert ks == init + [ks[|ks| - 1]];
      DebitedAlongOnce(channels, counts, init);
    }
  }

  /** The `Channel.updateOne(..., {$inc: {post_count: -count}})` of each entry of the count
      map, in its iteration order. */
  method DebitChannels(db: Db, order: seq<Id>, counts: map<Id, nat>)
    requires db.Valid() && Distinct(order) && forall c :: c in order <==> c in counts
    modifies db
    ensures db.Valid()
    ensures db.State() == old(db.State()).(channels := Debited(old(db.channels), counts))
  {
    ghost var t := db.State();
    for i := 0 to |order|
      invariant db.Valid()
      invariant db.State() == t.(channels := DebitedAlong(t.channels, counts, order[..i]))
    {
      assert order[..i + 1][..i] == order[..i];
      DebitChannel(db, order[i], counts[order[i]]);
    }
    assert order[..|order|] == order;
    DebitedAlongOnce(t.channels, counts, order);
  }

  /** One `Channel.updateOne({_id: c}, {$inc: {post_count: -n}})`. */
  method DebitChannel(db: Db, c: Id, n: nat)
    requires db.Valid()
    modifies db
    ensures db.Valid()
    ensures c in old(db.channels) ==>
      db.State() == old(db.State()).(channels := old(db.channels)[c := old(db.channels)[c].(postCount := old(db.channels)[c].postCount - n)])
    ensures c !in old(db.channels) ==> db.State() == old(db.State())
  {
    if c in db.channels {
      var channel := db.channels[c];
      assert Below(channel.posts, db.nextId);
      db.SetChannel(c, channel.(postCount := channel.postCount - n));
    }
  }

  /** The count-map loop of `deleteAccount`: one count per channel of the user's posts,
      then one debit per count. */
  method DebitChannelsOf(db: Db, ps: set<Id>)
    requires db.Valid() && forall p :: p in ps ==> p in db.posts && db.posts[p].postedOn.Some?
    modifies db
    ensures db.Valid()
    ensures db.State() == old(db.State()).(channels := ChannelsDebited(old(db.channels), old(db.posts), ps))
  {
    var xs := Enumerate(ps);
    var owner := map p | p in ps :: db.posts[p].postedOn.value;
    var order, counts := CountByOwner(Owners(xs, owner));
    forall c | c in db.channels
      ensures (if c in counts then counts[c] else 0) == |PostsOnChannel(db.posts, ps, c)|
    {
      ChannelCount(xs, ps, owner, counts, db.posts, c);
    }
    DebitedByCounts(db.channels, counts, db.posts, ps);
    DebitChannels(db, order, counts);
  }

  lemma ChannelCount(xs: seq<Id>, ps: set<Id>, owner: map<Id, Id>, counts: map<Id, nat>, posts: map<Id, Post>, c: Id)
    requires Distinct(xs) && (forall x :: x in xs <==> x in ps)
    requires forall p :: p in ps ==> p in posts && posts[p].postedOn.Some? && p in owner && owner[p] == posts[p].postedOn.value
    requires forall k :: k in counts <==> k in Owners(xs, owner)
    requires forall k :: k in counts ==> counts[k] == Count(Owners(xs, owner), k)
    ensures (if c in counts then counts[c] else 0) == |PostsOnChannel(posts, ps, c)|
  {
    CountsAreOwned(xs, ps, owner, counts, c);
    assert (set x | x in ps && owner[x] == c) == PostsOnChannel(posts, ps, c);
  }

  lemma DebitedByCounts(channels: map<Id, Channel>, counts: map<Id, nat>, posts: map<Id, Post>, ps: set<Id>)
    requires forall c :: c in channels ==> (if c in counts then counts[c] else 0) == |PostsOnChannel(posts, ps, c)|
    ensures Debited(channels, counts) == ChannelsDebited(channels, posts, ps)
  {
    var a, b := Debited(channels, counts), ChannelsDebited(channels, posts, ps);
    assert a.Keys == b.Keys;
    forall c | c in a ensures a[c] == b[c] {
      if c !in counts {
        assert channels[c].postCount - 0 == channels[c].postCount;
      }
    }
  }

  /** After `deleteAccount` nothing written by the user is left, nor anything hanging off
      their posts; posts and channels still list the ids of what was deleted. */
  lemma {:induction false} DeletedAccountLeavesNothing(t: Tables, u: Id)
    ensures var after := AccountDeleted(t, u);
      && u !in after.users
      && (forall p :: p in after.posts ==> after.posts[p].postedBy != u)
      && (forall c :: c in after.comments ==> after.comments[c].commentBy != u && after.comments[c].commentedOn !in PostsOf(t.posts, u))
      && (forall x :: x in after.replies ==> after.replies[x].repliedBy != u)
      && (forall l :: l in after.likes ==> after.likes[l].likedBy != u)
      && (forall d :: d in after.dislikes ==> after.dislikes[d].dislikedBy != u)
      && (forall c :: c in after.channels ==> after.channels[c].posts == t.channels[c].posts)
  {
  }

  /** A post made through `createPost` records no channel, so once a user has one, every
      request to delete their account that gets past the checks ends in a server error. */
  lemma {:induction false} CreatedPostBlocksDeletion(t: Tables, u: Id, title: string, body: string, channelId: Option<Id>)
    ensures var created := Posts.PostCreated(t, u, title, body, channelId);
      SomeUnplaced(created.posts, PostsOf(created.posts, u))
  {
    var created := Posts.PostCreated(t, u, title, body, channelId);
    assert t.nextId in PostsOf(created.posts, u);
  }
}
