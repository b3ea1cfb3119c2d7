/** The channel handlers, reached only through the admin gate. */
module Channels {
  import opened Store
  import opened Outcome
  import opened Text
  import opened Counting
  import Posts

  const Open: string := "open"
  const College: string := "college"

  /** `toLowerCase().trim()`, the form in which channel names are stored and looked up. */
  function Normalise(s: string): string {
    Trim(ToLower(s))
  }

  lemma ToLowerOfLower(s: string)
    requires forall i :: 0 <= i < |s| ==> !('A' <= s[i] <= 'Z')
    ensures ToLower(s) == s
  {
  }

  /** A stored name is already in normal form. */
  lemma {:induction false} NormaliseIdempotent(s: string)
    ensures Normalise(Normalise(s)) == Normalise(s)
  {
    var l := ToLower(s);
    var n := Trim(l);
    var i := SkipSpace(l, 0);
    assert forall k :: 0 <= k < |n| ==> n[k] == l[i + k];
    ToLowerOfLower(n);
    TrimIdempotent(l);
  }

  predicate NameTaken(channels: map<Id, Channel>, name: string) {
    exists c :: c in channels && channels[c].name == name
  }

  function ChannelCreated(t: Tables, name: string, channelType: string): Tables {
    t.(channels := t.channels[t.nextId := Channel(name, channelType, [], 0)], nextId := t.nextId + 1)
  }

  function ChannelEdited(t: Tables, c: Id, name: string, channelType: string): Tables
    requires c in t.channels
  {
    t.(channels := t.channels[c := t.channels[c].(name := name, channelType := channelType)])
  }

  /** `Post.find({posted_on: c})`. */
  function PostsIn(posts: map<Id, Post>, c: Id): set<Id> {
    set p | p in posts && posts[p].postedOn == Some(c)
  }

  /** The posts of `ps` written by `u`. */
  function PostsBy(posts: map<Id, Post>, ps: set<Id>, u: Id): set<Id> {
    set p | p in ps && p in posts && posts[p].postedBy == u
  }

  /** Every user's post count lowered by the number of posts of `ps` they wrote. */
  function AuthorsDebited(users: map<Id, User>, posts: map<Id, Post>, ps: set<Id>): map<Id, User> {
    map u | u in users :: users[u].(postCount := users[u].postCount - |PostsBy(posts, ps, u)|)
  }

  /** The channel's posts (those recording it as their channel), the comments on them, the
      replies to those comments and every Like and Dislike row on any of them deleted,
      their authors' post counts lowered, and the channel deleted. */
  function ChannelDeleted(t: Tables, c: Id): Tables {
    var ps := PostsIn(t.posts, c);
    var cs := CommentsOn(t.comments, ps);
    var rs := RepliesOn(t.replies, cs);
    var all := ps + cs + rs;
    t.(users := AuthorsDebited(t.users, t.posts, ps),
       likes := t.likes - LikesOn(t.likes, all),
       dislikes := t.dislikes - DislikesOn(t.dislikes, all),
       replies := t.replies - rs,
       comments := t.comments - cs,
       posts := t.posts - ps,
       channels := t.channels - {c})
  }

  /** `createChannel`: the name is normalised and looked up before the type is checked. */
  method CreateChannel(db: Db, channelName: string, channelType: string) returns (r: Response)
    requires db.Valid()
    modifies db
    ensures db.Valid()
    ensures channelName == [] || channelType == [] ==> r == MissingFields
    ensures channelName != [] && channelType != [] ==>
      var name := Normalise(channelName);
      && (NameTaken(old(db.channels), name) ==> r == BadRequest(ChannelExists))
      && ((!NameTaken(old(db.channels), name) && channelType != Open && channelType != College)
            ==> r == BadRequest(BadChannelType))
      && ((!NameTaken(old(db.channels), name) && (channelType == Open || channelType == College))
            ==> r == Ok(Nothing))
    ensures !r.Ok? ==> db.State() == old(db.State())
    ensures r.Ok? ==> db.State() == ChannelCreated(old(db.State()), Normalise(channelName), channelType)
  {
    if channelName == [] || channelType == [] {
      return MissingFields;
    }
    var name := Normalise(channelName);
    if NameTaken(db.channels, name) {
      return BadRequest(ChannelExists);
    }
    if channelType != Open && channelType != College {
      return BadRequest(BadChannelType);
    }
    var id := db.CreateChannel(Channel(name, channelType, [], 0));
    r := Ok(Nothing);
  }

  /** `editChannel`: the new name is normalised but neither checked for clashes nor is the
      type validated. */
  method EditChannel(db: Db, channelId: Option<Id>, channelName: string, channelType: string) returns (r: Response)
    requires db.Valid()
    modifies db
    ensures db.Valid()
    ensures channelId.None? || channelName == [] || channelType == [] ==> r == MissingFields
    ensures channelId.Some? && channelName != [] && channelType != [] ==>
      && (channelId.value !in old(db.channels) ==> r == NotFound)
      && (channelId.value in old(db.channels) ==> r == Ok(Nothing))
    ensures !r.Ok? ==> db.State() == old(db.State())
    ensures r.Ok? ==>
      && channelId.Some? && channelId.value in old(db.channels)
      && db.State() == ChannelEdited(old(db.State()), channelId.value, Normalise(channelName), channelType)
  {
    if channelId.None? || channelName == [] || channelType == [] {
      return MissingFields;
    }
    var c := channelId.value;
    if c !in db.channels {
      return NotFound;
    }
    var channel := db.channels[c];
    db.SetChannel(c, channel.(name := Normalise(channelName), channelType := channelType));
    r := Ok(Nothing);
  }

  /** Each user of `counts` debited by their count; an id with no user matches nothing.
      `Accounts.Debited` and its companions are the same fold over channels' post counts;
      the two record types share no field accessor, so each keeps its own copy. */
  function Debited(users: map<Id, User>, counts: map<Id, nat>): map<Id, User> {
    map u | u in users :: if u in counts then users[u].(postCount := users[u].postCount - counts[u]) else users[u]
  }

  /** The users after the debits of the keys `ks`, applied one after the other. */
  function DebitedAlong(users: map<Id, User>, counts: map<Id, nat>, ks: seq<Id>): map<Id, User>
    requires forall k :: k in ks ==> k in counts
  {
    if ks == [] then users
    else
      var m := DebitedAlong(users, counts, ks[..|ks| - 1]);
      var u := ks[|ks| - 1];
      if u in m then m[u := m[u].(postCount := m[u].postCount - counts[u])] else m
  }

  /** Debiting distinct keys one after the other debits each listed user once. */
  lemma {:induction false} DebitedAlongOnce(users: map<Id, User>, counts: map<Id, nat>, ks: seq<Id>)
    requires Distinct(ks) && forall k :: k in ks ==> k in counts
    ensures DebitedAlong(users, counts, ks)
         == map u | u in users :: if u in ks then users[u].(postCount := users[u].postCount - counts[u]) else users[u]
  {
    if ks != [] {
      var init := ks[..|ks| - 1];
      assert forall k :: k in init ==> k in ks;
      assert ks == init + [ks[|ks| - 1]];
      DebitedAlongOnce(users, counts, init);
    }
  }

  /** The `User.updateOne(..., {$inc: {post_count: -count}})` of each entry of the count map,
      in its iteration order. */
  method DebitUsers(db: Db, order: seq<Id>, counts: map<Id, nat>)
    requires db.Valid() && Distinct(order) && forall u :: u in order <==> u in counts
    modifies db
    ensures db.Valid()
    ensures db.State() == old(db.State()).(users := Debited(old(db.users), counts))
  {
    ghost var t := db.State();
    for i := 0 to |order|
      invariant db.Valid()
      invariant db.State() == t.(users := DebitedAlong(t.users, counts, order[..i]))
    {
      assert order[..i + 1][..i] == order[..i];
      DebitUser(db, order[i], counts[order[i]]);
    }
    assert order[..|order|] == order;
    DebitedAlongOnce(t.users, counts, order);
  }

  /** One `User.updateOne({_id: u}, {$inc: {post_count: -n}})`. */
  method DebitUser(db: Db, u: Id, n: nat)
    requires db.Valid()
    modifies db
    ensures db.Valid()
    ensures u in old(db.users) ==>
      db.State() == old(db.State()).(users := old(db.users)[u := old(db.users)[u].(postCount := old(db.users)[u].postCount - n)])
    ensures u !in old(db.users) ==> db.State() == old(db.State())
  {
    if u in db.users {
      var user := db.users[u];
      db.SetUser(u, user.(postCount := user.postCount - n));
    }
  }

  /** The count-map loop of `deleteChannel`: one count per author of `ps`, then one debit per
      count. */
  method DebitAuthors(db: Db, ps: set<Id>)
    requires db.Valid() && forall p :: p in ps ==> p in db.posts
    modifies db
    ensures db.Valid()
    ensures db.State() == old(db.State()).(users := AuthorsDebited(old(db.users), old(db.posts), ps))
  {
    var xs := Enumerate(ps);
    var owner := map p | p in ps :: db.posts[p].postedBy;
    var order, counts := CountByOwner(Owners(xs, owner));
    AuthorCounts(xs, ps, owner, counts, db.users, db.posts);
    DebitUsers(db, order, counts);
  }

  /** The counts built over the authors of an enumeration of `ps` debit each user by the
      number of posts of `ps` they wrote. */
  lemma AuthorCounts(xs: seq<Id>, ps: set<Id>, owner: map<Id, Id>, counts: map<Id, nat>,
                     users: map<Id, User>, posts: map<Id, Post>)
    requires Distinct(xs) && (forall x :: x in xs <==> x in ps)
    requires forall p :: p in ps ==> p in posts && p in owner && owner[p] == posts[p].postedBy
    requires forall k :: k in counts <==> k in Owners(xs, owner)
    requires forall k :: k in counts ==> counts[k] == Count(Owners(xs, owner), k)
    ensures Debited(users, counts) == AuthorsDebited(users, posts, ps)
  {
    forall u | u in users
      ensures (if u in counts then counts[u] else 0) == |PostsBy(posts, ps, u)|
    {
      AuthorCount(xs, ps, owner, counts, posts, u);
    }
    DebitedByCounts(users, counts, posts, ps);
  }

  lemma DebitedByCounts(users: map<Id, User>, counts: map<Id, nat>, posts: map<Id, Post>, ps: set<Id>)
    requires forall u :: u in users ==> (if u in counts then counts[u] else 0) == |PostsBy(posts, ps, u)|
    ensures Debited(users, counts) == AuthorsDebited(users, posts, ps)
  {
    var a, b := Debited(users, counts), AuthorsDebited(users, posts, ps);
    assert a.Keys == b.Keys;
    forall u | u in a ensures a[u] == b[u] {
      if u !in counts {
        assert users[u].postCount - 0 == users[u].postCount;
      }
    }
  }

  lemma AuthorCount(xs: seq<Id>, ps: set<Id>, owner: map<Id, Id>, counts: map<Id, nat>, posts: map<Id, Post>, u: Id)
    requires Distinct(xs) && (forall x :: x in xs <==> x in ps)
    requires forall p :: p in ps ==> p in posts && p in owner && owner[p] == posts[p].postedBy
    requires forall k :: k in counts <==> k in Owners(xs, owner)
    requires forall k :: k in counts ==> counts[k] == Count(Owners(xs, owner), k)
    ensures (if u in counts then counts[u] else 0) == |PostsBy(posts, ps, u)|
  {
    CountsAreOwned(xs, ps, owner, counts, u);
    assert (set x | x in ps && owner[x] == u) == PostsBy(posts, ps, u);
  }

  /** `deleteChannel`. */
  method DeleteChannel(db: Db, channelId: Option<Id>) returns (r: Response)
    requires db.Valid()
    modifies db
    ensures db.Valid()
    ensures channelId.None? ==> r == MissingFields
    ensures channelId.Some? ==>
      && (channelId.value !in old(db.channels) ==> r == NotFound)
      && (channelId.value in old(db.channels) ==> r == Ok(Nothing))
    ensures !r.Ok? ==> db.State() == old(db.State())
    ensures r.Ok? ==> channelId.Some? && db.State() == ChannelDeleted(old(db.State()), channelId.value)
  {
    if channelId.None? {
      return MissingFields;
    }
    var c := channelId.value;
    if c !in db.channels {
      return NotFound;
    }
    var ps := PostsIn(db.posts, c);
    var cs := CommentsOn(db.comments, ps);
    var rs := RepliesOn(db.replies, cs);
    var all := ps + cs + rs;
    DebitAuthors(db, ps);
    db.DeleteLikes(LikesOn(db.likes, all));
    db.DeleteDislikes(DislikesOn(db.dislikes, all));
    db.DeleteReplies(rs);
    db.DeleteComments(cs);
    db.DeletePosts(ps);
    db.DeleteChannels({c});
    r := Ok(Nothing);
  }

  /** Once a channel is created, asking for any name with the same normal form is refused. */
  lemma {:induction false} CreatedNameIsTaken(t: Tables, s: string, s': string, channelType: string)
    requires Normalise(s') == Normalise(s)
    ensures NameTaken(ChannelCreated(t, Normalise(s), channelType).channels, Normalise(s'))
    ensures Normalise(ChannelCreated(t, Normalise(s), channelType).channels[t.nextId].name) == Normalise(s)
  {
    NormaliseIdempotent(s);
    assert ChannelCreated(t, Normalise(s), channelType).channels[t.nextId].name == Normalise(s');
  }

  /** `editChannel` does not look names up: it can give a second channel a name in use. */
  lemma {:induction false} EditCanDuplicateName(t: Tables, c: Id, d: Id, channelType: string)
    requires c in t.channels && d in t.channels && c != d
    requires Normalise(t.channels[c].name) == t.channels[c].name
    ensures var after := ChannelEdited(t, d, Normalise(t.channels[c].name), channelType);
      after.channels[c].name == after.channels[d].name
  {
  }

  /** After `deleteChannel` nothing of the channel's posts is left: no post records the
      channel, no comment hangs off a deleted post, no reply off a deleted comment, and no
      reaction points at any of them. */
  lemma {:induction false} DeletedChannelLeavesNothing(t: Tables, c: Id)
    ensures var after := ChannelDeleted(t, c);
      var ps := PostsIn(t.posts, c);
      var cs := CommentsOn(t.comments, ps);
      var rs := RepliesOn(t.replies, cs);
      && c !in after.channels
      && (forall p :: p in after.posts ==> after.posts[p].postedOn != Some(c))
      && (forall x :: x in after.comments ==> after.comments[x].commentedOn !in ps)
      && (forall x :: x in after.replies ==> after.replies[x].repliedOn !in cs)
      && (forall l :: l in after.likes ==> after.likes[l].likedOn !in ps + cs + rs)
      && (forall d :: d in after.dislikes ==> after.dislikes[d].dislikedOn !in ps + cs + rs)
  {
  }

  /** `createPost` never records the channel on the post, so a post created in a channel
      outlives the deletion of that channel, and so does its author's post count. */
  lemma {:induction false} CreatedPostOutlivesChannel(t: Tables, u: Id, title: string, body: string, c: Id)
    requires t.WellFormed() && c in t.channels && PostsIn(t.posts, c) == {}
    ensures var created := Posts.PostCreated(t, u, title, body, Some(c));
      && t.nextId in created.channels[c].posts
      && t.nextId in ChannelDeleted(created, c).posts
      && ChannelDeleted(created, c).users == created.users
  {
    var created := Posts.PostCreated(t, u, title, body, Some(c));
    assert t.nextId !in PostsIn(created.posts, c);
    assert PostsIn(created.posts, c) == {};
    forall v | v in created.users ensures PostsBy(created.posts, {}, v) == {} {
    }
  }
}
