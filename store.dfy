/** The document store behind the controllers: one table per collection (users, channels,
    posts, comments, replies, Like rows, Dislike rows) plus the admin audit log, with the
    record shapes the controllers read and write. */
module Store {

  type Id = nat

  datatype Option<T> = None | Some(value: T)

  const Student: string := "student"
  const Admin: string := "admin"
  const SuperAdmin: string := "super_admin"

  /** The roles the admin routes accept. */
  predicate IsElevated(role: string) {
    role == Admin || role == SuperAdmin
  }

  /** The `on_model` tag of a reaction: which collection its target lives in. */
  datatype Kind = PostKind | CommentKind | ReplyKind {
    function Name(): string {
      match this
      case PostKind => "Post"
      case CommentKind => "Comment"
      case ReplyKind => "Reply"
    }
  }

  /** The controllers' dispatch on `on_model`: only the three collection names select a target. */
  function ParseKind(onModel: string): (k: Option<Kind>)
    ensures k.Some? <==> onModel == "Post" || onModel == "Comment" || onModel == "Reply"
    ensures k.Some? ==> k.value.Name() == onModel
  {
    if onModel == "Post" then Some(PostKind)
    else if onModel == "Comment" then Some(CommentKind)
    else if onModel == "Reply" then Some(ReplyKind)
    else None
  }

  lemma ParseName(k: Kind)
    ensures ParseKind(k.Name()) == Some(k) && k.Name() != ""
  {
  }

  /** The authenticated caller, as the access token describes it. */
  datatype Actor = Actor(id: Id, role: string, privateMember: bool)

  datatype User = User(role: string, postCount: int)

  /** `channelType` is the channel's `type` field ("open" or "college"). */
  datatype Channel = Channel(name: string, channelType: string, posts: seq<Id>, postCount: int)

  /** The reaction fields every target carries: id lists and the two counters. */
  datatype Tally = Tally(likes: seq<Id>, dislikes: seq<Id>, likeCount: int, dislikeCount: int)

  const NoReactions: Tally := Tally([], [], 0, 0)

  /** `postedOn` is the `posted_on` field, absent on posts `createPost` makes. */
  datatype Post = Post(title: string, body: string, postedBy: Id, postedOn: Option<Id>, comments: seq<Id>, tally: Tally)

  datatype Comment = Comment(body: string, commentBy: Id, commentedOn: Id, replies: seq<Id>, tally: Tally)

  /** `root` is the post the parent comment belongs to. */
  datatype Reply = Reply(body: string, repliedBy: Id, repliedOn: Id, root: Id, tally: Tally)

  datatype Like = Like(likedBy: Id, likedOn: Id, onModel: Kind)

  datatype Dislike = Dislike(dislikedBy: Id, dislikedOn: Id, onModel: Kind)

  datatype Action = Promote | Demote

  datatype LogEntry = LogEntry(action: Action, performedBy: Id, target: Id)

  /** Every id in `s` was handed out before `n`. */
  predicate Below(s: seq<Id>, n: nat) {
    forall y :: y in s ==> y < n
  }

  predicate TallyBelow(t: Tally, n: nat) {
    Below(t.likes, n) && Below(t.dislikes, n)
  }

  /** `$pull`: every occurrence of `x` removed, the rest in order. */
  function Pull(s: seq<Id>, x: Id): (r: seq<Id>)
    ensures |r| <= |s|
    ensures forall y :: y in r <==> y in s && y != x
    ensures x !in s ==> r == s
  {
    if s == [] then []
    else if s[0] == x then Pull(s[1..], x)
    else [s[0]] + Pull(s[1..], x)
  }

  /** `$pull` keeps every other id as often as it occurred and drops every `x`. */
  lemma {:induction false} PullMultiset(s: seq<Id>, x: Id)
    ensures multiset(Pull(s, x)) == multiset(s)[x := 0]
  {
    if s != [] {
      assert s == [s[0]] + s[1..];
      PullMultiset(s[1..], x);
    }
  }

  /** `$pull` works element by element: pulling from a concatenation pulls from each part
      and keeps the parts in order, so the ids left keep their order and multiplicity. */
  lemma {:induction false} PullConcat(a: seq<Id>, b: seq<Id>, x: Id)
    ensures Pull(a + b, x) == Pull(a, x) + Pull(b, x)
    ensures Pull([x], x) == [] && forall y :: y != x ==> Pull([y], x) == [y]
  {
    if a == [] {
      assert a + b == b;
    } else {
      assert (a + b)[0] == a[0] && (a + b)[1..] == a[1..] + b;
      PullConcat(a[1..], b, x);
      if a[0] != x {
        assert Pull(a + b, x) == [a[0]] + (Pull(a[1..], x) + Pull(b, x));
      }
    }
    assert [x][1..] == [];
  }

  /** Pushing a fresh id and pulling it again gives back the list. */
  lemma {:induction false} PullPushed(s: seq<Id>, x: Id)
    requires x !in s
    ensures Pull(s + [x], x) == s
  {
    if s == [] {
    } else {
      assert (s + [x])[1..] == s[1..] + [x];
      PullPushed(s[1..], x);
    }
  }

  /** A row of the Like collection matches the filter {liked_by: u, liked_on: x, on_model}. */
  predicate LikeMatches(l: Like, u: Id, x: Id, onModel: string) {
    l.likedBy == u && l.likedOn == x && l.onModel.Name() == onModel
  }

  predicate DislikeMatches(d: Dislike, u: Id, x: Id, onModel: string) {
    d.dislikedBy == u && d.dislikedOn == x && d.onModel.Name() == onModel
  }

  predicate HasLike(likes: map<Id, Like>, u: Id, x: Id, onModel: string) {
    exists l :: l in likes && LikeMatches(likes[l], u, x, onModel)
  }

  predicate HasDislike(dislikes: map<Id, Dislike>, u: Id, x: Id, onModel: string) {
    exists d :: d in dislikes && DislikeMatches(dislikes[d], u, x, onModel)
  }

  /** At most one Like row per (user, target, kind). */
  predicate UniqueLikes(likes: map<Id, Like>) {
    forall l, m :: l in likes && m in likes && likes[l] == likes[m] ==> l == m
  }

  /** At most one Dislike row matches (u, x, onModel). */
  predicate AtMostOneDislike(dislikes: map<Id, Dislike>, u: Id, x: Id, onModel: string) {
    forall d, e ::
      (d in dislikes && e in dislikes && DislikeMatches(dislikes[d], u, x, onModel)
       && DislikeMatches(dislikes[e], u, x, onModel)) ==> d == e
  }

  /** `Comment.find({commented_on: {$in: ps}})`. */
  function CommentsOn(comments: map<Id, Comment>, ps: set<Id>): set<Id> {
    set c | c in comments && comments[c].commentedOn in ps
  }

  /** `Reply.find({replied_on: {$in: cs}})`. */
  function RepliesOn(replies: map<Id, Reply>, cs: set<Id>): set<Id> {
    set r | r in replies && replies[r].repliedOn in cs
  }

  /** The Like rows on any document of `ids`. */
  function LikesOn(likes: map<Id, Like>, ids: set<Id>): set<Id> {
    set l | l in likes && likes[l].likedOn in ids
  }

  function DislikesOn(dislikes: map<Id, Dislike>, ids: set<Id>): set<Id> {
    set d | d in dislikes && dislikes[d].dislikedOn in ids
  }

  /** The whole store as a value. */
  datatype Tables = Tables(
    users: map<Id, User>,
    channels: map<Id, Channel>,
    posts: map<Id, Post>,
    comments: map<Id, Comment>,
    replies: map<Id, Reply>,
    likes: map<Id, Like>,
    dislikes: map<Id, Dislike>,
    logs: seq<LogEntry>,
    nextId: nat)
  {
    /** A document of kind `k` with id `x` exists. */
    predicate Has(k: Kind, x: Id) {
      match k
      case PostKind => x in posts
      case CommentKind => x in comments
      case ReplyKind => x in replies
    }

    function TallyOf(k: Kind, x: Id): Tally
      requires Has(k, x)
    {
      match k
      case PostKind => posts[x].tally
      case CommentKind => comments[x].tally
      case ReplyKind => replies[x].tally
    }

    /** The store with the reaction fields of target (k, x) replaced. */
    function WithTally(k: Kind, x: Id, t: Tally): (r: Tables)
      requires Has(k, x)
      ensures r.Has(k, x) && r.TallyOf(k, x) == t
      ensures forall j :: r.Has(k, j) <==> Has(k, j)
    {
      match k
      case PostKind => this.(posts := posts[x := posts[x].(tally := t)])
      case CommentKind => this.(comments := comments[x := comments[x].(tally := t)])
      case ReplyKind => this.(replies := replies[x := replies[x].(tally := t)])
    }

    /** Every key of every table, and every id inside a list, was handed out before
        `nextId`; and no user holds two Like rows on the same target. The reference
        fields (`commentedOn`, `likedOn`, `postedBy`, ...) are not bounded: authors come
        from the caller's token, which need not name a stored user. */
    predicate WellFormed() {
      && UsersBelow(users, nextId)
      && ChannelsBelow(channels, nextId)
      && PostsBelow(posts, nextId)
      && CommentsBelow(comments, nextId)
      && RepliesBelow(replies, nextId)
      && KeysBelow(likes.Keys, nextId)
      && KeysBelow(dislikes.Keys, nextId)
      && UniqueLikes(likes)
    }
  }

  predicate KeysBelow(ks: set<Id>, n: nat) {
    forall k :: k in ks ==> k < n
  }

  predicate UsersBelow(users: map<Id, User>, n: nat) {
    KeysBelow(users.Keys, n)
  }

  predicate ChannelsBelow(channels: map<Id, Channel>, n: nat) {
    forall c :: c in channels ==> c < n && Below(channels[c].posts, n)
  }

  predicate PostsBelow(posts: map<Id, Post>, n: nat) {
    forall p :: p in posts ==> p < n && Below(posts[p].comments, n) && TallyBelow(posts[p].tally, n)
  }

  predicate CommentsBelow(comments: map<Id, Comment>, n: nat) {
    forall c :: c in comments ==> c < n && Below(comments[c].replies, n) && TallyBelow(comments[c].tally, n)
  }

  predicate RepliesBelow(replies: map<Id, Reply>, n: nat) {
    forall r :: r in replies ==> r < n && TallyBelow(replies[r].tally, n)
  }

  lemma TallyOfBelow(t: Tables, k: Kind, x: Id)
    requires t.WellFormed() && t.Has(k, x)
    ensures x < t.nextId && TallyBelow(t.TallyOf(k, x), t.nextId)
  {
  }

  lemma WithTallyUnchanged(t: Tables, k: Kind, x: Id)
    requires t.Has(k, x)
    ensures t.WithTally(k, x, t.TallyOf(k, x)) == t
  {
  }

  lemma WithTallyTwice(t: Tables, k: Kind, x: Id, a: Tally, b: Tally)
    requires t.Has(k, x)
    ensures t.WithTally(k, x, a).WithTally(k, x, b) == t.WithTally(k, x, b)
  {
  }

  /** Replacing a tally commutes with replacing the reaction ledgers and the id counter. */
  lemma WithTallyCommutes(t: Tables, k: Kind, x: Id, a: Tally, likes: map<Id, Like>, dislikes: map<Id, Dislike>, n: nat)
    requires t.Has(k, x)
    ensures t.(likes := likes, dislikes := dislikes, nextId := n).WithTally(k, x, a)
         == t.WithTally(k, x, a).(likes := likes, dislikes := dislikes, nextId := n)
  {
  }

  lemma WithTallyWellFormed(t: Tables, k: Kind, x: Id, tl: Tally)
    requires t.WellFormed() && t.Has(k, x) && TallyBelow(tl, t.nextId)
    ensures t.WithTally(k, x, tl).WellFormed()
  {
  }

  lemma BelowGrows(s: seq<Id>, n: nat)
    requires Below(s, n)
    ensures Below(s, n + 1)
  {
  }

  lemma ChannelsGrow(channels: map<Id, Channel>, n: nat)
    requires ChannelsBelow(channels, n)
    ensures ChannelsBelow(channels, n + 1)
  {
    forall c | c in channels ensures Below(channels[c].posts, n + 1) {
      BelowGrows(channels[c].posts, n);
    }
  }

  lemma PostsGrow(posts: map<Id, Post>, n: nat)
    requires PostsBelow(posts, n)
    ensures PostsBelow(posts, n + 1)
  {
    forall p | p in posts ensures Below(posts[p].comments, n + 1) && TallyBelow(posts[p].tally, n + 1) {
      BelowGrows(posts[p].comments, n);
      BelowGrows(posts[p].tally.likes, n);
      BelowGrows(posts[p].tally.dislikes, n);
    }
  }

  lemma CommentsGrow(comments: map<Id, Comment>, n: nat)
    requires CommentsBelow(comments, n)
    ensures CommentsBelow(comments, n + 1)
  {
    forall c | c in comments ensures Below(comments[c].replies, n + 1) && TallyBelow(comments[c].tally, n + 1) {
      BelowGrows(comments[c].replies, n);
      BelowGrows(comments[c].tally.likes, n);
      BelowGrows(comments[c].tally.dislikes, n);
    }
  }

  lemma RepliesGrow(replies: map<Id, Reply>, n: nat)
    requires RepliesBelow(replies, n)
    ensures RepliesBelow(replies, n + 1)
  {
    forall r | r in replies ensures TallyBelow(replies[r].tally, n + 1) {
      BelowGrows(replies[r].tally.likes, n);
      BelowGrows(replies[r].tally.dislikes, n);
    }
  }

  /** Handing out one more id keeps every id below the counter. */
  lemma GrowWellFormed(t: Tables)
    requires t.WellFormed()
    ensures t.(nextId := t.nextId + 1).WellFormed()
  {
    ChannelsGrow(t.channels, t.nextId);
    PostsGrow(t.posts, t.nextId);
    CommentsGrow(t.comments, t.nextId);
    RepliesGrow(t.replies, t.nextId);
  }

  lemma InsertLikeWellFormed(t: Tables, l: Like)
    requires t.WellFormed() && forall k :: k in t.likes ==> t.likes[k] != l
    ensures t.(likes := t.likes[t.nextId := l], nextId := t.nextId + 1).WellFormed()
  {
    GrowWellFormed(t);
  }

  lemma InsertPostWellFormed(t: Tables, p: Post)
    requires t.WellFormed() && Below(p.comments, t.nextId) && TallyBelow(p.tally, t.nextId)
    ensures t.(posts := t.posts[t.nextId := p], nextId := t.nextId + 1).WellFormed()
  {
    GrowWellFormed(t);
    BelowGrows(p.comments, t.nextId);
    BelowGrows(p.tally.likes, t.nextId);
    BelowGrows(p.tally.dislikes, t.nextId);
  }

  lemma InsertCommentWellFormed(t: Tables, c: Comment)
    requires t.WellFormed() && Below(c.replies, t.nextId) && TallyBelow(c.tally, t.nextId)
    ensures t.(comments := t.comments[t.nextId := c], nextId := t.nextId + 1).WellFormed()
  {
    GrowWellFormed(t);
    BelowGrows(c.replies, t.nextId);
    BelowGrows(c.tally.likes, t.nextId);
    BelowGrows(c.tally.dislikes, t.nextId);
  }

  lemma InsertReplyWellFormed(t: Tables, r: Reply)
    requires t.WellFormed() && TallyBelow(r.tally, t.nextId)
    ensures t.(replies := t.replies[t.nextId := r], nextId := t.nextId + 1).WellFormed()
  {
    GrowWellFormed(t);
    BelowGrows(r.tally.likes, t.nextId);
    BelowGrows(r.tally.dislikes, t.nextId);
  }

  lemma InsertChannelWellFormed(t: Tables, c: Channel)
    requires t.WellFormed() && Below(c.posts, t.nextId)
    ensures t.(channels := t.channels[t.nextId := c], nextId := t.nextId + 1).WellFormed()
  {
    GrowWellFormed(t);
    BelowGrows(c.posts, t.nextId);
  }

  lemma InsertDislikeWellFormed(t: Tables, d: Dislike)
    requires t.WellFormed()
    ensures t.(dislikes := t.dislikes[t.nextId := d], nextId := t.nextId + 1).WellFormed()
  {
    GrowWellFormed(t);
  }

  /** The database connection: each collection is a field the controllers update in place.
      Every method below is one query of the object-document mapper. */
  class Db {
    /** Whether the store drops filter paths the collection's records never carry
        (the `strictQuery` setting of the object-document mapper) instead of matching them. */
    const strictQuery: bool
    var users: map<Id, User>
    var channels: map<Id, Channel>
    var posts: map<Id, Post>
    var comments: map<Id, Comment>
    var replies: map<Id, Reply>
    var likes: map<Id, Like>
    var dislikes: map<Id, Dislike>
    var logs: seq<LogEntry>
    var nextId: nat

    function State(): Tables
      reads this
    {
      Tables(users, channels, posts, comments, replies, likes, dislikes, logs, nextId)
    }

    predicate Valid()
      reads this
    {
      State().WellFormed()
    }

    constructor (initial: Tables, strictQuery: bool)
      requires initial.WellFormed()
      ensures Valid() && State() == initial && this.strictQuery == strictQuery
    {
      this.strictQuery := strictQuery;
      users, channels, posts, comments, replies := initial.users, initial.channels, initial.posts, initial.comments, initial.replies;
      likes, dislikes, logs, nextId := initial.likes, initial.dislikes, initial.logs, initial.nextId;
    }

    /** `findByIdAndUpdate` on the reaction fields of target (k, x). */
    method SetTally(k: Kind, x: Id, t: Tally)
      requires Valid() && State().Has(k, x) && TallyBelow(t, nextId)
      modifies this
      ensures Valid() && State() == old(State()).WithTally(k, x, t)
    {
      ghost var t' := State().WithTally(k, x, t);
      WithTallyWellFormed(State(), k, x, t);
      match k {
        case PostKind => posts := posts[x := posts[x].(tally := t)];
        case CommentKind => comments := comments[x := comments[x].(tally := t)];
        case ReplyKind => replies := replies[x := replies[x].(tally := t)];
      }
      assert State() == t';
    }

    /** `Like.create`: a fresh row, which no existing row may equal. */
    method CreateLike(l: Like) returns (id: Id)
      requires Valid() && forall k :: k in likes ==> likes[k] != l
      modifies this
      ensures Valid() && id == old(nextId)
      ensures State() == old(State()).(likes := old(likes)[id := l], nextId := id + 1)
    {
      ghost var t := State();
      ghost var t' := t.(likes := t.likes[t.nextId := l], nextId := t.nextId + 1);
      InsertLikeWellFormed(t, l);
      id := nextId;
      likes, nextId := likes[id := l], nextId + 1;
      assert State() == t';
    }

    /** `Like.deleteMany` / `findByIdAndDelete`: the rows `ids` removed. */
    method DeleteLikes(ids: set<Id>)
      requires Valid()
      modifies this
      ensures Valid() && State() == old(State()).(likes := old(likes) - ids)
    {
      likes := likes - ids;
    }

    method CreateDislike(d: Dislike) returns (id: Id)
      requires Valid()
      modifies this
      ensures Valid() && id == old(nextId)
      ensures State() == old(State()).(dislikes := old(dislikes)[id := d], nextId := id + 1)
    {
      ghost var t := State();
      ghost var t' := t.(dislikes := t.dislikes[t.nextId := d], nextId := t.nextId + 1);
      InsertDislikeWellFormed(t, d);
      id := nextId;
      dislikes, nextId := dislikes[id := d], nextId + 1;
      assert State() == t';
    }

    method DeleteDislikes(ids: set<Id>)
      requires Valid()
      modifies this
      ensures Valid() && State() == old(State()).(dislikes := old(dislikes) - ids)
    {
      dislikes := dislikes - ids;
    }

    method CreatePost(p: Post) returns (id: Id)
      requires Valid() && Below(p.comments, nextId) && TallyBelow(p.tally, nextId)
      modifies this
      ensures Valid() && id == old(nextId)
      ensures State() == old(State()).(posts := old(posts)[id := p], nextId := id + 1)
    {
      ghost var t := State();
      ghost var t' := t.(posts := t.posts[t.nextId := p], nextId := t.nextId + 1);
      InsertPostWellFormed(t, p);
      id := nextId;
      posts, nextId := posts[id := p], nextId + 1;
      assert State() == t';
    }

    method SetPost(x: Id, p: Post)
      requires Valid() && x in posts && Below(p.comments, nextId) && TallyBelow(p.tally, nextId)
      modifies this
      ensures Valid() && State() == old(State()).(posts := old(posts)[x := p])
    {
      posts := posts[x := p];
    }

    method DeletePosts(ids: set<Id>)
      requires Valid()
      modifies this
      ensures Valid() && State() == old(State()).(posts := old(posts) - ids)
    {
      posts := posts - ids;
    }

    method CreateComment(c: Comment) returns (id: Id)
      requires Valid() && Below(c.replies, nextId) && TallyBelow(c.tally, nextId)
      modifies this
      ensures Valid() && id == old(nextId)
      ensures State() == old(State()).(comments := old(comments)[id := c], nextId := id + 1)
    {
      ghost var t := State();
      ghost var t' := t.(comments := t.comments[t.nextId := c], nextId := t.nextId + 1);
      InsertCommentWellFormed(t, c);
      id := nextId;
      comments, nextId := comments[id := c], nextId + 1;
      assert State() == t';
    }

    method SetComment(x: Id, c: Comment)
      requires Valid() && x in comments && Below(c.replies, nextId) && TallyBelow(c.tally, nextId)
      modifies this
      ensures Valid() && State() == old(State()).(comments := old(comments)[x := c])
    {
      comments := comments[x := c];
    }

    method DeleteComments(ids: set<Id>)
      requires Valid()
      modifies this
      ensures Valid() && State() == old(State()).(comments := old(comments) - ids)
    {
      comments := comments - ids;
    }

    method CreateReply(r: Reply) returns (id: Id)
      requires Valid() && TallyBelow(r.tally, nextId)
      modifies this
      ensures Valid() && id == old(nextId)
      ensures State() == old(State()).(replies := old(replies)[id := r], nextId := id + 1)
    {
      ghost var t := State();
      ghost var t' := t.(replies := t.replies[t.nextId := r], nextId := t.nextId + 1);
      InsertReplyWellFormed(t, r);
      id := nextId;
      replies, nextId := replies[id := r], nextId + 1;
      assert State() == t';
    }

    method SetReply(x: Id, r: Reply)
      requires Valid() && x in replies && TallyBelow(r.tally, nextId)
      modifies this
      ensures Valid() && State() == old(State()).(replies := old(replies)[x := r])
    {
      replies := replies[x := r];
    }

    method DeleteReplies(ids: set<Id>)
      requires Valid()
      modifies this
      ensures Valid() && State() == old(State()).(replies := old(replies) - ids)
    {
      replies := replies - ids;
    }

    method CreateChannel(c: Channel) returns (id: Id)
      requires Valid() && Below(c.posts, nextId)
      modifies this
      ensures Valid() && id == old(nextId)
      ensures State() == old(State()).(channels := old(channels)[id := c], nextId := id + 1)
    {
      ghost var t := State();
      ghost var t' := t.(channels := t.channels[t.nextId := c], nextId := t.nextId + 1);
      InsertChannelWellFormed(t, c);
      id := nextId;
      channels, nextId := channels[id := c], nextId + 1;
      assert State() == t';
    }

    method SetChannel(x: Id, c: Channel)
      requires Valid() && x in channels && Below(c.posts, nextId)
      modifies this
      ensures Valid() && State() == old(State()).(channels := old(channels)[x := c])
    {
      channels := channels[x := c];
    }

    method DeleteChannels(ids: set<Id>)
      requires Valid()
      modifies this
      ensures Valid() && State() == old(State()).(channels := old(channels) - ids)
    {
      channels := channels - ids;
    }

    method SetUser(x: Id, u: User)
      requires Valid() && x in users
      modifies this
      ensures Valid() && State() == old(State()).(users := old(users)[x := u])
    {
      users := users[x := u];
    }

    method DeleteUsers(ids: set<Id>)
      requires Valid()
      modifies this
      ensures Valid() && State() == old(State()).(users := old(users) - ids)
    {
      users := users - ids;
    }

    /** `AdminLogs.create`. */
    method AppendLog(e: LogEntry)
      requires Valid()
      modifies this
      ensures Valid() && State() == old(State()).(logs := old(logs) + [e])
    {
      logs := logs + [e];
    }
  }
}
