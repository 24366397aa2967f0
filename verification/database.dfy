/** The collections the controllers read and write, held in memory: one map from id to
    document per collection, and the allocator of fresh ids. */
module Database {
  import opened Common
  import opened Query

  /** A user account. `password` stands for the stored password hash: comparing a candidate
      with it (`isPasswordCorrect`) is modelled as equality. */
  datatype User = User(username: string, email: string, fullName: string, avatar: string,
                       coverImage: string, password: string, refreshToken: Option<string>)

  /** The video fields the controllers read; `createdAt` is the creation timestamp. */
  datatype Video = Video(owner: Id, views: nat, createdAt: int)

  datatype Playlist = Playlist(name: string, description: string, owner: Id,
                               videos: seq<Id>, createdAt: int)

  /** A like document sets exactly one of its `video`, `comment` and `tweet` fields. */
  datatype Kind = OnVideo | OnComment | OnTweet
  datatype Target = Target(kind: Kind, id: Id)
  datatype Like = Like(target: Target, likedBy: Id, createdAt: int)

  datatype Subscription = Subscription(subscriber: Id, channel: Id, createdAt: int)

  datatype Comment = Comment(content: string, video: Id, owner: Id, createdAt: int)

  datatype Tweet = Tweet(content: string, owner: Id, createdAt: int)

  /** What `Like.findOne({ <kind>: target, likedBy })` looks for. */
  function LikeKey(l: Like): (Target, Id)
  {
    (l.target, l.likedBy)
  }

  /** What `Subscription.findOne({ subscriber, channel })` looks for. */
  function SubscriptionKey(s: Subscription): (Id, Id)
  {
    (s.subscriber, s.channel)
  }

  function Email(u: User): string
  {
    u.email
  }

  class Store {
    var users: map<Id, User>
    var videos: map<Id, Video>
    var playlists: map<Id, Playlist>
    var likes: map<Id, Like>
    var subscriptions: map<Id, Subscription>
    var comments: map<Id, Comment>
    var tweets: map<Id, Tweet>
    /** Every id handed out so far is below `nextId`. */
    var nextId: Id

    /** The invariant the handlers keep: ids are below the allocator; at most one like per
        (target, user) and one subscription per (subscriber, channel), which rests on each
        toggle's find-then-create since no unique index enforces it; nobody subscribes to
        themselves; playlists hold no video twice; e-mail addresses are unique. */
    ghost predicate Valid()
      reads this
    {
      && (forall i :: i in users ==> i < nextId)
      && (forall i :: i in videos ==> i < nextId)
      && (forall i :: i in playlists ==> i < nextId)
      && (forall i :: i in likes ==> i < nextId)
      && (forall i :: i in subscriptions ==> i < nextId)
      && (forall i :: i in comments ==> i < nextId)
      && (forall i :: i in tweets ==> i < nextId)
      && UniqueBy(likes, LikeKey)
      && UniqueBy(subscriptions, SubscriptionKey)
      && (forall i :: i in subscriptions ==> subscriptions[i].subscriber != subscriptions[i].channel)
      && (forall i :: i in playlists ==> Distinct(playlists[i].videos))
      && UniqueBy(users, Email)
    }

    constructor ()
      ensures Valid()
      ensures users == map[] && videos == map[] && playlists == map[] && likes == map[]
      ensures subscriptions == map[] && comments == map[] && tweets == map[]
    {
      users, videos, playlists, likes := map[], map[], map[], map[];
      subscriptions, comments, tweets := map[], map[], map[];
      nextId := 0;
    }
  }
}
