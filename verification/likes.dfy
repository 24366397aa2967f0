/** The like controller: one toggle per kind of target (video, comment, tweet) and the
    listing of the videos a user has liked. */
module Likes {
  import opened Common
  import opened Query
  import opened Pagination
  import opened Database

  /** The (target, user) pairs that are currently liked. */
  ghost function Liked(likes: map<Id, Like>): set<(Target, Id)>
  {
    Image(likes, LikeKey)
  }

  /** toggleVideoLike, toggleCommentLike and toggleTweetLike, which differ only in the field
      that names the target. The id is checked (400) before the caller (401); an existing like
      is deleted (200, isLiked false), otherwise one is created (201, isLiked true). Exactly the
      caller's (target, user) pair flips, and every other like document stays as it was. */
  method ToggleLike(db: Store, kind: Kind, targetId: IdParam, caller: Option<Id>, now: int)
    returns (r: Reply<bool>)
    requires db.Valid()
    modifies db`likes, db`nextId
    ensures db.Valid()
    ensures !IsValidObjectId(targetId) ==> r == Err(BadRequest)
    ensures IsValidObjectId(targetId) && caller.None? ==> r == Err(Unauthorized)
    ensures r.Err? ==> db.likes == old(db.likes) && db.nextId == old(db.nextId)
    ensures IsValidObjectId(targetId) && caller.Some? ==>
      var (key, before) := (LikeKey(Like(Target(kind, targetId.id), caller.value, now)), old(db.likes));
      var wasLiked := key in Liked(before);
      && (wasLiked ==> r == Ok(Success, false))
      && (wasLiked ==> var found := WithKey(before, LikeKey, key);
                       |found| == 1 && db.likes == before - found)
      && (!wasLiked ==> r == Ok(Created, true))
      && (!wasLiked ==> old(db.nextId) !in before)
      && (!wasLiked ==> db.likes == before[old(db.nextId) := Like(key.0, key.1, now)])
      && Liked(db.likes) == (if wasLiked then Liked(before) - {key} else Liked(before) + {key})
      && r.body == (key in Liked(db.likes))
      && (forall i :: i in before && LikeKey(before[i]) != key ==> i in db.likes && db.likes[i] == before[i])
  {
    if !IsValidObjectId(targetId) {
      return Err(BadRequest);
    }
    if caller.None? {
      return Err(Unauthorized);
    }
    var key := (Target(kind, targetId.id), caller.value);
    var found := WithKey(db.likes, LikeKey, key);
    WithKeyImage(db.likes, LikeKey, key);
    if found != {} {
      // With one like per key the document `findOne` returns is the only match.
      var lid :| lid in found;
      assert found == {lid};
      ImageRemove(db.likes, LikeKey, lid);
      db.likes := db.likes - {lid};
      r := Ok(Success, false);
    } else {
      var lid := db.nextId;
      ImageInsert(db.likes, LikeKey, lid, Like(key.0, key.1, now));
      db.likes := db.likes[lid := Like(key.0, key.1, now)];
      db.nextId := db.nextId + 1;
      r := Ok(Created, true);
    }
  }

  /** Toggling the same target twice restores the set of liked pairs. */
  method ToggleTwice(db: Store, kind: Kind, targetId: IdParam, caller: Option<Id>, now: int, later: int)
    returns (first: Reply<bool>, second: Reply<bool>)
    requires db.Valid()
    modifies db`likes, db`nextId
    ensures db.Valid()
    ensures Liked(db.likes) == old(Liked(db.likes))
    ensures first.Ok? <==> second.Ok?
    ensures first.Ok? ==> first.body != second.body && first.status != second.status
  {
    first := ToggleLike(db, kind, targetId, caller, now);
    second := ToggleLike(db, kind, targetId, caller, later);
  }

  /** `Like.countDocuments({ likedBy, video: { $exists: true } })` and the `$match` stage of the
      listing: the caller's likes on videos. */
  ghost function VideoLikesBy(likes: map<Id, Like>, user: Id): set<Id>
  {
    set i | i in likes && likes[i].likedBy == user && likes[i].target.kind == OnVideo
  }

  /** The likes that survive both `$lookup`/`$unwind` stages: the liked video and its owner
      still exist. */
  ghost function ListedVideoLikes(users: map<Id, User>, videos: map<Id, Video>, likes: map<Id, Like>,
                                  user: Id): set<Id>
  {
    set i | i in VideoLikesBy(likes, user) && likes[i].target.id in videos
                                           && videos[likes[i].target.id].owner in users
  }

  function LikeCreatedAt(likes: map<Id, Like>): Id -> int
  {
    i => if i in likes then likes[i].createdAt else 0
  }

  /** getLikedVideos: 401 without a caller; otherwise one page of the caller's video likes,
      the most recent like first, and a pagination object whose total counts every video like
      of the caller, including those the lookups dropped. A negative skip or a limit that is not
      positive makes the aggregation fail (500). */
  ghost function LikedVideos(users: map<Id, User>, videos: map<Id, Video>, likes: map<Id, Like>,
                             caller: Option<Id>, pageQuery: Option<int>, limitQuery: Option<int>)
    : (r: Reply<Listing>)
    ensures caller.None? ==> r == Err(Unauthorized)
    ensures caller.Some? ==>
      var (page, limit) := (ParsedOr(pageQuery, 1), ParsedOr(limitQuery, 10));
      var listed := ListedVideoLikes(users, videos, likes, caller.value);
      && (r.Ok? <==> Skip(page, limit) >= 0 && limit > 0)
      && (r.Err? ==> r.status == ServerError)
      && (r.Ok? ==>
            && r.status == Success
            && r.body.items == SortedPage(listed, LikeCreatedAt(likes), true, Skip(page, limit), limit).value
            && Distinct(r.body.items) && |r.body.items| <= limit
            && Ordered(r.body.items, LikeCreatedAt(likes), true)
            && (forall k :: 0 <= k < |r.body.items| ==> r.body.items[k] in listed)
            && r.body.pagination == MetaFor(page, limit, |VideoLikesBy(likes, caller.value)|))
  {
    if caller.None? then Err(Unauthorized)
    else
      var (page, limit) := (ParsedOr(pageQuery, 1), ParsedOr(limitQuery, 10));
      var listed := ListedVideoLikes(users, videos, likes, caller.value);
      match SortedPage(listed, LikeCreatedAt(likes), true, Skip(page, limit), limit)
      case None => Err(ServerError)
      case Some(items) => Ok(Success, Listing(items, MetaFor(page, limit, |VideoLikesBy(likes, caller.value)|)))
  }
}
