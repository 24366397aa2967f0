/** The dashboard controller: a channel's statistics and the channel owner's own video
    listing. The caller is the authenticated user. */
module Dashboard {
  import opened Common
  import opened Query
  import opened Pagination
  import opened Database
  import opened Subscriptions
  import opened Comments

  /** `$sum` of `f` over a set of documents, added up from the earliest document on. */
  ghost function SumOver(ids: set<Id>, f: Id -> nat): nat
    decreases ids
  {
    if ids == {} then 0
    else
      var x := First(ids).value;
      f(x) + SumOver(ids - {x}, f)
  }

  /** A sum does not depend on the order of its terms: any one term can be taken out first. */
  lemma {:induction false} SumOverRemove(ids: set<Id>, f: Id -> nat, x: Id)
    requires x in ids
    ensures SumOver(ids, f) == f(x) + SumOver(ids - {x}, f)
    decreases ids
  {
    var y := First(ids).value;
    if y != x {
      SumOverRemove(ids - {y}, f, x);
      assert ids - {y} - {x} == ids - {x} - {y};
      assert IsFirst(y, ids - {x});
      assert First(ids - {x}).value == y;
    }
  }

  /** Every term is at most the sum. */
  lemma {:induction false} SumOverBound(ids: set<Id>, f: Id -> nat, x: Id)
    requires x in ids
    ensures f(x) <= SumOver(ids, f)
  {
    SumOverRemove(ids, f, x);
  }

  /** The videos `user` owns: `$match: { owner }` and `Video.find({ owner })`. */
  ghost function VideosOf(videos: map<Id, Video>, user: Id): set<Id>
  {
    set v | v in videos && videos[v].owner == user
  }

  function ViewsOf(videos: map<Id, Video>): Id -> nat
  {
    v => if v in videos then videos[v].views else 0
  }

  /** The likes whose `video` field is `v`: what the `$lookup` from likes collects for it. */
  function LikesOnVideo(likes: map<Id, Like>, v: Id): set<Id>
  {
    set l | l in likes && likes[l].target == Target(OnVideo, v)
  }

  function LikeCountOf(likes: map<Id, Like>): Id -> nat
  {
    v => |LikesOnVideo(likes, v)|
  }

  /** The likes on any of the videos `vs`. */
  ghost function LikesOnVideos(likes: map<Id, Like>, vs: set<Id>): set<Id>
  {
    set l | l in likes && likes[l].target.kind == OnVideo && likes[l].target.id in vs
  }

  /** Adding up the per-video like counts counts every like on those videos exactly once,
      since a like names a single video. */
  lemma {:induction false} SumOfLikeCounts(likes: map<Id, Like>, vs: set<Id>)
    ensures SumOver(vs, LikeCountOf(likes)) == |LikesOnVideos(likes, vs)|
    decreases vs
  {
    if vs != {} {
      var x := First(vs).value;
      SumOfLikeCounts(likes, vs - {x});
      var here, rest := LikesOnVideo(likes, x), LikesOnVideos(likes, vs - {x});
      assert LikesOnVideos(likes, vs) == here + rest;
      assert here * rest == {};
    }
  }

  /** `Math.round(total / count)` when `count` is positive, and 0 otherwise. */
  function RoundedAverage(total: nat, count: nat): (r: nat)
    ensures count == 0 ==> r == 0
    ensures count > 0 ==> 2 * count * r <= 2 * total + count < 2 * count * (r + 1)
  {
    if count == 0 then 0
    else
      var d := 2 * count;
      var q := (2 * total + count) / d;
      assert 2 * total + count == d * q + (2 * total + count) % d;
      q
  }

  function VideoCreatedAt(videos: map<Id, Video>): Id -> int
  {
    v => if v in videos then videos[v].createdAt else 0
  }

  /** The first `n` documents of a newest-first listing are the newest: nothing left out is
      newer than anything kept. */
  lemma NewestPrefix(all: seq<Id>, n: nat, key: Id -> int)
    requires Ordered(all, key, true) && n <= |all|
    ensures forall v, k :: v in all && v !in all[..n] && 0 <= k < n ==> key(v) <= key(all[k])
  {
    assert forall i :: 0 <= i < n ==> all[..n][i] == all[i];
    forall v, k | v in all && v !in all[..n] && 0 <= k < n
      ensures key(v) <= key(all[k])
    {
      var j :| 0 <= j < |all| && all[j] == v;
    }
  }

  /** `find(...).sort({ <key>: -1 }).limit(n)`: the `n` newest documents, newest first. */
  ghost function Newest(ids: set<Id>, key: Id -> int, n: nat): (r: seq<Id>)
    ensures |r| == (if |ids| < n then |ids| else n)
    ensures Distinct(r) && Ordered(r, key, true)
    ensures forall k :: 0 <= k < |r| ==> r[k] in ids
    ensures forall v, k :: v in ids && v !in r && 0 <= k < |r| ==> key(v) <= key(r[k])
  {
    var all := SortBy(ids, key, true);
    var m := if |all| < n then |all| else n;
    NewestPrefix(all, m, key);
    var r := all[..m];
    assert forall i :: 0 <= i < m ==> r[i] == all[i];
    r
  }

  datatype Stats = Stats(totalSubscribers: nat, totalVideos: nat, totalViews: nat,
                         totalLikesOnVideos: nat, userContentLikes: nat,
                         recentVideos: seq<Id>, averageViewsPerVideo: nat)

  /** getChannelStats: subscriber count, video count, summed views, likes on the channel's
      videos, likes the user has given, the five newest videos and the rounded average views;
      a channel with no videos reports 0 for each video total. */
  ghost function ChannelStats(videos: map<Id, Video>, likes: map<Id, Like>,
                              subs: map<Id, Subscription>, user: Id): (r: Stats)
    ensures var owned := VideosOf(videos, user);
      && r.totalSubscribers == |SubscribersOf(subs, user)|
      && r.totalVideos == |owned|
      && r.totalViews == SumOver(owned, ViewsOf(videos))
      && (forall v :: v in owned ==> videos[v].views <= r.totalViews)
      && r.totalLikesOnVideos == |LikesOnVideos(likes, owned)|
      && r.userContentLikes == |set l | l in likes && likes[l].likedBy == user|
      && (owned == {} ==> r.totalVideos == 0 && r.totalViews == 0 && r.totalLikesOnVideos == 0)
      && r.averageViewsPerVideo == RoundedAverage(r.totalViews, r.totalVideos)
      && r.recentVideos == Newest(owned, VideoCreatedAt(videos), 5)
  {
    var owned := VideosOf(videos, user);
    var views := SumOver(owned, ViewsOf(videos));
    assert forall v :: v in owned ==> videos[v].views <= views by {
      forall v | v in owned ensures videos[v].views <= views {
        SumOverBound(owned, ViewsOf(videos), v);
      }
    }
    SumOfLikeCounts(likes, owned);
    Stats(|SubscribersOf(subs, user)|, |owned|, views, SumOver(owned, LikeCountOf(likes)),
          |set l | l in likes && likes[l].likedBy == user|,
          Newest(owned, VideoCreatedAt(videos), 5), RoundedAverage(views, |owned|))
  }

  /** One video of the owner's listing with its `likesCount` and `commentsCount`. */
  datatype VideoEntry = VideoEntry(video: Id, likesCount: nat, commentsCount: nat)

  function EntryIds(es: seq<VideoEntry>): (ids: seq<Id>)
    ensures |ids| == |es| && forall k :: 0 <= k < |es| ==> ids[k] == es[k].video
  {
    seq(|es|, k requires 0 <= k < |es| => es[k].video)
  }

  /** The `$sort` key: the field `sortBy` names, `createdAt` when it is absent. */
  function SortKey(videos: map<Id, Video>, sortBy: Option<Video -> int>): Id -> int
  {
    var field := if sortBy.Some? then sortBy.value else (v: Video) => v.createdAt;
    i => if i in videos then field(videos[i]) else 0
  }

  datatype VideoPage = VideoPage(videos: seq<VideoEntry>, pagination: Meta, limit: int)

  /** getChannelVideos: `page` and `limit` default to 1 and 10 only when absent; the sort is on
      `sortBy` (creation time by default), descending exactly when `sortType` is "desc" (the
      default). A negative skip or a limit that is not positive makes the aggregation fail
      (500); otherwise one page of the owner's videos with their like and comment counts, and
      pagination over every video the owner has. */
  ghost function ChannelVideos(videos: map<Id, Video>, likes: map<Id, Like>, comments: map<Id, Comment>,
                               user: Id, pageQuery: Option<int>, limitQuery: Option<int>,
                               sortBy: Option<Video -> int>, sortType: Option<string>): (r: Reply<VideoPage>)
    ensures var (page, limit) := (GivenOr(pageQuery, 1), GivenOr(limitQuery, 10));
      && (r.Ok? <==> Skip(page, limit) >= 0 && limit > 0)
      && (r.Err? ==> r.status == ServerError)
    ensures r.Ok? ==>
      var (page, limit) := (GivenOr(pageQuery, 1), GivenOr(limitQuery, 10));
      var descending := sortType.None? || sortType.value == "desc";
      var (es, owned) := (r.body.videos, VideosOf(videos, user));
      && r.status == Success
      && EntryIds(es) == SortedPage(owned, SortKey(videos, sortBy), descending, Skip(page, limit), limit).value
      && Distinct(EntryIds(es)) && |es| <= limit && Ordered(EntryIds(es), SortKey(videos, sortBy), descending)
      && (forall k :: 0 <= k < |es| ==> es[k].video in owned)
      && (forall k :: 0 <= k < |es| ==> es[k].likesCount == |LikesOnVideo(likes, es[k].video)|)
      && (forall k :: 0 <= k < |es| ==> es[k].commentsCount == |CommentsOf(comments, es[k].video)|)
      && r.body.pagination == MetaFor(page, limit, |owned|) && r.body.limit == limit
  {
    var (page, limit) := (GivenOr(pageQuery, 1), GivenOr(limitQuery, 10));
    var descending := sortType.None? || sortType.value == "desc";
    var owned := VideosOf(videos, user);
    match SortedPage(owned, SortKey(videos, sortBy), descending, Skip(page, limit), limit)
    case None => Err(ServerError)
    case Some(ids) => Ok(Success, VideoPage(Entries(likes, comments, ids), MetaFor(page, limit, |owned|), limit))
  }

  /** The `$lookup` and `$addFields` stages: each listed video with its like and comment counts. */
  ghost function Entries(likes: map<Id, Like>, comments: map<Id, Comment>, ids: seq<Id>): (es: seq<VideoEntry>)
    ensures EntryIds(es) == ids
    ensures forall k :: 0 <= k < |es| ==> es[k].likesCount == |LikesOnVideo(likes, es[k].video)|
    ensures forall k :: 0 <= k < |es| ==> es[k].commentsCount == |CommentsOf(comments, es[k].video)|
  {
    var es := seq(|ids|, k requires 0 <= k < |ids| =>
                VideoEntry(ids[k], |LikesOnVideo(likes, ids[k])|, |CommentsOf(comments, ids[k])|));
    assert EntryIds(es) == ids;
    es
  }
}
