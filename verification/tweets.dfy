/** The tweet controller: a user's tweets, and creating, editing and deleting a tweet. The
    handlers that write dereference the authenticated caller, so the caller is a plain id. */
module Tweets {
  import opened Common
  import opened Text
  import opened Query
  import opened Pagination
  import opened Database

  /** createTweet: missing content 400; otherwise a tweet with the trimmed content is created
      under a fresh id (201). */
  method CreateTweet(db: Store, content: Option<string>, caller: Id, now: int) returns (r: Reply<Id>)
    requires db.Valid()
    modifies db`tweets, db`nextId
    ensures db.Valid()
    ensures NoContent(content) ==> r == Err(BadRequest)
    ensures !NoContent(content) ==>
      && r == Ok(Created, old(db.nextId)) && r.body !in old(db.tweets)
      && db.tweets == old(db.tweets)[r.body := Tweet(Trim(content.value), caller, now)]
    ensures r.Err? ==> db.tweets == old(db.tweets) && db.nextId == old(db.nextId)
  {
    if NoContent(content) {
      return Err(BadRequest);
    }
    var id := db.nextId;
    db.tweets := db.tweets[id := Tweet(Trim(content.value), caller, now)];
    db.nextId := db.nextId + 1;
    r := Ok(Created, id);
  }

  /** updateTweet: the id is checked before the content (the comment handler checks them the
      other way round): invalid id 400, missing content 400, unknown tweet 404, someone else's
      tweet 403; otherwise only the content changes, to the trimmed text (200). */
  method UpdateTweet(db: Store, tweetId: IdParam, content: Option<string>, caller: Id)
    returns (r: Reply<Tweet>)
    requires db.Valid()
    modifies db`tweets
    ensures db.Valid()
    ensures !IsValidObjectId(tweetId) ==> r == Err(BadRequest)
    ensures IsValidObjectId(tweetId) && NoContent(content) ==> r == Err(BadRequest)
    ensures IsValidObjectId(tweetId) && !NoContent(content) ==>
      var (tid, before) := (tweetId.id, old(db.tweets));
      && (tid !in before ==> r == Err(NotFound))
      && (tid in before && before[tid].owner != caller ==> r == Err(Forbidden))
      && (tid in before && before[tid].owner == caller ==>
            && r == Ok(Success, before[tid].(content := Trim(content.value)))
            && db.tweets == before[tid := r.body])
    ensures r.Err? ==> db.tweets == old(db.tweets)
  {
    if !IsValidObjectId(tweetId) {
      return Err(BadRequest);
    }
    if NoContent(content) {
      return Err(BadRequest);
    }
    var tid := tweetId.id;
    if tid !in db.tweets {
      return Err(NotFound);
    }
    if db.tweets[tid].owner != caller {
      return Err(Forbidden);
    }
    var t := db.tweets[tid].(content := Trim(content.value));
    db.tweets := db.tweets[tid := t];
    r := Ok(Success, t);
  }

  /** deleteTweet: invalid id 400, unknown tweet 404, someone else's tweet 403; otherwise only
      that tweet is removed (200). */
  method DeleteTweet(db: Store, tweetId: IdParam, caller: Id) returns (r: Reply<()>)
    requires db.Valid()
    modifies db`tweets
    ensures db.Valid()
    ensures !IsValidObjectId(tweetId) ==> r == Err(BadRequest)
    ensures IsValidObjectId(tweetId) ==>
      var (tid, before) := (tweetId.id, old(db.tweets));
      && (tid !in before ==> r == Err(NotFound))
      && (tid in before && before[tid].owner != caller ==> r == Err(Forbidden))
      && (tid in before && before[tid].owner == caller ==>
            r == Ok(Success, ()) && db.tweets == before - {tid})
    ensures r.Err? ==> db.tweets == old(db.tweets)
  {
    if !IsValidObjectId(tweetId) {
      return Err(BadRequest);
    }
    var tid := tweetId.id;
    if tid !in db.tweets {
      return Err(NotFound);
    }
    if db.tweets[tid].owner != caller {
      return Err(Forbidden);
    }
    db.tweets := db.tweets - {tid};
    r := Ok(Success, ());
  }

  /** A tweet its author creates and then deletes leaves the tweets as they were. */
  method CreateThenDelete(db: Store, content: Option<string>, caller: Id, now: int)
    returns (created: Reply<Id>, deleted: Reply<()>)
    requires db.Valid()
    modifies db`tweets, db`nextId
    ensures db.Valid()
    ensures created.Ok? ==> deleted == Ok(Success, ())
    ensures db.tweets == old(db.tweets)
  {
    created := CreateTweet(db, content, caller, now);
    if created.Ok? {
      deleted := DeleteTweet(db, Cast(created.body, true), caller);
    } else {
      deleted := Err(BadRequest);
    }
  }

  function TweetCreatedAt(tweets: map<Id, Tweet>): Id -> int
  {
    i => if i in tweets then tweets[i].createdAt else 0
  }

  /** `Tweet.find({ owner })` and `Tweet.countDocuments({ owner })`. */
  ghost function TweetsOf(tweets: map<Id, Tweet>, owner: Id): set<Id>
  {
    set t | t in tweets && tweets[t].owner == owner
  }

  /** getUserTweets: invalid id 400, unknown user 404. `page` and `limit` default to 1 and 10
      only when absent. The cursor fails on a negative skip (500); a limit of 0 returns every
      tweet from the skip on, and a negative limit keeps at most its absolute value. The
      pagination object divides by the limit as given, so a limit of 0 reports Infinity or NaN
      pages. */
  ghost function UserTweets(users: map<Id, User>, tweets: map<Id, Tweet>, userId: IdParam,
                            pageQuery: Option<int>, limitQuery: Option<int>): (r: Reply<Listing>)
    ensures !IsValidObjectId(userId) ==> r == Err(BadRequest)
    ensures IsValidObjectId(userId) && userId.id !in users ==> r == Err(NotFound)
    ensures IsValidObjectId(userId) && userId.id in users ==>
      var (page, limit) := (GivenOr(pageQuery, 1), GivenOr(limitQuery, 10));
      var (skip, owned) := (Skip(page, limit), TweetsOf(tweets, userId.id));
      && (r.Ok? <==> skip >= 0)
      && (r.Err? ==> r.status == ServerError)
      && (r.Ok? ==>
            && r.status == Success
            && r.body.items == SortedCursorPage(owned, TweetCreatedAt(tweets), true, skip, limit).value
            && Distinct(r.body.items) && Ordered(r.body.items, TweetCreatedAt(tweets), true)
            && (limit != 0 ==> |r.body.items| <= if limit > 0 then limit else -limit)
            && (forall k :: 0 <= k < |r.body.items| ==> r.body.items[k] in owned)
            && r.body.pagination == MetaFor(page, limit, |owned|))
  {
    if !IsValidObjectId(userId) then Err(BadRequest)
    else if userId.id !in users then Err(NotFound)
    else
      var (page, limit) := (GivenOr(pageQuery, 1), GivenOr(limitQuery, 10));
      var (skip, owned) := (Skip(page, limit), TweetsOf(tweets, userId.id));
      match SortedCursorPage(owned, TweetCreatedAt(tweets), true, skip, limit)
      case None => Err(ServerError)
      case Some(items) => Ok(Success, Listing(items, MetaFor(page, limit, |owned|)))
  }
}
