/** The comment controller: the comments under a video, and adding, editing and deleting a
    comment. The editing handlers dereference the authenticated caller, so the caller is a
    plain id here. */
module Comments {
  import opened Common
  import opened Text
  import opened Query
  import opened Database

  /** addComment: missing content 400, then an invalid video id 400; otherwise a comment with
      the trimmed content is created under a fresh id (201). The video itself is not looked up. */
  method AddComment(db: Store, content: Option<string>, videoId: IdParam, caller: Id, now: int)
    returns (r: Reply<Id>)
    requires db.Valid()
    modifies db`comments, db`nextId
    ensures db.Valid()
    ensures NoContent(content) ==> r == Err(BadRequest)
    ensures !NoContent(content) && !IsValidObjectId(videoId) ==> r == Err(BadRequest)
    ensures !NoContent(content) && IsValidObjectId(videoId) ==>
      && r == Ok(Created, old(db.nextId)) && r.body !in old(db.comments)
      && db.comments == old(db.comments)[r.body := Comment(Trim(content.value), videoId.id, caller, now)]
    ensures r.Err? ==> db.comments == old(db.comments) && db.nextId == old(db.nextId)
  {
    if NoContent(content) {
      return Err(BadRequest);
    }
    if !IsValidObjectId(videoId) {
      return Err(BadRequest);
    }
    var id := db.nextId;
    db.comments := db.comments[id := Comment(Trim(content.value), videoId.id, caller, now)];
    db.nextId := db.nextId + 1;
    r := Ok(Created, id);
  }

  /** updateComment: missing content 400, invalid id 400, unknown comment 404, someone else's
      comment 403; otherwise only the content changes, to the trimmed text (200). */
  method UpdateComment(db: Store, commentId: IdParam, content: Option<string>, caller: Id)
    returns (r: Reply<Comment>)
    requires db.Valid()
    modifies db`comments
    ensures db.Valid()
    ensures NoContent(content) ==> r == Err(BadRequest)
    ensures !NoContent(content) && !IsValidObjectId(commentId) ==> r == Err(BadRequest)
    ensures !NoContent(content) && IsValidObjectId(commentId) ==>
      var (cid, before) := (commentId.id, old(db.comments));
      && (cid !in before ==> r == Err(NotFound))
      && (cid in before && before[cid].owner != caller ==> r == Err(Forbidden))
      && (cid in before && before[cid].owner == caller ==>
            && r == Ok(Success, before[cid].(content := Trim(content.value)))
            && db.comments == before[cid := r.body])
    ensures r.Err? ==> db.comments == old(db.comments)
  {
    if NoContent(content) {
      return Err(BadRequest);
    }
    if !IsValidObjectId(commentId) {
      return Err(BadRequest);
    }
    var cid := commentId.id;
    if cid !in db.comments {
      return Err(NotFound);
    }
    if db.comments[cid].owner != caller {
      return Err(Forbidden);
    }
    var c := db.comments[cid].(content := Trim(content.value));
    db.comments := db.comments[cid := c];
    r := Ok(Success, c);
  }

  /** deleteComment: invalid id 400, unknown comment 404, someone else's comment 403; otherwise
      only that comment is removed (200). */
  method DeleteComment(db: Store, commentId: IdParam, caller: Id) returns (r: Reply<()>)
    requires db.Valid()
    modifies db`comments
    ensures db.Valid()
    ensures !IsValidObjectId(commentId) ==> r == Err(BadRequest)
    ensures IsValidObjectId(commentId) ==>
      var (cid, before) := (commentId.id, old(db.comments));
      && (cid !in before ==> r == Err(NotFound))
      && (cid in before && before[cid].owner != caller ==> r == Err(Forbidden))
      && (cid in before && before[cid].owner == caller ==>
            r == Ok(Success, ()) && db.comments == before - {cid})
    ensures r.Err? ==> db.comments == old(db.comments)
  {
    if !IsValidObjectId(commentId) {
      return Err(BadRequest);
    }
    var cid := commentId.id;
    if cid !in db.comments {
      return Err(NotFound);
    }
    if db.comments[cid].owner != caller {
      return Err(Forbidden);
    }
    db.comments := db.comments - {cid};
    r := Ok(Success, ());
  }

  /** A comment its author adds and then deletes leaves the comments as they were. */
  method AddThenDelete(db: Store, content: Option<string>, videoId: IdParam, caller: Id, now: int)
    returns (added: Reply<Id>, deleted: Reply<()>)
    requires db.Valid()
    modifies db`comments, db`nextId
    ensures db.Valid()
    ensures added.Ok? ==> deleted == Ok(Success, ())
    ensures db.comments == old(db.comments)
  {
    added := AddComment(db, content, videoId, caller, now);
    if added.Ok? {
      deleted := DeleteComment(db, Cast(added.body, true), caller);
    } else {
      deleted := Err(BadRequest);
    }
  }

  function CommentCreatedAt(comments: map<Id, Comment>): Id -> int
  {
    i => if i in comments then comments[i].createdAt else 0
  }

  /** The comments under video `v`. */
  ghost function CommentsOf(comments: map<Id, Comment>, v: Id): set<Id>
  {
    set c | c in comments && comments[c].video == v
  }

  /** getVideoComments: invalid video id 400; otherwise every comment under the video, newest
      first, whether or not its author's account still exists (the owner lookup keeps the
      comment either way). */
  ghost function VideoComments(comments: map<Id, Comment>, videoId: IdParam): (r: Reply<seq<Id>>)
    ensures !IsValidObjectId(videoId) ==> r == Err(BadRequest)
    ensures IsValidObjectId(videoId) ==>
      && r.Ok? && r.status == Success && Distinct(r.body)
      && (forall c :: c in r.body <==> c in comments && comments[c].video == videoId.id)
      && Ordered(r.body, CommentCreatedAt(comments), true)
  {
    if !IsValidObjectId(videoId) then Err(BadRequest)
    else Ok(Success, SortBy(CommentsOf(comments, videoId.id), CommentCreatedAt(comments), true))
  }
}
