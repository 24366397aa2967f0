/** The playlist controller: creating, listing, editing and deleting playlists. A playlist's
    `videos` list is edited in place and every edit is gated by an ownership check. */
module Playlists {
  import opened Common
  import opened Text
  import opened Query
  import opened Pagination
  import opened Database

  /** The filter of removeVideoFromPlaylist, comparing ids: the list without any occurrence of
      `v`. */
  function Without(s: seq<Id>, v: Id): (r: seq<Id>)
    ensures forall x :: x in r <==> x in s && x != v
    ensures |r| <= |s|
  {
    if s == [] then [] else (if s[0] == v then [] else [s[0]]) + Without(s[1..], v)
  }

  /** Filtering distributes over concatenation: the kept videos stay in their relative order. */
  lemma {:induction false} WithoutConcat(a: seq<Id>, b: seq<Id>, v: Id)
    ensures Without(a + b, v) == Without(a, v) + Without(b, v)
  {
    if a == [] {
      assert a + b == b;
    } else {
      assert (a + b)[0] == a[0];
      assert (a + b)[1..] == a[1..] + b;
      WithoutConcat(a[1..], b, v);
    }
  }

  /** Filtering out a video that is not there changes nothing. */
  lemma {:induction false} WithoutAbsent(s: seq<Id>, v: Id)
    requires v !in s
    ensures Without(s, v) == s
  {
    if s != [] {
      WithoutAbsent(s[1..], v);
      assert s == [s[0]] + s[1..];
    }
  }

  /** Every other video keeps its number of occurrences; `v` has none left. */
  lemma {:induction false} WithoutCounts(s: seq<Id>, v: Id)
    ensures multiset(Without(s, v)) == multiset(s)[v := 0]
  {
    if s == [] {
    } else {
      WithoutCounts(s[1..], v);
      assert s == [s[0]] + s[1..];
      assert multiset(s) == multiset([s[0]]) + multiset(s[1..]);
    }
  }

  /** A duplicate-free list stays duplicate-free when a video is filtered out. */
  lemma {:induction false} WithoutDistinct(s: seq<Id>, v: Id)
    requires Distinct(s)
    ensures Distinct(Without(s, v))
  {
    if s != [] {
      assert Distinct(s[1..]) by {
        forall i, j | 0 <= i < j < |s[1..]| ensures s[1..][i] != s[1..][j] {
          assert s[1..][i] == s[i + 1] && s[1..][j] == s[j + 1];
        }
      }
      WithoutDistinct(s[1..], v);
      var rest := Without(s[1..], v);
      assert s[0] !in s[1..];
      assert s[0] !in rest;
      var r := Without(s, v);
      if s[0] != v {
        assert r == [s[0]] + rest;
        forall i, j | 0 <= i < j < |r| ensures r[i] != r[j] {
          if i == 0 {
            assert r[j] == rest[j - 1];
          } else {
            assert r[i] == rest[i - 1] && r[j] == rest[j - 1];
          }
        }
      } else {
        assert r == rest;
      }
    }
  }

  /** Appending a video that is not there keeps the list duplicate-free. */
  lemma AppendDistinct(s: seq<Id>, v: Id)
    requires Distinct(s) && v !in s
    ensures Distinct(s + [v])
  {
    var t := s + [v];
    forall i, j | 0 <= i < j < |t| ensures t[i] != t[j] {
      if j == |s| {
        assert t[i] == s[i];
      } else {
        assert t[i] == s[i] && t[j] == s[j];
      }
    }
  }

  /** Adding a video that is absent and then removing it gives back the original list. */
  lemma AddThenRemove(s: seq<Id>, v: Id)
    requires v !in s
    ensures Without(s + [v], v) == s
  {
    WithoutConcat(s, [v], v);
    WithoutAbsent(s, v);
    assert Without([v], v) == [];
  }

  /** `playlist.videos.includes(videoId)` as written: Mongoose compares the string form of each
      stored id with the parameter as the client spelled it. */
  predicate ListedAsWritten(videos: seq<Id>, videoId: IdParam)
  {
    exists k :: 0 <= k < |videos| && SameString(videos[k], videoId)
  }

  /** `videos.filter(id => id.toString() !== videoId.toString())` as written: again a comparison
      of spellings. */
  function WithoutAsWritten(s: seq<Id>, videoId: IdParam): seq<Id>
  {
    if s == [] then []
    else (if SameString(s[0], videoId) then [] else [s[0]]) + WithoutAsWritten(s[1..], videoId)
  }

  /** The duplicate check and push of addVideoToPlaylist as written, once the ownership checks
      have passed: 400, or the list with the cast id appended. */
  function AddAsWritten(videos: seq<Id>, videoId: IdParam): Reply<seq<Id>>
    requires videoId.Cast?
  {
    if ListedAsWritten(videos, videoId) then Err(BadRequest) else Ok(Success, videos + [videoId.id])
  }

  /** The membership check and filter of removeVideoFromPlaylist as written, once the ownership
      checks have passed: 404, or the filtered list. */
  function RemoveAsWritten(videos: seq<Id>, videoId: IdParam): Reply<seq<Id>>
    requires videoId.Cast?
  {
    if ListedAsWritten(videos, videoId) then Ok(Success, WithoutAsWritten(videos, videoId)) else Err(NotFound)
  }

  lemma {:induction false} WithoutAsWrittenCanonical(s: seq<Id>, v: Id)
    ensures WithoutAsWritten(s, Cast(v, true)) == Without(s, v)
  {
    if s != [] {
      WithoutAsWrittenCanonical(s[1..], v);
    }
  }

  /** For the canonical spelling of an id, the checks as written are exactly the comparisons of
      ids that AddVideoToPlaylist and RemoveVideoFromPlaylist make. */
  lemma AsWrittenAgreesOnCanonical(videos: seq<Id>, v: Id)
    ensures AddAsWritten(videos, Cast(v, true))
            == if v in videos then Err(BadRequest) else Ok(Success, videos + [v])
    ensures RemoveAsWritten(videos, Cast(v, true))
            == if v in videos then Ok(Success, Without(videos, v)) else Err(NotFound)
  {
    WithoutAsWrittenCanonical(videos, v);
    if v in videos {
      var k :| 0 <= k < |videos| && videos[k] == v;
      assert SameString(videos[k], Cast(v, true));
    }
  }

  /** Another accepted spelling of a listed video's id slips past the duplicate check as
      written, and the video is pushed a second time. */
  lemma AsWrittenAddsDuplicate(videos: seq<Id>, v: Id)
    requires v in videos
    ensures AddAsWritten(videos, Cast(v, false)) == Ok(Success, videos + [v])
    ensures !Distinct(videos + [v])
  {
    var k :| 0 <= k < |videos| && videos[k] == v;
    assert (videos + [v])[k] == (videos + [v])[|videos|];
  }

  /** Another accepted spelling of a listed video's id is not found by the check as written, so
      the video cannot be removed through it. */
  lemma AsWrittenRemoveMisses(videos: seq<Id>, v: Id)
    requires v in videos
    ensures RemoveAsWritten(videos, Cast(v, false)) == Err(NotFound)
  {
  }

  /** The playlist exists and `caller` owns it. */
  ghost predicate Owns(playlists: map<Id, Playlist>, id: Id, caller: Id)
  {
    id in playlists && playlists[id].owner == caller
  }

  /** createPlaylist: a missing or empty name or description 400, a name that trims to nothing
      400, no caller 401; otherwise an empty playlist with the trimmed name and description is
      created under a fresh id (201). */
  method CreatePlaylist(db: Store, name: Option<string>, description: Option<string>,
                        caller: Option<Id>, now: int) returns (r: Reply<Id>)
    requires db.Valid()
    modifies db`playlists, db`nextId
    ensures db.Valid()
    ensures !Present(name) || !Present(description) ==> r == Err(BadRequest)
    ensures Present(name) && Present(description) ==>
      && (Trim(name.value) == "" ==> r == Err(BadRequest))
      && (Trim(name.value) != "" && caller.None? ==> r == Err(Unauthorized))
      && (Trim(name.value) != "" && caller.Some? ==>
            && r.Ok? && r.status == Created && r.body !in old(db.playlists)
            && db.playlists == old(db.playlists)[r.body :=
                 Playlist(Trim(name.value), Trim(description.value), caller.value, [], now)])
    ensures r.Err? ==> db.playlists == old(db.playlists) && db.nextId == old(db.nextId)
  {
    if !Present(name) || !Present(description) {
      return Err(BadRequest);
    }
    if Trim(name.value) == "" {
      return Err(BadRequest);
    }
    if caller.None? {
      return Err(Unauthorized);
    }
    var id := db.nextId;
    db.playlists := db.playlists[id := Playlist(Trim(name.value), Trim(description.value), caller.value, [], now)];
    db.nextId := db.nextId + 1;
    r := Ok(Created, id);
  }

  /** addVideoToPlaylist: checks in the order ids 400, caller 401, playlist 404, owner 403,
      duplicate 400; then appends the video. The duplicate check compares ids, whatever the
      spelling of the parameter (AsWrittenAddsDuplicate shows the check as written does not). */
  method AddVideoToPlaylist(db: Store, playlistId: IdParam, videoId: IdParam, caller: Option<Id>)
    returns (r: Reply<Playlist>)
    requires db.Valid()
    modifies db`playlists
    ensures db.Valid()
    ensures !IsValidObjectId(playlistId) || !IsValidObjectId(videoId) ==> r == Err(BadRequest)
    ensures IsValidObjectId(playlistId) && IsValidObjectId(videoId) ==>
      var (pid, vid, before) := (playlistId.id, videoId.id, old(db.playlists));
      var owner := caller.Some? && Owns(before, pid, caller.value);
      && (caller.None? ==> r == Err(Unauthorized))
      && (caller.Some? && pid !in before ==> r == Err(NotFound))
      && (caller.Some? && pid in before && !owner ==> r == Err(Forbidden))
      && (owner && vid in before[pid].videos ==> r == Err(BadRequest))
      && (owner && vid !in before[pid].videos ==>
            && r == Ok(Success, before[pid].(videos := before[pid].videos + [vid]))
            && db.playlists == before[pid := r.body])
    ensures r.Err? ==> db.playlists == old(db.playlists)
  {
    if !IsValidObjectId(playlistId) || !IsValidObjectId(videoId) {
      return Err(BadRequest);
    }
    if caller.None? {
      return Err(Unauthorized);
    }
    var pid, vid := playlistId.id, videoId.id;
    if pid !in db.playlists {
      return Err(NotFound);
    }
    var p := db.playlists[pid];
    if p.owner != caller.value {
      return Err(Forbidden);
    }
    if vid in p.videos {
      return Err(BadRequest);
    }
    AppendDistinct(p.videos, vid);
    p := p.(videos := p.videos + [vid]);
    db.playlists := db.playlists[pid := p];
    r := Ok(Success, p);
  }

  /** removeVideoFromPlaylist: the same checks as adding, then 404 for a video that is not in
      the list; on success no occurrence of the video is left. Membership and the filter compare
      ids, whatever the spelling of the parameter (AsWrittenRemoveMisses shows the checks as
      written do not). */
  method RemoveVideoFromPlaylist(db: Store, playlistId: IdParam, videoId: IdParam, caller: Option<Id>)
    returns (r: Reply<Playlist>)
    requires db.Valid()
    modifies db`playlists
    ensures db.Valid()
    ensures !IsValidObjectId(playlistId) || !IsValidObjectId(videoId) ==> r == Err(BadRequest)
    ensures IsValidObjectId(playlistId) && IsValidObjectId(videoId) ==>
      var (pid, vid, before) := (playlistId.id, videoId.id, old(db.playlists));
      var owner := caller.Some? && Owns(before, pid, caller.value);
      && (caller.None? ==> r == Err(Unauthorized))
      && (caller.Some? && pid !in before ==> r == Err(NotFound))
      && (caller.Some? && pid in before && !owner ==> r == Err(Forbidden))
      && (owner && vid !in before[pid].videos ==> r == Err(NotFound))
      && (owner && vid in before[pid].videos ==>
            && r == Ok(Success, before[pid].(videos := Without(before[pid].videos, vid)))
            && vid !in r.body.videos
            && db.playlists == before[pid := r.body])
    ensures r.Err? ==> db.playlists == old(db.playlists)
  {
    if !IsValidObjectId(playlistId) || !IsValidObjectId(videoId) {
      return Err(BadRequest);
    }
    if caller.None? {
      return Err(Unauthorized);
    }
    var pid, vid := playlistId.id, videoId.id;
    if pid !in db.playlists {
      return Err(NotFound);
    }
    var p := db.playlists[pid];
    if p.owner != caller.value {
      return Err(Forbidden);
    }
    if vid !in p.videos {
      return Err(NotFound);
    }
    WithoutDistinct(p.videos, vid);
    p := p.(videos := Without(p.videos, vid));
    db.playlists := db.playlists[pid := p];
    r := Ok(Success, p);
  }

  /** deletePlaylist: ids 400, caller 401, playlist 404, owner 403; then only that playlist
      is removed. */
  method DeletePlaylist(db: Store, playlistId: IdParam, caller: Option<Id>) returns (r: Reply<()>)
    requires db.Valid()
    modifies db`playlists
    ensures db.Valid()
    ensures !IsValidObjectId(playlistId) ==> r == Err(BadRequest)
    ensures IsValidObjectId(playlistId) ==>
      var (pid, before) := (playlistId.id, old(db.playlists));
      var owner := caller.Some? && Owns(before, pid, caller.value);
      && (caller.None? ==> r == Err(Unauthorized))
      && (caller.Some? && pid !in before ==> r == Err(NotFound))
      && (caller.Some? && pid in before && !owner ==> r == Err(Forbidden))
      && (owner ==> r == Ok(Success, ()) && db.playlists == before - {pid})
    ensures r.Err? ==> db.playlists == old(db.playlists)
  {
    if !IsValidObjectId(playlistId) {
      return Err(BadRequest);
    }
    if caller.None? {
      return Err(Unauthorized);
    }
    var pid := playlistId.id;
    if pid !in db.playlists {
      return Err(NotFound);
    }
    if db.playlists[pid].owner != caller.value {
      return Err(Forbidden);
    }
    db.playlists := db.playlists - {pid};
    r := Ok(Success, ());
  }

  /** updatePlaylist: id 400, nothing to update 400, caller 401, playlist 404, owner 403, and
      only then a name that trims to nothing 400. Only the supplied fields change, trimmed. */
  method UpdatePlaylist(db: Store, playlistId: IdParam, name: Option<string>,
                        description: Option<string>, caller: Option<Id>) returns (r: Reply<Playlist>)
    requires db.Valid()
    modifies db`playlists
    ensures db.Valid()
    ensures !IsValidObjectId(playlistId) ==> r == Err(BadRequest)
    ensures IsValidObjectId(playlistId) && !Present(name) && !Present(description) ==> r == Err(BadRequest)
    ensures IsValidObjectId(playlistId) && (Present(name) || Present(description)) ==>
      var (pid, before) := (playlistId.id, old(db.playlists));
      var owner := caller.Some? && Owns(before, pid, caller.value);
      var blankName := Present(name) && Trim(name.value) == "";
      && (caller.None? ==> r == Err(Unauthorized))
      && (caller.Some? && pid !in before ==> r == Err(NotFound))
      && (caller.Some? && pid in before && !owner ==> r == Err(Forbidden))
      && (owner && blankName ==> r == Err(BadRequest))
      && (owner && !blankName ==>
            var p := before[pid];
            && r.Ok? && r.status == Success
            && r.body.name == (if Present(name) then Trim(name.value) else p.name)
            && r.body.description == (if Present(description) then Trim(description.value) else p.description)
            && r.body.owner == p.owner && r.body.videos == p.videos && r.body.createdAt == p.createdAt
            && db.playlists == before[pid := r.body])
    ensures r.Err? ==> db.playlists == old(db.playlists)
  {
    if !IsValidObjectId(playlistId) {
      return Err(BadRequest);
    }
    if !Present(name) && !Present(description) {
      return Err(BadRequest);
    }
    if caller.None? {
      return Err(Unauthorized);
    }
    var pid := playlistId.id;
    if pid !in db.playlists {
      return Err(NotFound);
    }
    var p := db.playlists[pid];
    if p.owner != caller.value {
      return Err(Forbidden);
    }
    if Present(name) {
      if Trim(name.value) == "" {
        return Err(BadRequest);
      }
      p := p.(name := Trim(name.value));
    }
    if Present(description) {
      p := p.(description := Trim(description.value));
    }
    db.playlists := db.playlists[pid := p];
    r := Ok(Success, p);
  }

  function PlaylistCreatedAt(playlists: map<Id, Playlist>): Id -> int
  {
    i => if i in playlists then playlists[i].createdAt else 0
  }

  /** `Playlist.countDocuments({ owner })` and the `$match` stage of the listing. */
  ghost function PlaylistsOf(playlists: map<Id, Playlist>, owner: Id): set<Id>
  {
    set i | i in playlists && playlists[i].owner == owner
  }

  /** getUserPlaylists: the user's playlists newest first, one page of them, and the
      pagination object over all of them. The owner `$lookup`/`$unwind` drops every playlist
      when the owner's account is gone, while the total still counts them. */
  ghost function UserPlaylists(users: map<Id, User>, playlists: map<Id, Playlist>, userId: IdParam,
                               pageQuery: Option<int>, limitQuery: Option<int>): (r: Reply<Listing>)
    ensures !IsValidObjectId(userId) ==> r == Err(BadRequest)
    ensures IsValidObjectId(userId) ==>
      var (page, limit) := (ParsedOr(pageQuery, 1), ParsedOr(limitQuery, 10));
      var owned := PlaylistsOf(playlists, userId.id);
      && (r.Ok? <==> Skip(page, limit) >= 0 && limit > 0)
      && (r.Err? ==> r.status == ServerError)
      && (r.Ok? ==>
            var items := r.body.items;
            && r.status == Success
            && Distinct(items) && |items| <= limit
            && (forall i :: 0 <= i < |items| ==> items[i] in owned)
            && Ordered(items, PlaylistCreatedAt(playlists), true)
            && (userId.id in users ==>
                  var all := SortBy(owned, PlaylistCreatedAt(playlists), true);
                  |items| == Kept(|all|, Skip(page, limit), limit)
                  && forall i :: 0 <= i < |items| ==> items[i] == all[Skip(page, limit) + i])
            && (userId.id !in users ==> items == [])
            && r.body.pagination == MetaFor(page, limit, |owned|))
  {
    if !IsValidObjectId(userId) then Err(BadRequest)
    else
      var (page, limit) := (ParsedOr(pageQuery, 1), ParsedOr(limitQuery, 10));
      var owned := PlaylistsOf(playlists, userId.id);
      var matched := if userId.id in users then owned else {};
      match SortedPage(matched, PlaylistCreatedAt(playlists), true, Skip(page, limit), limit)
      case None => Err(ServerError)
      case Some(items) => Ok(Success, Listing(items, MetaFor(page, limit, |owned|)))
  }
}
