/** The playlist handlers: a playlist table whose entries only their owner
    may change, each holding a set-like list of video ids. */
module PlaylistController {
  import opened Api
  import opened Models
  import opened Mongo
  import opened Store

  /** `createPlaylist`: the playlist is stored before the video is looked
      up, so an unknown video leaves a new playlist with no videos behind. */
  method CreatePlaylist(db: Db, requester: Id, name: string, description: string, videoId: Id, newId: Id)
    returns (r: Result<Playlist>)
    requires db.Valid()
    requires newId != "" && newId !in db.playlists
    modifies db
    ensures db.Valid()
    ensures name == "" ==> r == Err(400, "Name is required") && unchanged(db)
    ensures name != "" && videoId !in old(db.videos) ==>
      && r == Err(404, "Video not found")
      && db.Snapshot() == old(db.Snapshot()).(playlists := old(db.playlists)[newId := Playlist(name, description, [], requester)])
    ensures name != "" && videoId in old(db.videos) ==>
      && r == Ok(Playlist(name, description, [videoId], requester))
      && db.Snapshot() == old(db.Snapshot()).(playlists := old(db.playlists)[newId := r.value])
  {
    if name == "" {
      return Err(400, "Name is required");
    }
    var playlist := Playlist(name, description, [], requester);
    db.playlists := db.playlists[newId := playlist];
    if videoId !in db.videos {
      return Err(404, "Video not found");
    }
    playlist := playlist.(videos := playlist.videos + [videoId]);
    assert playlist.videos == [videoId];
    db.playlists := db.playlists[newId := playlist];
    r := Ok(playlist);
  }

  /** `addVideoToPlaylist`: after the 400, 404 and 403 guards, `$addToSet`
      the video id; whether that video exists is never checked. */
  method AddVideoToPlaylist(db: Db, requester: Id, playlistId: Id, videoId: Id)
    returns (r: Result<Playlist>)
    requires db.Valid()
    modifies db
    ensures db.Valid()
    ensures playlistId == "" || videoId == "" ==>
      r == Err(400, "Playlist ID and Video ID are required")
    ensures playlistId != "" && videoId != "" && playlistId !in old(db.playlists) ==>
      r == Err(404, "Playlist not found")
    ensures playlistId != "" && videoId != "" && playlistId in old(db.playlists)
            && old(db.playlists)[playlistId].owner != requester ==>
      r == Err(403, "You are not authorized to update this playlist")
    ensures r.Err? ==> unchanged(db)
    ensures r.Ok? <==>
      && playlistId != "" && videoId != "" && playlistId in old(db.playlists)
      && old(db.playlists)[playlistId].owner == requester
    ensures r.Ok? ==>
      && r.value == old(db.playlists)[playlistId].(videos := AddToSet(old(db.playlists)[playlistId].videos, videoId))
      && db.Snapshot() == old(db.Snapshot()).(playlists := old(db.playlists)[playlistId := r.value])
  {
    if playlistId == "" || videoId == "" {
      return Err(400, "Playlist ID and Video ID are required");
    }
    if playlistId !in db.playlists {
      return Err(404, "Playlist not found");
    }
    var playlist := db.playlists[playlistId];
    if playlist.owner != requester {
      return Err(403, "You are not authorized to update this playlist");
    }
    var updated := playlist.(videos := AddToSet(playlist.videos, videoId));
    db.playlists := db.playlists[playlistId := updated];
    r := Ok(updated);
  }

  /** `removeVideoFromPlaylist`: the same guards, then `$pull` every
      occurrence of the video id. */
  method RemoveVideoFromPlaylist(db: Db, requester: Id, playlistId: Id, videoId: Id)
    returns (r: Result<Playlist>)
    requires db.Valid()
    modifies db
    ensures db.Valid()
    ensures playlistId == "" || videoId == "" ==>
      r == Err(400, "Playlist ID and Video ID are required")
    ensures playlistId != "" && videoId != "" && playlistId !in old(db.playlists) ==>
      r == Err(404, "Playlist not found")
    ensures playlistId != "" && videoId != "" && playlistId in old(db.playlists)
            && old(db.playlists)[playlistId].owner != requester ==>
      r == Err(403, "You are not authorized to update this playlist")
    ensures r.Err? ==> unchanged(db)
    ensures r.Ok? <==>
      && playlistId != "" && videoId != "" && playlistId in old(db.playlists)
      && old(db.playlists)[playlistId].owner == requester
    ensures r.Ok? ==>
      && r.value == old(db.playlists)[playlistId].(videos := Pull(old(db.playlists)[playlistId].videos, videoId))
      && db.Snapshot() == old(db.Snapshot()).(playlists := old(db.playlists)[playlistId := r.value])
  {
    if playlistId == "" || videoId == "" {
      return Err(400, "Playlist ID and Video ID are required");
    }
    if playlistId !in db.playlists {
      return Err(404, "Playlist not found");
    }
    var playlist := db.playlists[playlistId];
    if playlist.owner != requester {
      return Err(403, "You are not authorized to update this playlist");
    }
    var updated := playlist.(videos := Pull(playlist.videos, videoId));
    db.playlists := db.playlists[playlistId := updated];
    r := Ok(updated);
  }

  /** `deletePlaylist`: the 400, 404 and 403 guards, then
      `findByIdAndDelete`; the response carries no data. */
  method DeletePlaylist(db: Db, requester: Id, playlistId: Id) returns (r: Result<()>)
    requires db.Valid()
    modifies db
    ensures db.Valid()
    ensures playlistId == "" ==> r == Err(400, "Playlist ID is required")
    ensures playlistId != "" && playlistId !in old(db.playlists) ==> r == Err(404, "Playlist not found")
    ensures playlistId != "" && playlistId in old(db.playlists)
            && old(db.playlists)[playlistId].owner != requester ==>
      r == Err(403, "You are not authorized to delete this playlist")
    ensures r.Err? ==> unchanged(db)
    ensures r.Ok? <==>
      playlistId != "" && playlistId in old(db.playlists) && old(db.playlists)[playlistId].owner == requester
    ensures r.Ok? ==>
      db.Snapshot() == old(db.Snapshot()).(playlists := old(db.playlists) - {playlistId})
  {
    if playlistId == "" {
      return Err(400, "Playlist ID is required");
    }
    if playlistId !in db.playlists {
      return Err(404, "Playlist not found");
    }
    if db.playlists[playlistId].owner != requester {
      return Err(403, "You are not authorized to delete this playlist");
    }
    db.playlists := db.playlists - {playlistId};
    r := Ok(());
  }

  /** Adding a video the playlist does not hold and then removing it
      restores the whole database. */
  method AddThenRemoveVideo(db: Db, requester: Id, playlistId: Id, videoId: Id)
    requires db.Valid()
    requires playlistId in db.playlists && db.playlists[playlistId].owner == requester
    requires videoId != "" && videoId !in db.playlists[playlistId].videos
    modifies db
    ensures db.Snapshot() == old(db.Snapshot())
  {
    ghost var before := db.playlists[playlistId];
    ghost var start := db.Snapshot();
    var added := AddVideoToPlaylist(db, requester, playlistId, videoId);
    assert added.Ok?;
    var removed := RemoveVideoFromPlaylist(db, requester, playlistId, videoId);
    assert removed.Ok?;
    PullAfterAddToSet(before.videos, videoId);
    assert removed.value == before;
    assert db.playlists == start.playlists[playlistId := added.value][playlistId := before];
    assert db.playlists == start.playlists;
  }
}
