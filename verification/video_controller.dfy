/** The video handlers. Uploads to the media host are inputs (`FileInput`);
    each handler also returns the media-host calls it made, in order. Video
    details may be changed by the owner only; the media file and the
    thumbnail by anyone who names the video. */
module VideoController {
  import opened Api
  import opened Models
  import opened Js
  import opened Store

  /** The default of the video schema's `isPublished` flag. */
  const PublishedByDefault := true

  /** The messages the handlers fall back on when the caught error has none. */
  const UploadFailure := "Something went wrong while uploading the video"
  const DetailsFailure := "Something went wrong while updating video details"
  const VideoFileFailure := "Something went wrong while updating videoFile"
  const ThumbnailFailure := "Something went wrong while updating the thumbnail, try later"

  /** `uploadVideo`: title and description are checked before the files,
      and nothing is uploaded before both checks pass. Both files are then
      uploaded, and a `null` from either upload stops the creation. */
  method UploadVideo(db: Db, requester: Id, title: string, description: string,
                     videoFile: FileInput, thumbnail: FileInput, newId: Id)
    returns (r: Result<Video>, calls: seq<MediaCall>)
    requires db.Valid()
    requires newId != "" && newId !in db.videos
    modifies db
    ensures db.Valid()
    ensures title == "" || description == "" ==>
      r == Err(500, "Enter all feilds") && calls == []
    ensures title != "" && description != "" && (videoFile.NoFile? || thumbnail.NoFile?) ==>
      r == Err(500, "Please upload files properly") && calls == []
    ensures title != "" && description != "" && videoFile.File? && thumbnail.File? ==>
      calls == [Upload("videoFile"), Upload("thumbnail")]
    ensures title != "" && description != "" && videoFile.File? && thumbnail.File?
            && (videoFile.upload.None? || thumbnail.upload.None?) ==>
      r == Err(500, "Something went wrong while uploading files to cloudinary")
    ensures r.Err? ==> unchanged(db)
    ensures r.Ok? <==>
      && title != "" && description != ""
      && videoFile.File? && thumbnail.File? && videoFile.upload.Some? && thumbnail.upload.Some?
    ensures r.Ok? ==>
      && r.value == Video(title, description, videoFile.upload.value.url, thumbnail.upload.value.url,
                          videoFile.upload.value.duration, PublishedByDefault, requester)
      && db.Snapshot() == old(db.Snapshot()).(videos := old(db.videos)[newId := r.value])
  {
    calls := [];
    if title == "" || description == "" {
      r := Err(400, "Enter all feilds");
    } else if videoFile.NoFile? || thumbnail.NoFile? {
      r := Err(400, "Please upload files properly");
    } else {
      calls := [Upload("videoFile"), Upload("thumbnail")];
      var videoUpload, thumbnailUpload := videoFile.upload, thumbnail.upload;
      if videoUpload.None? || thumbnailUpload.None? {
        r := Err(500, "Something went wrong while uploading files to cloudinary");
      } else {
        var video := Video(title, description, videoUpload.value.url, thumbnailUpload.value.url,
                           videoUpload.value.duration, PublishedByDefault, requester);
        db.videos := db.videos[newId := video];
        r := Ok(video);
      }
    }
    r := Rethrow(r, 500, UploadFailure);
  }

  /** The merge `updateVideoDetails` applies: a non-empty title or
      description replaces the stored one, a truthy `isPublished` flips the
      flag (it does not set it), and no other field changes. */
  function MergeDetails(video: Video, title: string, description: string, isPublished: bool): (v: Video)
    ensures v.(title := video.title, description := video.description, isPublished := video.isPublished) == video
    ensures title != "" ==> v.title == title
    ensures title == "" ==> v.title == video.title
    ensures description != "" ==> v.description == description
    ensures description == "" ==> v.description == video.description
    ensures v.isPublished == (video.isPublished != isPublished)
  {
    var titled := if title != "" then video.(title := title) else video;
    var described := if description != "" then titled.(description := description) else titled;
    if isPublished then described.(isPublished := !described.isPublished) else described
  }

  /** Sending `isPublished` twice brings the flag back: it is a toggle. */
  lemma PublishToggleTwice(video: Video, title: string, description: string)
    ensures MergeDetails(MergeDetails(video, title, description, true), title, description, true)
         == MergeDetails(video, title, description, false)
  {
  }

  /** `updateVideoDetails`: needs an id and one truthy field; a missing
      video or a requester who is not the owner changes nothing. The catch
      replaces status and message of every failure. */
  method UpdateVideoDetails(db: Db, requester: Id, id: Id, title: string, description: string, isPublished: bool)
    returns (r: Result<Video>)
    requires db.Valid()
    modifies db
    ensures db.Valid()
    ensures r.Err? ==> r == Err(500, DetailsFailure) && unchanged(db)
    ensures r.Ok? <==>
      && id != "" && (title != "" || description != "" || isPublished)
      && id in old(db.videos) && old(db.videos)[id].owner == requester
    ensures r.Ok? ==>
      && r.value == MergeDetails(old(db.videos)[id], title, description, isPublished)
      && db.Snapshot() == old(db.Snapshot()).(videos := old(db.videos)[id := r.value])
  {
    if id == "" {
      r := Err(400, "Not a valid video ID");
    } else if !(title != "" || description != "" || isPublished) {
      r := Err(400, "Enter a field");
    } else if id !in db.videos {
      // `video.owner` on the `null` that `findById` returned
      r := Err(500, "Cannot read properties of null (reading 'owner')");
    } else if db.videos[id].owner != requester {
      r := Err(401, "Unauthorized to edit video");
    } else {
      var video := MergeDetails(db.videos[id], title, description, isPublished);
      db.videos := db.videos[id := video];
      r := Ok(video);
    }
    if r.Err? {
      r := Err(500, DetailsFailure);
    }
  }

  /** The public id of a hosted asset, as the handlers compute it from its
      URL: `url.substring(url.lastIndexOf("/") + 1, url.lastIndexOf("."))`.
      With `slash` and `dot` the positions of the last `/` and the last `.`
      (-1 when absent): a `.` after the last `/` ends the id there, so
      `clip.mp4` gives `clip`; without any `.` the -1 end is clamped to 0
      and swapped, giving everything through the last `/`; a `.` before the
      last `/` (a dotted host name and no extension) is swapped with it,
      giving the text from that `.` through that `/`. */
  function PublicId(url: string): (id: string)
    ensures |id| <= |url|
    ensures LastIndexOf(url, '/') < LastIndexOf(url, '.') ==>
      id == url[LastIndexOf(url, '/') + 1..LastIndexOf(url, '.')]
    ensures LastIndexOf(url, '.') == -1 ==> id == url[..LastIndexOf(url, '/') + 1]
    ensures 0 <= LastIndexOf(url, '.') < LastIndexOf(url, '/') ==>
      id == url[LastIndexOf(url, '.')..LastIndexOf(url, '/') + 1]
  {
    var slash, dot := LastIndexOf(url, '/'), LastIndexOf(url, '.');
    Substring(url, slash + 1, dot)
  }

  /** For a URL ending in `/<name>.<extension>`, the public id is `name`. */
  lemma PublicIdOfAssetUrl(dir: string, name: string, ext: string)
    requires '/' !in name && '/' !in ext && '.' !in ext
    ensures PublicId(dir + "/" + name + "." + ext) == name
  {
    var url := dir + "/" + name + "." + ext;
    var slash, dot := |dir|, |dir| + 1 + |name|;
    assert url[slash + 1..] == name + "." + ext;
    assert url[dot + 1..] == ext;
    LastIndexOfAt(url, '/', slash);
    LastIndexOfAt(url, '.', dot);
    assert url[slash + 1..dot] == name;
  }

  /** The three cases above cover every URL: the last `/` and the last `.`
      are never at the same position. */
  lemma PublicIdCasesComplete(url: string)
    ensures var slash, dot := LastIndexOf(url, '/'), LastIndexOf(url, '.');
      slash < dot || dot == -1 || 0 <= dot < slash
  {
  }

  /** `deleteFromCloudinary`: an empty public id returns before the media
      host is called. */
  function DeleteFromHost(publicId: string, resourceType: string): seq<MediaCall> {
    if publicId == "" then [] else [Destroy(publicId, resourceType)]
  }

  /** `updateVideoFile`: no ownership check. The stored file is deleted
      from the media host before the new one is uploaded, so a failed
      upload leaves the video pointing at a deleted asset. */
  method UpdateVideoFile(db: Db, id: Id, file: FileInput) returns (r: Result<Video>, calls: seq<MediaCall>)
    requires db.Valid()
    modifies db
    ensures db.Valid()
    ensures file.NoFile? ==> r == Err(400, "File not uploaded properly") && calls == []
    ensures file.File? && id !in old(db.videos) ==> r == Err(400, "Invalid video id") && calls == []
    ensures file.File? && id in old(db.videos) ==>
      calls == (if PublicId(old(db.videos)[id].videoFile) == "" then []
                else [Destroy(PublicId(old(db.videos)[id].videoFile), "video")]) + [Upload("videoFile")]
    ensures file.File? && id in old(db.videos) && file.upload.None? ==>
      r == Err(400, "Cannot read properties of null (reading 'url')")
    ensures r.Err? ==> unchanged(db)
    ensures r.Ok? <==> file.File? && id in old(db.videos) && file.upload.Some?
    ensures r.Ok? ==>
      && r.value == old(db.videos)[id].(videoFile := file.upload.value.url, duration := file.upload.value.duration)
      && db.Snapshot() == old(db.Snapshot()).(videos := old(db.videos)[id := r.value])
  {
    calls := [];
    if file.NoFile? {
      r := Err(400, "File not uploaded properly");
    } else if id !in db.videos {
      r := Err(400, "Invalid video id");
    } else {
      var video := db.videos[id];
      var publicId := PublicId(video.videoFile);
      calls := DeleteFromHost(publicId, "video") + [Upload("videoFile")];
      if file.upload.None? {
        r := Err(400, "Cannot read properties of null (reading 'url')");
      } else {
        video := video.(videoFile := file.upload.value.url, duration := file.upload.value.duration);
        db.videos := db.videos[id := video];
        r := Ok(video);
      }
    }
    r := Rethrow(r, 400, VideoFileFailure);
  }

  /** `updateThumbnail`: like `updateVideoFile`, for the thumbnail image. */
  method UpdateThumbnail(db: Db, id: Id, file: FileInput) returns (r: Result<Video>, calls: seq<MediaCall>)
    requires db.Valid()
    modifies db
    ensures db.Valid()
    ensures file.NoFile? ==> r == Err(400, "File not handled properly") && calls == []
    ensures file.File? && id !in old(db.videos) ==> r == Err(400, "Invalid video id") && calls == []
    ensures file.File? && id in old(db.videos) ==>
      calls == (if PublicId(old(db.videos)[id].thumbnail) == "" then []
                else [Destroy(PublicId(old(db.videos)[id].thumbnail), "image")]) + [Upload("thumbnail")]
    ensures file.File? && id in old(db.videos) && file.upload.None? ==>
      r == Err(400, "Cannot read properties of null (reading 'url')")
    ensures r.Err? ==> unchanged(db)
    ensures r.Ok? <==> file.File? && id in old(db.videos) && file.upload.Some?
    ensures r.Ok? ==>
      && r.value == old(db.videos)[id].(thumbnail := file.upload.value.url)
      && db.Snapshot() == old(db.Snapshot()).(videos := old(db.videos)[id := r.value])
  {
    calls := [];
    if file.NoFile? {
      r := Err(400, "File not handled properly");
    } else if id !in db.videos {
      r := Err(400, "Invalid video id");
    } else {
      var video := db.videos[id];
      var publicId := PublicId(video.thumbnail);
      calls := DeleteFromHost(publicId, "image") + [Upload("thumbnail")];
      if file.upload.None? {
        r := Err(400, "Cannot read properties of null (reading 'url')");
      } else {
        video := video.(thumbnail := file.upload.value.url);
        db.videos := db.videos[id := video];
        r := Ok(video);
      }
    }
    r := Rethrow(r, 400, ThumbnailFailure);
  }
}
