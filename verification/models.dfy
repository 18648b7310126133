/** The documents of the platform's collections, with the fields the
    handlers read or write. */
module Models {
  import opened Api

  /** A document's ObjectId, or a request parameter naming one; the empty
      string stands for a parameter that is missing (falsy). */
  type Id = string

  /** A user. `password` and `refreshToken` are `None` when the field is
      undefined on the document. */
  datatype User = User(
    fullname: string,
    username: string,
    email: string,
    password: Option<string>,
    avatar: string,
    coverImage: string,
    refreshToken: Option<string>)

  datatype Video = Video(
    title: string,
    description: string,
    videoFile: string,
    thumbnail: string,
    duration: real,
    isPublished: bool,
    owner: Id)

  datatype Comment = Comment(content: string, video: Id, owner: Id)

  /** The one document a like refers to: a like sets exactly one of its
      `video`, `comment` and `tweet` fields. */
  datatype LikeTarget = OnVideo(video: Id) | OnComment(comment: Id) | OnTweet(tweet: Id)

  datatype Like = Like(target: LikeTarget, likedBy: Id)

  /** A directed edge: `subscriber` follows `channel`. */
  datatype Subscription = Subscription(subscriber: Id, channel: Id)

  datatype Tweet = Tweet(content: string, owner: Id)

  datatype Playlist = Playlist(name: string, description: string, videos: seq<Id>, owner: Id)

  /** What the media host answers to an upload: the hosted file's URL and,
      for a video, its duration. */
  datatype Media = Media(url: string, duration: real)

  /** A multipart file field of the request: absent, or present together
      with what uploading it to the media host returned (`None` for the
      `null` that the upload helper returns on failure). */
  datatype FileInput = NoFile | File(upload: Option<Media>)

  /** A call a handler makes to the media host, in the order it makes them:
      an upload of the named request file field, or a deletion of a hosted
      asset by public id and resource type (the delete helper makes none
      for an empty public id). */
  datatype MediaCall = Upload(field: string) | Destroy(publicId: string, resourceType: string)
}
