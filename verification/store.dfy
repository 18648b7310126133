/** The document database the handlers read and update: one table per
    entity collection, keyed by ObjectId, and the two edge collections
    (likes, subscriptions) in insertion order, duplicates allowed. */
module Store {
  import opened Models

  /** The contents of every collection at one moment. */
  datatype Collections = Collections(
    users: map<Id, User>,
    videos: map<Id, Video>,
    comments: map<Id, Comment>,
    likes: seq<Like>,
    subscriptions: seq<Subscription>,
    tweets: map<Id, Tweet>,
    playlists: map<Id, Playlist>)

  class Db {
    var users: map<Id, User>
    var videos: map<Id, Video>
    var comments: map<Id, Comment>
    var likes: seq<Like>
    var subscriptions: seq<Subscription>
    var tweets: map<Id, Tweet>
    var playlists: map<Id, Playlist>

    /** No document has an empty ObjectId, so a missing id parameter never
        finds one. */
    ghost predicate Valid()
      reads this
    {
      && "" !in users
      && "" !in videos
      && "" !in comments
      && "" !in tweets
      && "" !in playlists
    }

    /** The whole database as a value, so that a handler's contract can say
        which collection it changes and that no other one changes. */
    function Snapshot(): Collections
      reads this
    {
      Collections(users, videos, comments, likes, subscriptions, tweets, playlists)
    }

    constructor ()
      ensures Valid()
      ensures Snapshot() == Collections(map[], map[], map[], [], [], map[], map[])
    {
      users, videos, comments := map[], map[], map[];
      likes, subscriptions := [], [];
      tweets, playlists := map[], map[];
    }
  }
}
