/** The like handlers: every like is a new edge document in the likes
    collection, and an unlike deletes one matching edge. The video, comment
    and tweet variants differ only in the target field they set and in
    their messages, so each pair is one method over `LikeTarget`. */
module LikeController {
  import opened Api
  import opened Models
  import opened Mongo
  import opened Store

  function UnlikeFailure(target: LikeTarget): string {
    match target
    case OnVideo(_) => "Failed to unlike the video"
    case OnComment(_) => "Failed to unlike the comment"
    case OnTweet(_) => "Failed to unlike the tweet"
  }

  function UnlikeFallback(target: LikeTarget): string {
    match target
    case OnVideo(_) => "Something went wrong while unliking the video"
    case OnComment(_) => "Something went wrong while unliking the comment"
    case OnTweet(_) => "Something went wrong while unliking a tweet"
  }

  /** `videoLike`, `commentLike`, `tweetLike`: `Like.create` appends an edge
      from the requester to the target, with no check for an existing one. */
  method AddLike(db: Db, requester: Id, target: LikeTarget) returns (r: Result<Like>)
    requires db.Valid()
    modifies db
    ensures db.Valid()
    ensures r == Ok(Like(target, requester))
    ensures db.Snapshot() == old(db.Snapshot()).(likes := old(db.likes) + [Like(target, requester)])
  {
    var like := Like(target, requester);
    db.likes := db.likes + [like];
    r := Ok(like);
  }

  /** `videoUnlike`, `commentUnlike`, `tweetUnlike`: `findOneAndDelete`
      removes the first edge from the requester to the target; with none,
      the handler fails with status 500. */
  method RemoveLike(db: Db, requester: Id, target: LikeTarget) returns (r: Result<Like>)
    requires db.Valid()
    modifies db
    ensures db.Valid()
    ensures Like(target, requester) !in old(db.likes) ==>
      r == Err(500, UnlikeFailure(target)) && unchanged(db)
    ensures Like(target, requester) in old(db.likes) ==>
      && r == Ok(Like(target, requester))
      && db.Snapshot() == old(db.Snapshot()).(likes := RemoveFirst(old(db.likes), Like(target, requester)))
  {
    var like := Like(target, requester);
    if like in db.likes {
      db.likes := RemoveFirst(db.likes, like);
      r := Ok(like);
    } else {
      r := Err(500, UnlikeFailure(target));
    }
    r := Rethrow(r, 500, UnlikeFallback(target));
  }

  /** The query "likes of this target". */
  function OnTarget(target: LikeTarget): Like -> bool {
    (l: Like) => l.target == target
  }

  datatype TargetKind = VideoKind | CommentKind | TweetKind

  function KindOf(target: LikeTarget): TargetKind {
    match target
    case OnVideo(_) => VideoKind
    case OnComment(_) => CommentKind
    case OnTweet(_) => TweetKind
  }

  /** The query "likes on any target of this kind". */
  function OfKind(kind: TargetKind): Like -> bool {
    (l: Like) => KindOf(l.target) == kind
  }

  /** There is no uniqueness check: two likes by the same user on the same
      target raise the target's like count by two. */
  lemma LikeTwiceCountsTwice(likes: seq<Like>, like: Like)
    ensures |Filter(likes + [like] + [like], OnTarget(like.target))| == |Filter(likes, OnTarget(like.target))| + 2
  {
    FilterAppend(likes, like, OnTarget(like.target));
    FilterAppend(likes + [like], like, OnTarget(like.target));
  }

  /** A like followed by an unlike of the same (target, user) pair gives
      the target its like count back, even when the unlike removes an
      older edge than the one just added. */
  lemma LikeThenUnlikeRestoresCount(likes: seq<Like>, like: Like)
    ensures |Filter(RemoveFirst(likes + [like], like), OnTarget(like.target))|
         == |Filter(likes, OnTarget(like.target))|
  {
    FilterAppend(likes, like, OnTarget(like.target));
    FilterCountRemoveFirst(likes + [like], like, OnTarget(like.target));
  }

  /** The handlers for one kind of target never touch the likes on targets
      of another kind: neither appending nor deleting an edge changes them. */
  lemma OtherKindsUntouched(likes: seq<Like>, like: Like, kind: TargetKind)
    requires KindOf(like.target) != kind
    ensures Filter(likes + [like], OfKind(kind)) == Filter(likes, OfKind(kind))
    ensures Filter(RemoveFirst(likes, like), OfKind(kind)) == Filter(likes, OfKind(kind))
  {
    FilterAppend(likes, like, OfKind(kind));
    FilterRemoveUnselected(likes, like, OfKind(kind));
  }

  /** The handler-level round trip: liking and then unliking a target
      leaves its like count, and every other collection, as it was. */
  method LikeThenUnlike(db: Db, requester: Id, target: LikeTarget)
    requires db.Valid()
    modifies db
    ensures |Filter(db.likes, OnTarget(target))| == |Filter(old(db.likes), OnTarget(target))|
    ensures db.Snapshot().(likes := old(db.likes)) == old(db.Snapshot())
  {
    var liked := AddLike(db, requester, target);
    var unliked := RemoveLike(db, requester, target);
    LikeThenUnlikeRestoresCount(old(db.likes), Like(target, requester));
  }
}
