/** The tweet handlers: a tweet table whose entries only their owner may
    change. Every failure is rethrown with status 500. */
module TweetController {
  import opened Api
  import opened Models
  import opened Store

  /** The messages the handlers fall back on when the caught error has none. */
  const UpdateFailure := "Failed to update tweet"
  const DeleteFailure := "Failed to delete tweet"

  /** `createTweet`: its catch replaces both status and message, so every
      failure, a missing content included, reads "Failed to create tweet". */
  method CreateTweet(db: Db, requester: Id, content: string, newId: Id) returns (r: Result<Tweet>)
    requires db.Valid()
    requires newId != "" && newId !in db.tweets
    modifies db
    ensures db.Valid()
    ensures content == "" ==> r == Err(500, "Failed to create tweet") && unchanged(db)
    ensures content != "" ==>
      && r == Ok(Tweet(content, requester))
      && db.Snapshot() == old(db.Snapshot()).(tweets := old(db.tweets)[newId := r.value])
  {
    if content == "" {
      r := Err(400, "Content is required");
    } else {
      var tweet := Tweet(content, requester);
      db.tweets := db.tweets[newId := tweet];
      r := Ok(tweet);
    }
    if r.Err? {
      r := Err(500, "Failed to create tweet");
    }
  }

  /** `updateTweet`: missing content, then unknown tweet, then non-owner;
      each failure keeps its message and gets status 500. */
  method UpdateTweet(db: Db, requester: Id, tweetId: Id, content: string) returns (r: Result<Tweet>)
    requires db.Valid()
    modifies db
    ensures db.Valid()
    ensures content == "" ==> r == Err(500, "Content is required")
    ensures content != "" && tweetId !in old(db.tweets) ==> r == Err(500, "Tweet not found")
    ensures content != "" && tweetId in old(db.tweets) && old(db.tweets)[tweetId].owner != requester ==>
      r == Err(500, "You are not authorized to update this tweet")
    ensures tweetId in old(db.tweets) && old(db.tweets)[tweetId].owner != requester ==> r.Err?
    ensures r.Err? ==> unchanged(db)
    ensures r.Ok? <==> content != "" && tweetId in old(db.tweets) && old(db.tweets)[tweetId].owner == requester
    ensures r.Ok? ==>
      && r.value == Tweet(content, old(db.tweets)[tweetId].owner)
      && db.Snapshot() == old(db.Snapshot()).(tweets := old(db.tweets)[tweetId := r.value])
  {
    if content == "" {
      r := Err(400, "Content is required");
    } else if tweetId !in db.tweets {
      r := Err(404, "Tweet not found");
    } else if db.tweets[tweetId].owner != requester {
      r := Err(403, "You are not authorized to update this tweet");
    } else {
      var tweet := db.tweets[tweetId].(content := content);
      db.tweets := db.tweets[tweetId := tweet];
      r := Ok(tweet);
    }
    r := Rethrow(r, 500, UpdateFailure);
  }

  /** `deleteTweet`: unknown tweet, then non-owner, then
      `findByIdAndDelete`, answering with the deleted tweet. */
  method DeleteTweet(db: Db, requester: Id, tweetId: Id) returns (r: Result<Tweet>)
    requires db.Valid()
    modifies db
    ensures db.Valid()
    ensures tweetId !in old(db.tweets) ==> r == Err(500, "Tweet not found")
    ensures tweetId in old(db.tweets) && old(db.tweets)[tweetId].owner != requester ==>
      r == Err(500, "You are not authorized to delete this tweet")
    ensures r.Err? ==> unchanged(db)
    ensures r.Ok? <==> tweetId in old(db.tweets) && old(db.tweets)[tweetId].owner == requester
    ensures r.Ok? ==>
      && r.value == old(db.tweets)[tweetId]
      && db.Snapshot() == old(db.Snapshot()).(tweets := old(db.tweets) - {tweetId})
  {
    if tweetId !in db.tweets {
      r := Err(404, "Tweet not found");
    } else if db.tweets[tweetId].owner != requester {
      r := Err(403, "You are not authorized to delete this tweet");
    } else {
      var tweet := db.tweets[tweetId];
      db.tweets := db.tweets - {tweetId};
      r := Ok(tweet);
    }
    r := Rethrow(r, 500, DeleteFailure);
  }
}
