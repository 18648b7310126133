/** The comment handlers: a comment table with input validation and no
    ownership check, so edit and delete do not take the requester at all.
    Every failure is rethrown with status 500. */
module CommentController {
  import opened Api
  import opened Models
  import opened Mongo
  import opened Store

  /** The messages the handlers fall back on when the caught error has none. */
  const AddFailure := "Something went wrong while adding the comment"
  const EditFailure := "Something went wrong while editing the comment"
  const DeleteFailure := "Something went wrong while deleting the comment"

  /** `addComment`: empty content is reported before a bad video id; the
      video itself is never looked up. */
  method AddComment(db: Db, requester: Id, comment: string, videoId: Id, newId: Id)
    returns (r: Result<Comment>)
    requires db.Valid()
    requires newId != "" && newId !in db.comments
    modifies db
    ensures db.Valid()
    ensures comment == "" ==> r == Err(500, "Please enter a comment")
    ensures comment != "" && !IsValidObjectId(videoId) ==> r == Err(500, "Invalid video id")
    ensures r.Err? ==> unchanged(db)
    ensures r.Ok? <==> comment != "" && IsValidObjectId(videoId)
    ensures r.Ok? ==>
      && r.value == Comment(comment, videoId, requester)
      && db.Snapshot() == old(db.Snapshot()).(comments := old(db.comments)[newId := r.value])
  {
    if comment == "" {
      r := Err(400, "Please enter a comment");
    } else if videoId == "" || !IsValidObjectId(videoId) {
      r := Err(400, "Invalid video id");
    } else {
      var doc := Comment(comment, videoId, requester);
      db.comments := db.comments[newId := doc];
      r := Ok(doc);
    }
    r := Rethrow(r, 500, AddFailure);
  }

  /** `editComment`: `$set` of the content of whichever comment the id
      names, whoever owns it. */
  method EditComment(db: Db, comment: string, commentId: Id) returns (r: Result<Comment>)
    requires db.Valid()
    modifies db
    ensures db.Valid()
    ensures comment == "" ==> r == Err(500, "Please enter a comment")
    ensures comment != "" && !IsValidObjectId(commentId) ==> r == Err(500, "Invalid comment id")
    ensures comment != "" && IsValidObjectId(commentId) && commentId !in old(db.comments) ==>
      r == Err(500, "Failed to edit comment")
    ensures r.Err? ==> unchanged(db)
    ensures r.Ok? <==> comment != "" && IsValidObjectId(commentId) && commentId in old(db.comments)
    ensures r.Ok? ==>
      && r.value == old(db.comments)[commentId].(content := comment)
      // the edit never changes who owns the comment
      && r.value.owner == old(db.comments)[commentId].owner
      && db.Snapshot() == old(db.Snapshot()).(comments := old(db.comments)[commentId := r.value])
  {
    if comment == "" {
      r := Err(400, "Please enter a comment");
    } else if commentId == "" || !IsValidObjectId(commentId) {
      r := Err(400, "Invalid comment id");
    } else if commentId !in db.comments {
      r := Err(500, "Failed to edit comment");
    } else {
      var doc := db.comments[commentId].(content := comment);
      db.comments := db.comments[commentId := doc];
      r := Ok(doc);
    }
    r := Rethrow(r, 500, EditFailure);
  }

  /** `deleteComment`: `findByIdAndDelete` of whichever comment the id
      names, whoever owns it; the likes on it stay. */
  method DeleteComment(db: Db, commentId: Id) returns (r: Result<Comment>)
    requires db.Valid()
    modifies db
    ensures db.Valid()
    ensures !IsValidObjectId(commentId) ==> r == Err(500, "Invalid comment id")
    ensures IsValidObjectId(commentId) && commentId !in old(db.comments) ==>
      r == Err(500, "Failed to delete comment")
    ensures r.Err? ==> unchanged(db)
    ensures r.Ok? <==> IsValidObjectId(commentId) && commentId in old(db.comments)
    ensures r.Ok? ==>
      && r.value == old(db.comments)[commentId]
      && db.Snapshot() == old(db.Snapshot()).(comments := old(db.comments) - {commentId})
  {
    if commentId == "" || !IsValidObjectId(commentId) {
      r := Err(400, "Invalid comment id");
    } else if commentId !in db.comments {
      r := Err(500, "Failed to delete comment");
    } else {
      var doc := db.comments[commentId];
      db.comments := db.comments - {commentId};
      r := Ok(doc);
    }
    r := Rethrow(r, 500, DeleteFailure);
  }
}
