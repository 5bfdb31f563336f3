/**
 * The stored records of backend/internal/models/models.go. Times are
 * instants on one clock (nanoseconds since the Unix epoch), kept at full
 * precision; counters are unbounded integers.
 */
module Models {
  import opened Wrappers
  import opened ObjectIds

  type Time = int

  datatype User = User(
    id: ObjectId,
    username: string,
    displayName: string,
    email: string,
    password: string,         // the bcrypt hash, never the password itself
    avatarUrl: string,
    bio: string,
    reputation: int,
    isAdmin: bool,
    bannedUntil: Option<Time>,
    githubId: string,
    createdAt: Time,
    updatedAt: Time)

  datatype Post = Post(
    id: ObjectId,
    authorId: ObjectId,
    content: string,
    codeSnippet: string,
    language: string,
    tags: seq<string>,
    visibility: string,
    likesCount: int,
    commentsCount: int,
    viewsCount: int,
    upvotesCount: int,
    deleted: bool,
    createdAt: Time,
    updatedAt: Time)

  datatype Reel = Reel(
    id: ObjectId,
    authorId: ObjectId,
    title: string,
    description: string,
    videoUrl: string,
    thumbnailUrl: string,
    duration: int,
    tags: seq<string>,
    visibility: string,
    likesCount: int,
    commentsCount: int,
    viewsCount: int,
    deleted: bool,
    createdAt: Time,
    updatedAt: Time)

  datatype Comment = Comment(
    id: ObjectId,
    authorId: ObjectId,
    content: string,
    postId: Option<ObjectId>,
    reelId: Option<ObjectId>,
    parentCommentId: Option<ObjectId>,
    likesCount: int,
    deleted: bool,
    createdAt: Time)

  /** A like, view or upvote of a post, reel or comment. */
  datatype Engagement = Engagement(
    id: ObjectId,
    userId: ObjectId,
    targetType: string,
    targetId: ObjectId,
    kind: string,
    createdAt: Time)

  /** The visibility every feed and reel list shows. */
  const Public := "PUBLIC"
}
