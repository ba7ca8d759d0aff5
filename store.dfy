/** The record store the controllers work against: the user, post, comment and notification
    collections, each a sequence in the store's natural order, and the lookups the controllers
    make on them. */
module Store {
  import opened Wrappers
  import opened Seqs
  import opened PostModel

  /** The identity provider's user id, as `getAuth` reports it. */
  type ClerkId = string

  /** A stored user. `createdAt` is in milliseconds since the epoch. */
  datatype User = User(
    id: UserId,
    clerkId: ClerkId,
    email: string,
    firstName: string,
    lastName: string,
    username: string,
    profilePicture: string,
    following: seq<UserId>,
    followers: seq<UserId>,
    spamUntil: Option<int>,
    createdAt: int)

  /** A stored comment; `post` is the post it belongs to. */
  datatype Comment = Comment(id: CommentId, post: PostId, user: UserId)

  datatype NotificationKind = LikeNotice | FollowNotice | SpamNotice

  /** A stored notification (its message text is not modelled). */
  datatype Notification = Notification(kind: NotificationKind, from: Option<UserId>, to: UserId, post: Option<PostId>)

  /** Why a controller refused a request: one constructor per distinct error response. */
  datatype Error =
    | UserNotFound
    | PostNotFound
    | UserOrPostNotFound
    | NotAuthor
    | SelfShare
    | SelfFollow
    | MissingTextOrImage
    | InvalidType
    | InvalidCategories
    | InvalidCategoryQuery
    | NoValidCategory
    | MissingReasonOrUser
    | AlreadyReported
    | MissingContent
    | InvalidBanDuration
    | UploadFailed
    | NoEmailAddress
    | ValidationFailed(paths: set<SchemaPath>)

  predicate UniqueUserIds(users: seq<User>) {
    forall i, j :: 0 <= i < j < |users| ==> users[i].id != users[j].id
  }

  predicate UniquePostIds(posts: seq<Post>) {
    forall i, j :: 0 <= i < j < |posts| ==> posts[i].id != posts[j].id
  }

  /** Every post passes the schema's validators. */
  predicate AllConform(posts: seq<Post>) {
    forall i :: 0 <= i < |posts| ==> Conforms(posts[i])
  }

  /** `User.findOne({ clerkId })`: the first user with that identity-provider id. */
  function FindUserByClerk(users: seq<User>, clerk: ClerkId): (r: Option<nat>)
    ensures r.Some? ==> r.value < |users| && users[r.value].clerkId == clerk
    ensures r.Some? ==> forall j :: 0 <= j < r.value ==> users[j].clerkId != clerk
    ensures r.None? <==> forall j :: 0 <= j < |users| ==> users[j].clerkId != clerk
  {
    FirstMatch(users, (u: User) => u.clerkId == clerk)
  }

  /** `User.findById(id)`. */
  function FindUserById(users: seq<User>, id: UserId): (r: Option<nat>)
    ensures r.Some? ==> r.value < |users| && users[r.value].id == id
    ensures r.None? <==> forall j :: 0 <= j < |users| ==> users[j].id != id
  {
    FirstMatch(users, (u: User) => u.id == id)
  }

  /** `Post.findById(id)`. */
  function FindPostById(posts: seq<Post>, id: PostId): (r: Option<nat>)
    ensures r.Some? ==> r.value < |posts| && posts[r.value].id == id
    ensures r.None? <==> forall j :: 0 <= j < |posts| ==> posts[j].id != id
  {
    FirstMatch(posts, (p: Post) => p.id == id)
  }

  /** `Comment.deleteMany({ post: id })`: the comments that survive. */
  function WithoutCommentsOf(comments: seq<Comment>, id: PostId): (r: seq<Comment>)
    ensures forall c :: c in r <==> c in comments && c.post != id
  {
    Filter(comments, (c: Comment) => c.post != id)
  }

  /** Every comment belongs to a stored post. */
  predicate NoOrphans(posts: seq<Post>, comments: seq<Comment>) {
    forall c :: c in comments ==> exists p :: p in posts && p.id == c.post
  }

  /** The posts without the one at `k`. */
  function RemoveAt(posts: seq<Post>, k: nat): (r: seq<Post>)
    requires k < |posts|
    ensures |r| == |posts| - 1
    ensures forall p :: p in r ==> p in posts
    ensures UniquePostIds(posts) ==> forall p :: p in r <==> p in posts && p.id != posts[k].id
  {
    var r := posts[..k] + posts[k + 1..];
    assert forall i :: 0 <= i < |r| ==> r[i] == if i < k then posts[i] else posts[i + 1];
    r
  }

  /** Removing a post keeps record ids unique and every stored post valid. */
  lemma RemoveAtKeepsValid(posts: seq<Post>, k: nat)
    requires k < |posts| && UniquePostIds(posts)
    requires AllConform(posts)
    ensures UniquePostIds(RemoveAt(posts, k)) && AllConform(RemoveAt(posts, k))
  {
    var r := RemoveAt(posts, k);
    assert forall i :: 0 <= i < |r| ==> r[i] == if i < k then posts[i] else posts[i + 1];
  }

  /** Replacing a post by one with the same id that passes the schema keeps the posts valid. */
  lemma ReplaceKeepsValid(posts: seq<Post>, k: nat, q: Post)
    requires k < |posts| && q.id == posts[k].id && Conforms(q) && UniquePostIds(posts)
    requires AllConform(posts)
    ensures UniquePostIds(posts[k := q]) && AllConform(posts[k := q])
  {
    assert forall i :: 0 <= i < |posts| ==> posts[k := q][i].id == posts[i].id;
  }

  /** Appending a post with a fresh id that passes the schema keeps the posts valid. */
  lemma AppendKeepsValid(posts: seq<Post>, q: Post)
    requires Conforms(q) && UniquePostIds(posts) && forall p :: p in posts ==> p.id != q.id
    requires AllConform(posts)
    ensures UniquePostIds(posts + [q]) && AllConform(posts + [q])
  {
    forall i, j | 0 <= i < j < |posts| + 1 ensures (posts + [q])[i].id != (posts + [q])[j].id {
      if j == |posts| {
        assert posts[i] in posts;
      }
    }
  }

  /** Replacing a user by one with the same id keeps user ids unique. */
  lemma ReplaceUserKeepsIds(users: seq<User>, k: nat, u: User)
    requires k < |users| && u.id == users[k].id && UniqueUserIds(users)
    ensures UniqueUserIds(users[k := u])
  {
    assert forall i :: 0 <= i < |users| ==> users[k := u][i].id == users[i].id;
  }

  /** Deleting a post with its comments leaves no comment without its post. */
  lemma DeleteKeepsNoOrphans(posts: seq<Post>, comments: seq<Comment>, k: nat)
    requires k < |posts| && UniquePostIds(posts) && NoOrphans(posts, comments)
    ensures NoOrphans(RemoveAt(posts, k), WithoutCommentsOf(comments, posts[k].id))
  {
    var id := posts[k].id;
    var left := RemoveAt(posts, k);
    forall c | c in WithoutCommentsOf(comments, id) ensures exists p :: p in left && p.id == c.post {
      var p :| p in posts && p.id == c.post;
      assert p in left;
    }
  }

  /** The store. */
  class Db {
    var users: seq<User>
    var posts: seq<Post>
    var comments: seq<Comment>
    var notifications: seq<Notification>

    /** Record ids are unique and every stored post passes the schema's validators. */
    predicate Valid()
      reads this
    {
      UniqueUserIds(users) && UniquePostIds(posts) &&
      AllConform(posts)
    }

    constructor ()
      ensures Valid()
      ensures users == [] && posts == [] && comments == [] && notifications == []
    {
      users, posts, comments, notifications := [], [], [], [];
    }
  }
}
