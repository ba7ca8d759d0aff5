/** The post controller's state-changing handlers and request checks: creating, liking,
    reporting, deleting, editing and sharing a post, and the category search. The caller's
    identity, the upload result, the new record id and the clock are inputs. */
module PostController {
  import opened Wrappers
  import opened Seqs
  import opened Js
  import opened PostModel
  import opened Store

  // ---------------------------------------------------------------------------------------------
  // createPost

  /** What `createPost` reads from the request: the `content` text field (absent or a string),
      the `type` and `categories` body values, the price once the empty-value check and the
      number conversion are done, and whether an image file came with it. */
  datatype CreateRequest = CreateRequest(
    content: Option<string>,
    kind: JsValue,
    price: Option<int>,
    categories: JsValue,
    hasImage: bool)

  /** The handler's category check: an array, not empty, of strings that are not blank. */
  predicate CategoriesGuard(v: JsValue) {
    v.Array? && |v.items| > 0 &&
    forall i :: 0 <= i < |v.items| ==> v.items[i].Str? && !IsBlank(v.items[i].s)
  }

  /** The strings of an array of string values. */
  function Strings(items: seq<JsValue>): (r: seq<string>)
    requires forall i :: 0 <= i < |items| ==> items[i].Str?
    ensures |r| == |items| && forall i :: 0 <= i < |items| ==> r[i] == items[i].s
  {
    if items == [] then [] else [items[0].s] + Strings(items[1..])
  }

  /** The type check: `type` is a string and one of the four names. */
  predicate TypeGuard(v: JsValue) {
    Truthy(v) && v.Str? && v.s in TypeNames
  }

  /** The three request checks of `createPost`, in the handler's order; on success, the
      category strings, which pass the schema's categories validator. */
  function CheckCreateRequest(req: CreateRequest): (r: Result<seq<string>, Error>)
    ensures r.Success? <==>
      (Present(req.content) || req.hasImage) && TypeGuard(req.kind) && CategoriesGuard(req.categories)
    ensures !Present(req.content) && !req.hasImage ==> r == Failure(MissingTextOrImage)
    ensures (Present(req.content) || req.hasImage) && !TypeGuard(req.kind) ==> r == Failure(InvalidType)
    ensures (Present(req.content) || req.hasImage) && TypeGuard(req.kind) && !CategoriesGuard(req.categories) ==>
      r == Failure(InvalidCategories)
    ensures r.Success? ==> ValidCategories(r.value) && |r.value| == |req.categories.items|
    ensures r.Success? ==> forall i :: 0 <= i < |r.value| ==> req.categories.items[i] == Str(r.value[i])
  {
    if !Present(req.content) && !req.hasImage then Failure(MissingTextOrImage)
    else if !TypeGuard(req.kind) then Failure(InvalidType)
    else if !CategoriesGuard(req.categories) then Failure(InvalidCategories)
    else Success(Strings(req.categories.items))
  }

  /** The draft `createPost` hands to `Post.create`. */
  function CreateDraft(author: UserId, req: CreateRequest, cats: seq<string>, image: string): PostDraft
    requires TypeGuard(req.kind)
  {
    PostDraft(Some(author), Some(OrEmpty(req.content)), Some(req.kind.s), Some(cats), req.price, Some(image), None)
  }

  /** `createPost`: the request checks, the author lookup, the upload (`upload` is the URL it
      returns, `None` when it fails), then `Post.create`. After the request checks only the
      text's length is left for the schema to refuse. */
  function CreatePostOutcome(users: seq<User>, clerk: ClerkId, req: CreateRequest, upload: Option<string>,
                             id: PostId, now: int): (r: Result<Post, Error>)
    ensures r.Success? <==>
      CheckCreateRequest(req).Success? && FindUserByClerk(users, clerk).Some? &&
      (req.hasImage ==> upload.Some?) && |OrEmpty(req.content)| <= MaxContentLength
    ensures r.Failure? && r.error.ValidationFailed? ==> r.error.paths == {ContentPath}
    ensures r.Success? ==> Conforms(r.value) && r.value.id == id && r.value.createdAt == now
    ensures r.Success? ==> r.value.author == users[FindUserByClerk(users, clerk).value].id
    ensures r.Success? ==> CheckCreateRequest(req) == Success(r.value.categories)
    ensures r.Success? ==> Str(TypeName(r.value.kind)) == req.kind && r.value.price == req.price
    ensures r.Success? ==> r.value.content == Some(OrEmpty(req.content))
    ensures r.Success? ==> r.value.image == (if req.hasImage then upload.value else "")
    ensures r.Success? ==>
      r.value.likes == [] && r.value.comments == [] && r.value.reports == [] && r.value.sharedFrom == None
  {
    match CheckCreateRequest(req)
    case Failure(e) => Failure(e)
    case Success(cats) =>
      match FindUserByClerk(users, clerk)
      case None => Failure(UserNotFound)
      case Some(k) =>
        if req.hasImage && upload.None? then Failure(UploadFailed)
        else
          var image := if req.hasImage then upload.value else "";
          match Create(CreateDraft(users[k].id, req, cats, image), id, now)
          case Failure(paths) => Failure(ValidationFailed(paths))
          case Success(p) => Success(p)
  }

  /** `createPost` on the store: a created post is appended and nothing else changes. The new
      record id is fresh, as the store's id generator makes it. */
  method CreatePost(db: Db, clerk: ClerkId, req: CreateRequest, upload: Option<string>, id: PostId, now: int)
    returns (r: Result<Post, Error>)
    requires forall p :: p in db.posts ==> p.id != id
    modifies db
    ensures r == CreatePostOutcome(old(db.users), clerk, req, upload, id, now)
    ensures db.posts == if r.Success? then old(db.posts) + [r.value] else old(db.posts)
    ensures db.users == old(db.users) && db.comments == old(db.comments)
    ensures db.notifications == old(db.notifications)
    ensures old(db.Valid()) ==> db.Valid()
  {
    r := CreatePostOutcome(db.users, clerk, req, upload, id, now);
    if r.Success? {
      if db.Valid() {
        AppendKeepsValid(db.posts, r.value);
      }
      db.posts := db.posts + [r.value];
    }
  }

  // ---------------------------------------------------------------------------------------------
  // searchPostsByCategory

  function TrimAll(s: seq<string>): (r: seq<string>)
    ensures |r| == |s| && forall i :: 0 <= i < |s| ==> r[i] == Trim(s[i])
  {
    if s == [] then [] else [Trim(s[0])] + TrimAll(s[1..])
  }

  /** The pieces trimmed, with the empty ones dropped. */
  function CleanPieces(pieces: seq<string>): seq<string> {
    Filter(TrimAll(pieces), (c: string) => c != "")
  }

  /** Every entry is trimmed, not empty and free of the separator, and is the trimmed form of
      one of the pieces. */
  lemma CleanPiecesSound(pieces: seq<string>, sep: char)
    requires forall i :: 0 <= i < |pieces| ==> sep !in pieces[i]
    ensures forall c :: c in CleanPieces(pieces) ==> c != "" && Trim(c) == c && sep !in c
    ensures forall c :: c in CleanPieces(pieces) ==> exists i :: 0 <= i < |pieces| && c == Trim(pieces[i])
  {
    var trimmed := TrimAll(pieces);
    forall c | c in CleanPieces(pieces)
      ensures Trim(c) == c && sep !in c && exists i :: 0 <= i < |pieces| && c == Trim(pieces[i])
    {
      var i :| 0 <= i < |trimmed| && trimmed[i] == c;
      TrimIdempotent(pieces[i]);
      TrimWithin(pieces[i]);
    }
  }

  /** The trimmed form of every piece that is not blank is an entry. */
  lemma CleanPiecesComplete(pieces: seq<string>)
    ensures forall i :: 0 <= i < |pieces| && !IsBlank(pieces[i]) ==> Trim(pieces[i]) in CleanPieces(pieces)
  {
    var trimmed := TrimAll(pieces);
    forall i | 0 <= i < |pieces| && !IsBlank(pieces[i]) ensures Trim(pieces[i]) in CleanPieces(pieces) {
      var c := trimmed[i];
      assert c == Trim(pieces[i]) && c != "";
      assert c in trimmed;
      assert (c != "") == ((x: string) => x != "")(c);
    }
  }

  /** A list that is not empty starts with the trimmed form of a piece that is not blank. */
  lemma FirstEntryPiece(pieces: seq<string>) returns (i: nat)
    requires CleanPieces(pieces) != []
    ensures i < |pieces| && !IsBlank(pieces[i]) && CleanPieces(pieces)[0] == Trim(pieces[i])
  {
    var trimmed := TrimAll(pieces);
    var list := CleanPieces(pieces);
    assert list[0] in list;
    i :| 0 <= i < |trimmed| && trimmed[i] == list[0];
  }

  /** The query check: a string that is not blank. */
  predicate CategoryQueryGuard(q: JsValue) {
    Truthy(q) && q.Str? && !IsBlank(q.s)
  }

  /** The category list of a search: refused when the query is not a non-blank string or when
      no category is left once the comma-separated pieces are trimmed. */
  function ParseCategoryQuery(q: JsValue): (r: Result<seq<string>, Error>)
    ensures !CategoryQueryGuard(q) ==> r == Failure(InvalidCategoryQuery)
    ensures CategoryQueryGuard(q) && CleanPieces(Split(q.s, ',')) == [] ==> r == Failure(NoValidCategory)
    ensures r.Success? ==> CategoryQueryGuard(q) && r.value == CleanPieces(Split(q.s, ',')) && |r.value| > 0
  {
    if !CategoryQueryGuard(q) then Failure(InvalidCategoryQuery)
    else
      var list := CleanPieces(Split(q.s, ','));
      if list == [] then Failure(NoValidCategory) else Success(list)
  }

  /** `categories: { $in: list }`: the post has some category in the list. */
  predicate InCategories(p: Post, list: seq<string>) {
    exists i :: 0 <= i < |p.categories| && p.categories[i] in list
  }

  /** `searchPostsByCategory`: the posts with a category named in the query, in store order. */
  function SearchPostsByCategory(posts: seq<Post>, q: JsValue): (r: Result<seq<Post>, Error>)
    ensures r.Success? <==> ParseCategoryQuery(q).Success?
    ensures r.Failure? ==> r.error == ParseCategoryQuery(q).error
    ensures r.Success? ==> forall p :: p in r.value <==> p in posts && InCategories(p, ParseCategoryQuery(q).value)
  {
    match ParseCategoryQuery(q)
    case Failure(e) => Failure(e)
    case Success(list) => Success(Filter(posts, (p: Post) => InCategories(p, list)))
  }

  // ---------------------------------------------------------------------------------------------
  // likePost

  /** The like toggle on `likes`: a user who is there is pulled out (every occurrence), one who
      is not is pushed once at the end; the count of every other liker stays as it was. */
  function ToggledLikes(likes: seq<UserId>, u: UserId): (r: seq<UserId>)
    ensures u in likes ==> u !in r
    ensures u !in likes ==> |r| == |likes| + 1 && r[..|likes|] == likes && r[|likes|] == u
    ensures forall v :: v != u ==> multiset(r)[v] == multiset(likes)[v]
  {
    if u in likes then Pull(likes, u) else likes + [u]
  }

  /** A like followed by an unlike gives the likes back. */
  lemma LikeThenUnlike(likes: seq<UserId>, u: UserId)
    requires u !in likes
    ensures ToggledLikes(ToggledLikes(likes, u), u) == likes
  {
    PullPushed(likes, u);
  }

  /** An unlike followed by a like leaves the user liking the post exactly once. */
  lemma UnlikeThenLike(likes: seq<UserId>, u: UserId)
    requires u in likes
    ensures multiset(ToggledLikes(ToggledLikes(likes, u), u))[u] == 1
  {
    var pulled := ToggledLikes(likes, u);
    assert multiset(pulled + [u]) == multiset(pulled) + multiset{u};
  }

  /** The notice a like sends: none for an unlike or a like of one's own post. */
  function LikeNotices(post: Post, u: UserId, postId: PostId): (r: seq<Notification>)
    ensures r != [] <==> u !in post.likes && post.author != u
    ensures r != [] ==> r == [Notification(LikeNotice, Some(u), post.author, Some(postId))]
  {
    if u !in post.likes && post.author != u then [Notification(LikeNotice, Some(u), post.author, Some(postId))]
    else []
  }

  /** `likePost`: toggle the caller's like on the post; the result says whether the post is now
      liked. A missing user or post changes nothing. */
  method LikePost(db: Db, clerk: ClerkId, postId: PostId) returns (r: Result<bool, Error>)
    modifies db
    ensures var ui := FindUserByClerk(old(db.users), clerk);
      var pi := FindPostById(old(db.posts), postId);
      if ui.None? || pi.None? then
        r == Failure(UserOrPostNotFound) &&
        db.posts == old(db.posts) && db.notifications == old(db.notifications)
      else
        var u := old(db.users)[ui.value].id;
        var post := old(db.posts)[pi.value];
        r == Success(u !in post.likes) &&
        db.posts == old(db.posts)[pi.value := post.(likes := ToggledLikes(post.likes, u))] &&
        db.notifications == old(db.notifications) + LikeNotices(post, u, postId)
    ensures db.users == old(db.users) && db.comments == old(db.comments)
    ensures old(db.Valid()) ==> db.Valid()
  {
    var ui := FindUserByClerk(db.users, clerk);
    var pi := FindPostById(db.posts, postId);
    if ui.None? || pi.None? {
      return Failure(UserOrPostNotFound);
    }
    var u := db.users[ui.value].id;
    var post := db.posts[pi.value];
    var isLiked := u in post.likes;
    var liked := post.(likes := ToggledLikes(post.likes, u));
    if db.Valid() {
      assert PostViolations(liked) == PostViolations(post);
      ReplaceKeepsValid(db.posts, pi.value, liked);
    }
    db.posts := db.posts[pi.value := liked];
    db.notifications := db.notifications + LikeNotices(post, u, postId);
    r := Success(!isLiked);
  }

  // ---------------------------------------------------------------------------------------------
  // reportPost

  /** Some report on the post is by `u`. */
  predicate ReportedBy(p: Post, u: UserId) {
    exists i :: 0 <= i < |p.reports| && p.reports[i].user == u
  }

  /** `reportPost` on the stored posts: the reason and the reporter must be given and not "",
      the post must exist, and the reporter must not have reported it before; then one report
      is appended (its time is `now`) and the post is saved, which runs the validators. The
      result is the post's index and its new value. */
  function ReportOutcome(posts: seq<Post>, postId: PostId, reason: Option<string>, reporter: Option<UserId>,
                         now: int): (r: Result<(nat, Post), Error>)
    ensures !Present(reason) || !Present(reporter) ==> r == Failure(MissingReasonOrUser)
    ensures Present(reason) && Present(reporter) && FindPostById(posts, postId).None? ==>
      r == Failure(PostNotFound)
    ensures (Present(reason) && Present(reporter) && FindPostById(posts, postId).Some? &&
             ReportedBy(posts[FindPostById(posts, postId).value], reporter.value)) ==>
      r == Failure(AlreadyReported)
    ensures r.Success? ==> Present(reason) && Present(reporter) && FindPostById(posts, postId) == Some(r.value.0)
    ensures r.Success? ==> var old_ := posts[r.value.0];
      !ReportedBy(old_, reporter.value) && ReportedBy(r.value.1, reporter.value) &&
      r.value.1 == old_.(reports := old_.reports + [Report(reporter.value, reason.value, now)])
    ensures r.Success? <==>
      Present(reason) && Present(reporter) && FindPostById(posts, postId).Some? &&
      !ReportedBy(posts[FindPostById(posts, postId).value], reporter.value) &&
      Conforms(posts[FindPostById(posts, postId).value])
  {
    if !Present(reason) || !Present(reporter) then Failure(MissingReasonOrUser)
    else
      match FindPostById(posts, postId)
      case None => Failure(PostNotFound)
      case Some(k) =>
        var p := posts[k];
        if ReportedBy(p, reporter.value) then Failure(AlreadyReported)
        else
          var rep := Report(reporter.value, reason.value, now);
          var q := p.(reports := p.reports + [rep]);
          assert q.reports[|p.reports|] == rep;
          assert PostViolations(q) == PostViolations(p);
          if PostViolations(q) != {} then Failure(ValidationFailed(PostViolations(q)))
          else Success((k, q))
  }

  /** A second report by the same user on the post just reported is refused. */
  lemma ReportTwiceRefused(posts: seq<Post>, postId: PostId, reason: Option<string>, reason2: Option<string>,
                           reporter: Option<UserId>, now: int, later: int)
    requires UniquePostIds(posts) && Present(reason2)
    requires ReportOutcome(posts, postId, reason, reporter, now).Success?
    ensures var (k, q) := ReportOutcome(posts, postId, reason, reporter, now).value;
      ReportOutcome(posts[k := q], postId, reason2, reporter, later) == Failure(AlreadyReported)
  {
    var (k, q) := ReportOutcome(posts, postId, reason, reporter, now).value;
    var posts' := posts[k := q];
    var k' := FindPostById(posts', postId);
    assert forall i :: 0 <= i < |posts'| ==> posts'[i].id == posts[i].id;
  }

  /** `reportPost` on the store. */
  method ReportPost(db: Db, postId: PostId, reason: Option<string>, reporter: Option<UserId>, now: int)
    returns (r: Result<(), Error>)
    modifies db
    ensures var o := ReportOutcome(old(db.posts), postId, reason, reporter, now);
      (r.Success? <==> o.Success?) &&
      (r.Failure? ==> r.error == o.error && db.posts == old(db.posts)) &&
      (r.Success? ==> db.posts == old(db.posts)[o.value.0 := o.value.1])
    ensures db.users == old(db.users) && db.comments == old(db.comments)
    ensures db.notifications == old(db.notifications)
    ensures old(db.Valid()) ==> db.Valid()
  {
    var o := ReportOutcome(db.posts, postId, reason, reporter, now);
    if o.Failure? {
      return Failure(o.error);
    }
    var (k, q) := o.value;
    if db.Valid() {
      assert PostViolations(q) == PostViolations(db.posts[k]);
      ReplaceKeepsValid(db.posts, k, q);
    }
    db.posts := db.posts[k := q];
    r := Success(());
  }

  // ---------------------------------------------------------------------------------------------
  // deletePost and updatePostBody

  /** The lookups and the author check shared by `deletePost` and `updatePostBody`: the post's
      index when the caller has a user record and wrote the post. */
  function AuthorizeAuthor(users: seq<User>, posts: seq<Post>, clerk: ClerkId, postId: PostId): (r: Result<nat, Error>)
    ensures FindUserByClerk(users, clerk).None? || FindPostById(posts, postId).None? ==>
      r == Failure(UserOrPostNotFound)
    ensures r.Failure? ==> r.error == UserOrPostNotFound || r.error == NotAuthor
    ensures r.Success? <==>
      FindUserByClerk(users, clerk).Some? && FindPostById(posts, postId).Some? &&
      posts[FindPostById(posts, postId).value].author == users[FindUserByClerk(users, clerk).value].id
    ensures r.Success? ==> Some(r.value) == FindPostById(posts, postId)
  {
    match (FindUserByClerk(users, clerk), FindPostById(posts, postId))
    case (Some(ui), Some(pi)) =>
      if posts[pi].author != users[ui].id then Failure(NotAuthor) else Success(pi)
    case _ => Failure(UserOrPostNotFound)
  }

  /** `deletePost`: only the author may delete; the post's comments go, then the post. */
  method DeletePost(db: Db, clerk: ClerkId, postId: PostId) returns (r: Result<(), Error>)
    modifies db
    ensures var a := AuthorizeAuthor(old(db.users), old(db.posts), clerk, postId);
      (r.Failure? <==> a.Failure?) &&
      (r.Failure? ==> r.error == a.error && db.posts == old(db.posts) && db.comments == old(db.comments)) &&
      (r.Success? ==> db.posts == RemoveAt(old(db.posts), a.value) &&
                      db.comments == WithoutCommentsOf(old(db.comments), postId))
    ensures r.Success? && old(UniquePostIds(db.posts)) ==>
      (forall p :: p in db.posts ==> p.id != postId) && (forall c :: c in db.comments ==> c.post != postId)
    ensures old(db.Valid() && NoOrphans(db.posts, db.comments)) ==> NoOrphans(db.posts, db.comments)
    ensures db.users == old(db.users) && db.notifications == old(db.notifications)
    ensures old(db.Valid()) ==> db.Valid()
  {
    var a := AuthorizeAuthor(db.users, db.posts, clerk, postId);
    if a.Failure? {
      return Failure(a.error);
    }
    var k := a.value;
    if db.Valid() {
      RemoveAtKeepsValid(db.posts, k);
      if NoOrphans(db.posts, db.comments) {
        DeleteKeepsNoOrphans(db.posts, db.comments, k);
      }
    }
    db.comments := WithoutCommentsOf(db.comments, postId);
    db.posts := RemoveAt(db.posts, k);
    r := Success(());
  }

  /** `updatePostBody` on the stored posts: the new text must be given and not ""; then the
      author check, the new text, and the save's validation. */
  function UpdateBodyOutcome(users: seq<User>, posts: seq<Post>, clerk: ClerkId, postId: PostId,
                             content: Option<string>): (r: Result<(nat, Post), Error>)
    ensures !Present(content) ==> r == Failure(MissingContent)
    ensures Present(content) && AuthorizeAuthor(users, posts, clerk, postId).Failure? ==>
      r == Failure(AuthorizeAuthor(users, posts, clerk, postId).error)
    ensures r.Success? <==>
      Present(content) && AuthorizeAuthor(users, posts, clerk, postId).Success? &&
      |content.value| <= MaxContentLength &&
      ValidCategories(posts[AuthorizeAuthor(users, posts, clerk, postId).value].categories)
    ensures r.Success? ==>
      Some(r.value.0) == FindPostById(posts, postId) &&
      r.value.1 == posts[r.value.0].(content := content) && Conforms(r.value.1)
  {
    if !Present(content) then Failure(MissingContent)
    else
      match AuthorizeAuthor(users, posts, clerk, postId)
      case Failure(e) => Failure(e)
      case Success(k) =>
        var q := posts[k].(content := content);
        if PostViolations(q) != {} then Failure(ValidationFailed(PostViolations(q)))
        else Success((k, q))
  }

  /** `updatePostBody` on the store. */
  method UpdatePostBody(db: Db, clerk: ClerkId, postId: PostId, content: Option<string>)
    returns (r: Result<Post, Error>)
    modifies db
    ensures var o := UpdateBodyOutcome(old(db.users), old(db.posts), clerk, postId, content);
      (r.Success? <==> o.Success?) &&
      (r.Failure? ==> r.error == o.error && db.posts == old(db.posts)) &&
      (r.Success? ==> r.value == o.value.1 && db.posts == old(db.posts)[o.value.0 := o.value.1])
    ensures db.users == old(db.users) && db.comments == old(db.comments)
    ensures db.notifications == old(db.notifications)
    ensures old(db.Valid()) ==> db.Valid()
  {
    var o := UpdateBodyOutcome(db.users, db.posts, clerk, postId, content);
    if o.Failure? {
      return Failure(o.error);
    }
    var (k, q) := o.value;
    if db.Valid() {
      ReplaceKeepsValid(db.posts, k, q);
    }
    db.posts := db.posts[k := q];
    r := Success(q);
  }

  // ---------------------------------------------------------------------------------------------
  // sharePost

  /** The lookups and the self-share rule of `sharePost`: the caller's user index and the
      original's index, when the caller did not write the original. */
  function AuthorizeShare(users: seq<User>, posts: seq<Post>, clerk: ClerkId, postId: PostId): (r: Result<(nat, nat), Error>)
    ensures FindUserByClerk(users, clerk).None? ==> r == Failure(UserNotFound)
    ensures FindUserByClerk(users, clerk).Some? && FindPostById(posts, postId).None? ==> r == Failure(PostNotFound)
    ensures r.Success? <==>
      FindUserByClerk(users, clerk).Some? && FindPostById(posts, postId).Some? &&
      posts[FindPostById(posts, postId).value].author != users[FindUserByClerk(users, clerk).value].id
    ensures r.Success? ==> Some(r.value.0) == FindUserByClerk(users, clerk) && Some(r.value.1) == FindPostById(posts, postId)
  {
    match FindUserByClerk(users, clerk)
    case None => Failure(UserNotFound)
    case Some(ui) =>
      match FindPostById(posts, postId)
      case None => Failure(PostNotFound)
      case Some(pi) =>
        if posts[pi].author == users[ui].id then Failure(SelfShare) else Success((ui, pi))
  }

  /** The draft the handler builds as written: it names the field `category`, which the schema
      does not declare, so the draft carries no categories at all. */
  function ShareDraftAsWritten(author: UserId, original: Post): PostDraft {
    PostDraft(Some(author), original.content, Some(TypeName(original.kind)), None, original.price,
      Some(original.image), Some(original.id))
  }

  /** As written, every share that gets past the checks is refused by the categories validator,
      whatever the original looks like. */
  lemma ShareAsWrittenAlwaysFails(author: UserId, original: Post, id: PostId, now: int)
    ensures Create(ShareDraftAsWritten(author, original), id, now).Failure?
    ensures CategoriesPath in Create(ShareDraftAsWritten(author, original), id, now).error
  {
  }

  /** The draft as intended: the original's categories are copied with the rest. */
  function ShareDraft(author: UserId, original: Post): PostDraft {
    PostDraft(Some(author), original.content, Some(TypeName(original.kind)), Some(original.categories),
      original.price, Some(original.image), Some(original.id))
  }

  /** `sharePost` with the categories copied: the share of a post that passes the schema is a
      new post by the caller that copies the original's text, type, categories, price and image,
      points back at the original and starts with no likes, comments or reports. */
  function ShareOutcome(users: seq<User>, posts: seq<Post>, clerk: ClerkId, postId: PostId, id: PostId,
                        now: int): (r: Result<Post, Error>)
    ensures AuthorizeShare(users, posts, clerk, postId).Failure? ==>
      r == Failure(AuthorizeShare(users, posts, clerk, postId).error)
    ensures (AuthorizeShare(users, posts, clerk, postId).Success? &&
             Conforms(posts[AuthorizeShare(users, posts, clerk, postId).value.1])) ==>
      r.Success?
    ensures r.Success? ==> var (ui, pi) := AuthorizeShare(users, posts, clerk, postId).value;
      var o := posts[pi];
      Conforms(r.value) && r.value.author == users[ui].id && r.value.author != o.author &&
      r.value.content == o.content && r.value.kind == o.kind && r.value.categories == o.categories &&
      r.value.price == o.price && r.value.image == o.image && r.value.sharedFrom == Some(o.id) &&
      r.value.likes == [] && r.value.comments == [] && r.value.reports == [] &&
      r.value.id == id && r.value.createdAt == now
  {
    match AuthorizeShare(users, posts, clerk, postId)
    case Failure(e) => Failure(e)
    case Success((ui, pi)) =>
      TypeNameRoundTrip(posts[pi].kind);
      match Create(ShareDraft(users[ui].id, posts[pi]), id, now)
      case Failure(paths) => Failure(ValidationFailed(paths))
      case Success(p) => Success(p)
  }

  /** `sharePost` on the store, with the categories copied. */
  method SharePost(db: Db, clerk: ClerkId, postId: PostId, id: PostId, now: int) returns (r: Result<Post, Error>)
    requires forall p :: p in db.posts ==> p.id != id
    modifies db
    ensures r == ShareOutcome(old(db.users), old(db.posts), clerk, postId, id, now)
    ensures db.posts == if r.Success? then old(db.posts) + [r.value] else old(db.posts)
    ensures db.users == old(db.users) && db.comments == old(db.comments)
    ensures db.notifications == old(db.notifications)
    ensures old(db.Valid()) ==> db.Valid()
  {
    r := ShareOutcome(db.users, db.posts, clerk, postId, id, now);
    if r.Success? {
      if db.Valid() {
        AppendKeepsValid(db.posts, r.value);
      }
      db.posts := db.posts + [r.value];
    }
  }
}
