/** The post schema: its fields, the constraints Mongoose checks when a post is created or saved,
    and the defaults it fills in. */
module PostModel {
  import opened Wrappers
  import opened Js

  /** Record ids (ObjectIds in their string form). */
  type UserId = string
  type PostId = string
  type CommentId = string

  /** The `maxLength` of a post's text. */
  const MaxContentLength := 1000

  /** The `type` enumeration. */
  datatype PostType = Code | General | Article | Fixing

  const TypeNames: set<string> := {"code", "general", "article", "fixing"}

  function TypeName(t: PostType): string {
    match t
    case Code => "code"
    case General => "general"
    case Article => "article"
    case Fixing => "fixing"
  }

  /** Reads a `type` value: exactly the four enumerated names are accepted. */
  function ParsePostType(s: string): (r: Option<PostType>)
    ensures r.Some? <==> s in TypeNames
    ensures r.Some? ==> TypeName(r.value) == s
  {
    if s == "code" then Some(Code)
    else if s == "general" then Some(General)
    else if s == "article" then Some(Article)
    else if s == "fixing" then Some(Fixing)
    else None
  }

  /** Every enumerated type survives being written out and read back. */
  lemma TypeNameRoundTrip(t: PostType)
    ensures ParsePostType(TypeName(t)) == Some(t)
  {
  }

  /** An entry of `reports`. */
  datatype Report = Report(user: UserId, reason: string, createdAt: int)

  /** A stored post. `createdAt` is in milliseconds since the epoch. */
  datatype Post = Post(
    id: PostId,
    author: UserId,
    content: Option<string>,
    kind: PostType,
    categories: seq<string>,
    price: Option<int>,
    image: string,
    likes: seq<UserId>,
    comments: seq<CommentId>,
    sharedFrom: Option<PostId>,
    reports: seq<Report>,
    createdAt: int)

  /** The fields handed to `Post.create`; `None` is a field that is not given. Fields the schema
      does not declare are dropped by Mongoose and have no place here. */
  datatype PostDraft = PostDraft(
    author: Option<UserId>,
    content: Option<string>,
    kind: Option<string>,
    categories: Option<seq<string>>,
    price: Option<int>,
    image: Option<string>,
    sharedFrom: Option<PostId>)

  /** The schema paths whose validators can fail. */
  datatype SchemaPath = AuthorPath | ContentPath | TypePath | CategoriesPath

  /** The `categories` validator: a non-empty array whose every entry is non-empty after trimming. */
  predicate ValidCategories(cats: seq<string>) {
    |cats| > 0 && forall i :: 0 <= i < |cats| ==> !IsBlank(cats[i])
  }

  /** The validator accepts exactly the non-empty lists in which every entry has a character
      that is not whitespace. */
  lemma ValidCategoriesIff(cats: seq<string>)
    ensures ValidCategories(cats) <==>
      |cats| > 0 && forall i :: 0 <= i < |cats| ==> HasNonWhitespace(cats[i])
  {
    forall i | 0 <= i < |cats|
      ensures !IsBlank(cats[i]) <==> HasNonWhitespace(cats[i])
    {
      BlankIffAllWhitespace(cats[i]);
    }
  }

  /** The `maxLength` validator; an absent text has nothing to check. */
  predicate ContentFits(content: Option<string>) {
    content.None? || |content.value| <= MaxContentLength
  }

  /** The paths of a stored post that fail validation when the post is saved. */
  function PostViolations(p: Post): set<SchemaPath> {
    (if ContentFits(p.content) then {} else {ContentPath}) +
    (if ValidCategories(p.categories) then {} else {CategoriesPath})
  }

  /** What every post in the store satisfies. */
  predicate Conforms(p: Post) {
    PostViolations(p) == {}
  }

  /** The paths of a draft that fail validation in `Post.create`. A missing `categories` gets the
      array default `[]`, which the validator refuses; a missing or "" `type` fails `required`. */
  function DraftViolations(d: PostDraft): set<SchemaPath> {
    (if d.author.Some? then {} else {AuthorPath}) +
    (if ContentFits(d.content) then {} else {ContentPath}) +
    (if d.kind.Some? && d.kind.value in TypeNames then {} else {TypePath}) +
    (if ValidCategories(CategoriesOrDefault(d)) then {} else {CategoriesPath})
  }

  function CategoriesOrDefault(d: PostDraft): seq<string> {
    if d.categories.Some? then d.categories.value else []
  }

  /** `Post.create`: validate the draft, then fill the defaults (`price` and `sharedFrom` null,
      `image` "", no likes, comments or reports) and the creation time. */
  function Create(d: PostDraft, id: PostId, now: int): (r: Result<Post, set<SchemaPath>>)
    ensures r.Failure? ==> r.error != {} && r.error == DraftViolations(d)
    ensures r.Success? ==> DraftViolations(d) == {} && Conforms(r.value)
    ensures r.Success? ==> r.value.id == id && r.value.createdAt == now
    ensures r.Success? ==> Some(r.value.author) == d.author && r.value.content == d.content
    ensures r.Success? ==> Some(TypeName(r.value.kind)) == d.kind && Some(r.value.categories) == d.categories
    ensures r.Success? ==> r.value.price == d.price && r.value.sharedFrom == d.sharedFrom
    ensures r.Success? ==> r.value.image == (if d.image.Some? then d.image.value else "")
    ensures r.Success? ==> r.value.likes == [] && r.value.comments == [] && r.value.reports == []
  {
    var errs := DraftViolations(d);
    if errs != {} then Failure(errs)
    else
      var kind := ParsePostType(d.kind.value).value;
      var cats := d.categories.value;
      Success(Post(
        id, d.author.value, d.content, kind, cats, d.price,
        if d.image.Some? then d.image.value else "",
        [], [], d.sharedFrom, [], now))
  }

  /** `Post.create` succeeds exactly when the author is given, the type is one of the four names,
      the categories are a non-empty list of non-blank strings and the text fits. */
  lemma CreateSucceedsIff(d: PostDraft, id: PostId, now: int)
    ensures Create(d, id, now).Success? <==>
      d.author.Some? && d.kind.Some? && d.kind.value in TypeNames &&
      d.categories.Some? && ValidCategories(d.categories.value) &&
      (d.content.Some? ==> |d.content.value| <= MaxContentLength)
  {
  }
}
