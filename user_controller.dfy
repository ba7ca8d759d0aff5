/** The user controller's state-changing handlers: user sync, the follow toggle, the admin ban
    and the admin post delete. The caller's identity, the identity provider's profile, new
    record ids and the clock are inputs. */
module UserController {
  import opened Wrappers
  import opened Seqs
  import opened Js
  import opened PostModel
  import opened Store

  // ---------------------------------------------------------------------------------------------
  // syncUser

  /** What the identity provider reports about a user: the email addresses in its order, and the
      optional names and picture URL. */
  datatype ClerkProfile = ClerkProfile(
    emails: seq<string>,
    firstName: Option<string>,
    lastName: Option<string>,
    imageUrl: Option<string>)

  /** `email.split("@")[0]`: the part of the address before its first '@', or all of it. */
  function UsernameOf(email: string): (r: string)
    ensures '@' !in r && |r| <= |email| && r == email[..|r|]
    ensures |r| < |email| ==> email[|r|] == '@'
    ensures '@' !in email ==> r == email
  {
    FirstPieceIsPrefix(email, '@');
    Split(email, '@')[0]
  }

  /** The record `syncUser` creates from the profile; reading the first address of a profile
      with none throws. */
  function NewUser(clerk: ClerkId, profile: ClerkProfile, id: UserId, now: int): (r: Result<User, Error>)
    ensures r.Failure? <==> profile.emails == []
    ensures r.Failure? ==> r.error == NoEmailAddress
    ensures r.Success? ==>
      r.value.id == id && r.value.clerkId == clerk && r.value.createdAt == now &&
      r.value.email == profile.emails[0] && r.value.username == UsernameOf(profile.emails[0]) &&
      '@' !in r.value.username
    ensures r.Success? ==>
      r.value.firstName == OrEmpty(profile.firstName) && r.value.lastName == OrEmpty(profile.lastName) &&
      r.value.profilePicture == OrEmpty(profile.imageUrl)
    ensures r.Success? ==>
      r.value.following == [] && r.value.followers == [] && r.value.spamUntil == None
  {
    if profile.emails == [] then Failure(NoEmailAddress)
    else
      var email := profile.emails[0];
      Success(User(id, clerk, email, OrEmpty(profile.firstName), OrEmpty(profile.lastName), UsernameOf(email),
        OrEmpty(profile.imageUrl), [], [], None, now))
  }

  /** `syncUser` on the users: the users afterwards, the caller's record, and whether it was
      created. An existing record is returned as it is and nothing is created. */
  function SyncUsers(users: seq<User>, clerk: ClerkId, profile: ClerkProfile, id: UserId, now: int)
    : (r: Result<(seq<User>, User, bool), Error>)
    ensures FindUserByClerk(users, clerk).Some? ==>
      r == Success((users, users[FindUserByClerk(users, clerk).value], false))
    ensures FindUserByClerk(users, clerk).None? ==>
      r == (match NewUser(clerk, profile, id, now)
            case Failure(e) => Failure(e)
            case Success(u) => Success((users + [u], u, true)))
    ensures r.Success? ==> r.value.1.clerkId == clerk && r.value.1 in r.value.0
  {
    match FindUserByClerk(users, clerk)
    case Some(k) => Success((users, users[k], false))
    case None =>
      match NewUser(clerk, profile, id, now)
      case Failure(e) => Failure(e)
      case Success(u) => Success((users + [u], u, true))
  }

  /** A second sync, with whatever profile, id and time, changes nothing and returns the record
      the first one returned. */
  lemma SyncIdempotent(users: seq<User>, clerk: ClerkId, profile: ClerkProfile, id: UserId, now: int,
                       profile2: ClerkProfile, id2: UserId, now2: int)
    requires SyncUsers(users, clerk, profile, id, now).Success?
    ensures var (after, u, _) := SyncUsers(users, clerk, profile, id, now).value;
      SyncUsers(after, clerk, profile2, id2, now2) == Success((after, u, false))
  {
    var (after, u, created) := SyncUsers(users, clerk, profile, id, now).value;
    if created {
      assert after[|users|] == u;
      assert FindUserByClerk(after, clerk) == Some(|users|);
    }
  }

  /** A sync with a fresh record id keeps record ids unique. */
  lemma SyncKeepsIdsUnique(users: seq<User>, clerk: ClerkId, profile: ClerkProfile, id: UserId, now: int)
    requires UniqueUserIds(users) && forall u :: u in users ==> u.id != id
    requires SyncUsers(users, clerk, profile, id, now).Success?
    ensures UniqueUserIds(SyncUsers(users, clerk, profile, id, now).value.0)
  {
    var (after, u, created) := SyncUsers(users, clerk, profile, id, now).value;
    if created {
      forall i, j | 0 <= i < j < |after| ensures after[i].id != after[j].id {
        if j == |users| {
          assert after[i] in users;
        }
      }
    }
  }

  /** `syncUser` on the store; `id` is the fresh record id a creation would use. */
  method SyncUser(db: Db, clerk: ClerkId, profile: ClerkProfile, id: UserId, now: int)
    returns (r: Result<User, Error>)
    requires forall u :: u in db.users ==> u.id != id
    modifies db
    ensures var o := SyncUsers(old(db.users), clerk, profile, id, now);
      (r.Success? <==> o.Success?) &&
      (r.Failure? ==> r.error == o.error && db.users == old(db.users)) &&
      (r.Success? ==> r.value == o.value.1 && db.users == o.value.0)
    ensures db.posts == old(db.posts) && db.comments == old(db.comments)
    ensures db.notifications == old(db.notifications)
    ensures old(db.Valid()) ==> db.Valid()
  {
    var o := SyncUsers(db.users, clerk, profile, id, now);
    if o.Failure? {
      return Failure(o.error);
    }
    if db.Valid() {
      SyncKeepsIdsUnique(db.users, clerk, profile, id, now);
    }
    db.users := o.value.0;
    r := Success(o.value.1);
  }

  // ---------------------------------------------------------------------------------------------
  // followUser

  /** `$push` of `x` when `follow`, `$pull` of it otherwise. */
  function Toggle(s: seq<UserId>, x: UserId, follow: bool): (r: seq<UserId>)
    ensures forall y :: y in r <==> if follow then y in s || y == x else y in s && y != x
    ensures follow ==> r == s + [x]
  {
    if follow then s + [x] else Pull(s, x)
  }

  /** The two updates of `followUser` in the handler's order: the caller's `following`, then the
      target's `followers`, each applied to the record as it then stands. Whether to push or to
      pull is decided once, from the caller's `following` before either update. */
  function FollowUpdate(users: seq<User>, ci: nat, ti: nat): (r: seq<User>)
    requires ci < |users| && ti < |users|
    ensures |r| == |users|
    ensures forall k :: 0 <= k < |users| ==>
      r[k] == users[k].(
        following := if k == ci then Toggle(users[ci].following, users[ti].id, users[ti].id !in users[ci].following)
                     else users[k].following,
        followers := if k == ti then Toggle(users[ti].followers, users[ci].id, users[ti].id !in users[ci].following)
                     else users[k].followers)
  {
    var target := users[ti].id;
    var follow := target !in users[ci].following;
    var u1 := users[ci := users[ci].(following := Toggle(users[ci].following, target, follow))];
    u1[ti := u1[ti].(followers := Toggle(u1[ti].followers, users[ci].id, follow))]
  }

  /** Every following entry between stored users has its followers entry, and back. */
  ghost predicate Mirrored(users: seq<User>) {
    forall i, j :: 0 <= i < |users| && 0 <= j < |users| ==>
      (users[j].id in users[i].following <==> users[i].id in users[j].followers)
  }

  /** No user follows themself. */
  predicate NoSelfFollow(users: seq<User>) {
    forall i :: 0 <= i < |users| ==> users[i].id !in users[i].following
  }

  /** A follow or an unfollow keeps the two sides mirrored. */
  lemma FollowKeepsMirrored(users: seq<User>, ci: nat, ti: nat)
    requires ci < |users| && ti < |users| && UniqueUserIds(users) && Mirrored(users)
    ensures Mirrored(FollowUpdate(users, ci, ti))
  {
    var r := FollowUpdate(users, ci, ti);
    var target := users[ti].id;
    var me := users[ci].id;
    var follow := target !in users[ci].following;
    forall i, j | 0 <= i < |r| && 0 <= j < |r|
      ensures r[j].id in r[i].following <==> r[i].id in r[j].followers
    {
      assert r[i].id == users[i].id && r[j].id == users[j].id;
      assert users[j].id == target <==> j == ti;
      assert users[i].id == me <==> i == ci;
      assert users[j].id in users[i].following <==> users[i].id in users[j].followers;
    }
  }

  /** The toggle touches only the two lists, so record ids stay as they were. */
  lemma FollowKeepsIdsUnique(users: seq<User>, ci: nat, ti: nat)
    requires ci < |users| && ti < |users| && UniqueUserIds(users)
    ensures UniqueUserIds(FollowUpdate(users, ci, ti))
  {
    var r := FollowUpdate(users, ci, ti);
    assert forall k :: 0 <= k < |r| ==> r[k].id == users[k].id;
  }

  /** The lookups of `followUser`: the caller by identity-provider id, the target by record id. */
  function FollowLookup(users: seq<User>, clerk: ClerkId, target: UserId): (r: Result<(nat, nat), Error>)
    ensures r.Failure? <==> FindUserByClerk(users, clerk).None? || FindUserById(users, target).None?
    ensures r.Failure? ==> r.error == UserNotFound
    ensures r.Success? ==>
      Some(r.value.0) == FindUserByClerk(users, clerk) && Some(r.value.1) == FindUserById(users, target)
  {
    match (FindUserByClerk(users, clerk), FindUserById(users, target))
    case (Some(ci), Some(ti)) => Success((ci, ti))
    case _ => Failure(UserNotFound)
  }

  /** The toggle and its notice: the users afterwards, the new notifications, and whether it was
      a follow. */
  function FollowApply(users: seq<User>, ci: nat, ti: nat): (r: (seq<User>, seq<Notification>, bool))
    requires ci < |users| && ti < |users|
    ensures r.2 <==> users[ti].id !in users[ci].following
    ensures r.0 == FollowUpdate(users, ci, ti)
    ensures r.1 == if r.2 then [Notification(FollowNotice, Some(users[ci].id), users[ti].id, None)] else []
    ensures ci != ti && r.2 ==>
      r.0[ci].following == users[ci].following + [users[ti].id] &&
      r.0[ti].followers == users[ti].followers + [users[ci].id]
    ensures ci != ti && !r.2 ==>
      users[ti].id !in r.0[ci].following && users[ci].id !in r.0[ti].followers
  {
    var follow := users[ti].id !in users[ci].following;
    (FollowUpdate(users, ci, ti),
     if follow then [Notification(FollowNotice, Some(users[ci].id), users[ti].id, None)] else [],
     follow)
  }

  /** `followUser` as written: its self-follow guard compares the caller's identity-provider id
      with the target's record id. */
  function FollowAsWritten(users: seq<User>, clerk: ClerkId, target: UserId)
    : (r: Result<(seq<User>, seq<Notification>, bool), Error>)
    ensures clerk == target ==> r == Failure(SelfFollow)
    ensures clerk != target ==> r.Failure? == FollowLookup(users, clerk, target).Failure?
    ensures r.Success? ==> var (ci, ti) := FollowLookup(users, clerk, target).value; r.value == FollowApply(users, ci, ti)
  {
    if clerk == target then Failure(SelfFollow)
    else
      match FollowLookup(users, clerk, target)
      case Failure(e) => Failure(e)
      case Success((ci, ti)) => Success(FollowApply(users, ci, ti))
  }

  /** A user whose identity-provider id differs from their record id can follow themself: the
      guard lets the request through and both of their lists gain their own id. */
  lemma SelfFollowSlipsThrough()
    ensures var me := User("u1", "c1", "a@b", "", "", "a", "", [], [], None, 0);
      var r := FollowAsWritten([me], "c1", "u1");
      r.Success? && r.value.0[0].following == ["u1"] && r.value.0[0].followers == ["u1"] &&
      !NoSelfFollow(r.value.0)
  {
    var me := User("u1", "c1", "a@b", "", "", "a", "", [], [], None, 0);
    assert FindUserByClerk([me], "c1") == Some(0);
    assert FindUserById([me], "u1") == Some(0);
    var r := FollowApply([me], 0, 0);
    assert r.0[0].following == [] + ["u1"];
  }

  /** `followUser` with the guard as intended: the caller's record id against the target's. */
  function Follow(users: seq<User>, clerk: ClerkId, target: UserId)
    : (r: Result<(seq<User>, seq<Notification>, bool), Error>)
    ensures FollowLookup(users, clerk, target).Failure? ==> r == Failure(UserNotFound)
    ensures FollowLookup(users, clerk, target).Success? ==>
      var (ci, ti) := FollowLookup(users, clerk, target).value;
      (users[ci].id == target ==> r == Failure(SelfFollow)) &&
      (users[ci].id != target ==> r == Success(FollowApply(users, ci, ti)) && ci != ti)
  {
    match FollowLookup(users, clerk, target)
    case Failure(e) => Failure(e)
    case Success((ci, ti)) =>
      if users[ci].id == target then Failure(SelfFollow) else Success(FollowApply(users, ci, ti))
  }

  /** With the guard as intended, nobody comes to follow themself. */
  lemma FollowKeepsNoSelfFollow(users: seq<User>, clerk: ClerkId, target: UserId)
    requires NoSelfFollow(users) && Follow(users, clerk, target).Success?
    ensures NoSelfFollow(Follow(users, clerk, target).value.0)
  {
    var (ci, ti) := FollowLookup(users, clerk, target).value;
    var r := FollowUpdate(users, ci, ti);
    forall k | 0 <= k < |r| ensures r[k].id !in r[k].following {
      assert r[k].id == users[k].id;
    }
  }

  /** A follow with the guard as intended keeps record ids unique, the two sides mirrored and
      nobody following themself. */
  lemma FollowPreserves(users: seq<User>, clerk: ClerkId, target: UserId)
    requires Follow(users, clerk, target).Success?
    ensures var after := Follow(users, clerk, target).value.0;
      (UniqueUserIds(users) ==> UniqueUserIds(after)) &&
      (UniqueUserIds(users) && Mirrored(users) ==> Mirrored(after)) &&
      (NoSelfFollow(users) ==> NoSelfFollow(after))
  {
    var (ci, ti) := FollowLookup(users, clerk, target).value;
    if UniqueUserIds(users) {
      FollowKeepsIdsUnique(users, ci, ti);
      if Mirrored(users) {
        FollowKeepsMirrored(users, ci, ti);
      }
    }
    if NoSelfFollow(users) {
      FollowKeepsNoSelfFollow(users, clerk, target);
    }
  }

  /** `followUser` on the store, with the guard as intended. The result says whether it was a
      follow; a refusal changes nothing. */
  method FollowUser(db: Db, clerk: ClerkId, target: UserId) returns (r: Result<bool, Error>)
    modifies db
    ensures var o := Follow(old(db.users), clerk, target);
      (r.Success? <==> o.Success?) &&
      (r.Failure? ==> r.error == o.error && db.users == old(db.users) && db.notifications == old(db.notifications)) &&
      (r.Success? ==> r.value == o.value.2 && db.users == o.value.0 &&
                      db.notifications == old(db.notifications) + o.value.1)
    ensures db.posts == old(db.posts) && db.comments == old(db.comments)
    ensures old(db.Valid()) ==> db.Valid()
    ensures old(UniqueUserIds(db.users) && Mirrored(db.users)) ==> Mirrored(db.users)
    ensures old(NoSelfFollow(db.users)) ==> NoSelfFollow(db.users)
  {
    var o := Follow(db.users, clerk, target);
    if o.Failure? {
      return Failure(o.error);
    }
    FollowPreserves(db.users, clerk, target);
    db.users := o.value.0;
    db.notifications := db.notifications + o.value.1;
    r := Success(o.value.2);
  }

  // ---------------------------------------------------------------------------------------------
  // adminBanUser

  const MsPerMinute := 60000

  /** `adminBanUser` on the users: `minutes` is the body value once coerced to a number (`None`
      when it is missing or not a number). The duration check comes first, then the lookup; the
      ban lasts until `now` plus that many minutes. */
  function BanOutcome(users: seq<User>, userId: UserId, minutes: Option<int>, now: int): (r: Result<(nat, User), Error>)
    ensures minutes.None? || minutes.value < 1 ==> r == Failure(InvalidBanDuration)
    ensures minutes.Some? && minutes.value >= 1 && FindUserById(users, userId).None? ==> r == Failure(UserNotFound)
    ensures r.Success? <==> minutes.Some? && minutes.value >= 1 && FindUserById(users, userId).Some?
    ensures r.Success? ==>
      Some(r.value.0) == FindUserById(users, userId) &&
      r.value.1 == users[r.value.0].(spamUntil := r.value.1.spamUntil) &&
      r.value.1.spamUntil == Some(now + minutes.value * MsPerMinute) &&
      r.value.1.spamUntil.value >= now + MsPerMinute
  {
    if minutes.None? || minutes.value < 1 then Failure(InvalidBanDuration)
    else
      var until := now + minutes.value * MsPerMinute;
      match FindUserById(users, userId)
      case None => Failure(UserNotFound)
      case Some(k) => Success((k, users[k].(spamUntil := Some(until))))
  }

  /** `adminBanUser` on the store: the ban is recorded and the user is sent a notice. */
  method AdminBanUser(db: Db, userId: UserId, minutes: Option<int>, now: int) returns (r: Result<User, Error>)
    modifies db
    ensures var o := BanOutcome(old(db.users), userId, minutes, now);
      (r.Success? <==> o.Success?) &&
      (r.Failure? ==> r.error == o.error && db.users == old(db.users) && db.notifications == old(db.notifications)) &&
      (r.Success? ==> r.value == o.value.1 && db.users == old(db.users)[o.value.0 := o.value.1] &&
                      db.notifications == old(db.notifications) + [Notification(SpamNotice, None, userId, None)])
    ensures db.posts == old(db.posts) && db.comments == old(db.comments)
    ensures old(db.Valid()) ==> db.Valid()
  {
    var o := BanOutcome(db.users, userId, minutes, now);
    if o.Failure? {
      return Failure(o.error);
    }
    var (k, u) := o.value;
    if db.Valid() {
      ReplaceUserKeepsIds(db.users, k, u);
    }
    db.users := db.users[k := u];
    db.notifications := db.notifications + [Notification(SpamNotice, None, userId, None)];
    r := Success(u);
  }

  // ---------------------------------------------------------------------------------------------
  // adminDeletePost

  /** `adminDeletePost` as written: the post goes, its comments stay. */
  function AdminDeleteAsWritten(posts: seq<Post>, comments: seq<Comment>, postId: PostId)
    : (r: Result<(seq<Post>, seq<Comment>), Error>)
    ensures FindPostById(posts, postId).None? <==> r == Failure(PostNotFound)
    ensures r.Success? ==> r.value.0 == RemoveAt(posts, FindPostById(posts, postId).value) && r.value.1 == comments
  {
    match FindPostById(posts, postId)
    case None => Failure(PostNotFound)
    case Some(k) => Success((RemoveAt(posts, k), comments))
  }

  /** As written, deleting a post that has a comment leaves that comment without its post. */
  lemma AdminDeleteOrphansComments()
    ensures var p := Post("p1", "u1", Some("hi"), General, ["news"], None, "", [], ["c1"], None, [], 0);
      var c := Comment("c1", "p1", "u2");
      NoOrphans([p], [c]) &&
      var r := AdminDeleteAsWritten([p], [c], "p1");
      r.Success? && !NoOrphans(r.value.0, r.value.1)
  {
    var p := Post("p1", "u1", Some("hi"), General, ["news"], None, "", [], ["c1"], None, [], 0);
    var c := Comment("c1", "p1", "u2");
    assert p in [p];
    assert FindPostById([p], "p1") == Some(0);
    assert RemoveAt([p], 0) == [];
    assert c in [c];
  }

  /** `adminDeletePost` with the comments removed too, as `deletePost` does. */
  function AdminDelete(posts: seq<Post>, comments: seq<Comment>, postId: PostId)
    : (r: Result<(seq<Post>, seq<Comment>), Error>)
    ensures FindPostById(posts, postId).None? <==> r == Failure(PostNotFound)
    ensures r.Success? ==>
      r.value.0 == RemoveAt(posts, FindPostById(posts, postId).value) &&
      r.value.1 == WithoutCommentsOf(comments, postId)
    ensures r.Success? && UniquePostIds(posts) ==>
      (forall p :: p in r.value.0 <==> p in posts && p.id != postId) &&
      (forall c :: c in r.value.1 <==> c in comments && c.post != postId)
  {
    match FindPostById(posts, postId)
    case None => Failure(PostNotFound)
    case Some(k) => Success((RemoveAt(posts, k), WithoutCommentsOf(comments, postId)))
  }

  /** With the cascade, the delete leaves no comment without its post. */
  lemma AdminDeleteKeepsNoOrphans(posts: seq<Post>, comments: seq<Comment>, postId: PostId)
    requires UniquePostIds(posts) && NoOrphans(posts, comments) && AdminDelete(posts, comments, postId).Success?
    ensures NoOrphans(AdminDelete(posts, comments, postId).value.0, AdminDelete(posts, comments, postId).value.1)
  {
    DeleteKeepsNoOrphans(posts, comments, FindPostById(posts, postId).value);
  }

  /** `adminDeletePost` on the store, with the cascade. */
  method AdminDeletePost(db: Db, postId: PostId) returns (r: Result<(), Error>)
    modifies db
    ensures var o := AdminDelete(old(db.posts), old(db.comments), postId);
      (r.Success? <==> o.Success?) &&
      (r.Failure? ==> r.error == o.error && db.posts == old(db.posts) && db.comments == old(db.comments)) &&
      (r.Success? ==> db.posts == o.value.0 && db.comments == o.value.1)
    ensures db.users == old(db.users) && db.notifications == old(db.notifications)
    ensures old(db.Valid()) ==> db.Valid()
    ensures old(db.Valid() && NoOrphans(db.posts, db.comments)) ==> NoOrphans(db.posts, db.comments)
  {
    var o := AdminDelete(db.posts, db.comments, postId);
    if o.Failure? {
      return Failure(o.error);
    }
    if db.Valid() {
      RemoveAtKeepsValid(db.posts, FindPostById(db.posts, postId).value);
      if NoOrphans(db.posts, db.comments) {
        AdminDeleteKeepsNoOrphans(db.posts, db.comments, postId);
      }
    }
    db.posts, db.comments := o.value.0, o.value.1;
    r := Success(());
  }
}
