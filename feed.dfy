/** Feed composition (`getPosts`): posts by followed authors, the most liked of the other posts,
    a blend of the two by a mixing ratio, and a backward Fisher-Yates shuffle of the blend. */
module Feed {
  import opened Wrappers
  import opened Seqs
  import opened PostModel
  import opened Store
  import opened Shuffling

  function Min(a: nat, b: nat): nat {
    if a <= b then a else b
  }

  // ---------------------------------------------------------------------------------------------
  // Social candidates

  /** The ids the viewer follows: none for an anonymous viewer (absent or "" id) or a viewer
      without a user record. */
  function FollowedIds(users: seq<User>, viewer: Option<ClerkId>): (r: seq<UserId>)
    ensures viewer.None? || viewer == Some("") ==> r == []
    ensures viewer.Some? && FindUserByClerk(users, viewer.value).Some? && viewer.value != "" ==>
      r == users[FindUserByClerk(users, viewer.value).value].following
    ensures viewer.Some? && FindUserByClerk(users, viewer.value).None? ==> r == []
  {
    if viewer.Some? && viewer.value != "" then
      match FindUserByClerk(users, viewer.value)
      case Some(i) => if |users[i].following| > 0 then users[i].following else []
      case None => []
    else []
  }

  /** `Post.find({ user: { $in: followed } })`: the posts by a followed author, in store order. */
  function FollowingPosts(posts: seq<Post>, followed: seq<UserId>): (r: seq<Post>)
    ensures forall p :: p in r <==> p in posts && p.author in followed
  {
    Filter(posts, (p: Post) => p.author in followed)
  }

  /** `followingPosts.map(p => p._id)`. */
  function IdsOf(s: seq<Post>): (r: seq<PostId>)
    ensures |r| == |s| && forall i :: 0 <= i < |s| ==> r[i] == s[i].id
  {
    seq(|s|, i requires 0 <= i < |s| => s[i].id)
  }

  // ---------------------------------------------------------------------------------------------
  // Popular candidates

  function LikeCount(p: Post): nat {
    |p.likes|
  }

  /** Ordered by non-increasing like count. */
  predicate SortedByLikes(s: seq<Post>) {
    forall i, j :: 0 <= i < j < |s| ==> LikeCount(s[i]) >= LikeCount(s[j])
  }

  /** Inserts `x` before the first post with fewer likes than it has or the same number. */
  function InsertByLikes(x: Post, s: seq<Post>): (r: seq<Post>)
    ensures multiset(r) == multiset(s) + multiset{x}
  {
    if s == [] || LikeCount(x) >= LikeCount(s[0]) then [x] + s
    else
      assert s == [s[0]] + s[1..];
      [s[0]] + InsertByLikes(x, s[1..])
  }

  /** Inserting into a sorted list keeps it sorted. */
  lemma {:induction false} InsertKeepsSorted(x: Post, s: seq<Post>)
    requires SortedByLikes(s)
    ensures SortedByLikes(InsertByLikes(x, s))
  {
    if s == [] {
    } else if LikeCount(x) >= LikeCount(s[0]) {
      forall j | 0 <= j < |s| ensures LikeCount(x) >= LikeCount(s[j]) {
        assert j == 0 || LikeCount(s[0]) >= LikeCount(s[j]);
      }
      ConsKeepsSorted(x, s);
    } else {
      InsertKeepsSorted(x, s[1..]);
      var rest := InsertByLikes(x, s[1..]);
      forall j | 0 <= j < |rest| ensures LikeCount(s[0]) >= LikeCount(rest[j]) {
        assert rest[j] in multiset(rest);
        if rest[j] != x {
          assert rest[j] in s[1..];
        }
      }
      ConsKeepsSorted(s[0], rest);
    }
  }

  lemma ConsKeepsSorted(x: Post, s: seq<Post>)
    requires SortedByLikes(s)
    requires forall j :: 0 <= j < |s| ==> LikeCount(x) >= LikeCount(s[j])
    ensures SortedByLikes([x] + s)
  {
    var r := [x] + s;
    forall i, j | 0 <= i < j < |r| ensures LikeCount(r[i]) >= LikeCount(r[j]) {
      assert r[j] == s[j - 1];
      if i > 0 {
        assert r[i] == s[i - 1];
      }
    }
  }

  /** `.sort({ likes: -1 })`, read as by like count: a permutation ordered by non-increasing count. */
  function SortByLikes(s: seq<Post>): (r: seq<Post>)
    ensures multiset(r) == multiset(s) && |r| == |s|
    ensures SortedByLikes(r)
  {
    if s == [] then []
    else
      assert s == [s[0]] + s[1..];
      var rest := SortByLikes(s[1..]);
      InsertKeepsSorted(s[0], rest);
      InsertByLikes(s[0], rest)
  }

  /** `Post.find({ _id: { $nin: exclude } })`. */
  function PopularCandidates(posts: seq<Post>, exclude: seq<PostId>): (r: seq<Post>)
    ensures forall p :: p in r <==> p in posts && p.id !in exclude
  {
    Filter(posts, (p: Post) => p.id !in exclude)
  }

  /** The popular fetch: the candidates sorted by likes and cut to `limit`. No excluded id gets in,
      the list is ordered by likes, it is as long as the limit allows, and no candidate left out
      has more likes than one taken. */
  function PopularPosts(posts: seq<Post>, exclude: seq<PostId>, limit: nat): (r: seq<Post>)
    ensures forall p :: p in r ==> p in posts && p.id !in exclude
    ensures multiset(r) <= multiset(PopularCandidates(posts, exclude))
    ensures SortedByLikes(r)
    ensures |r| == Min(limit, |PopularCandidates(posts, exclude)|)
    ensures forall q, p :: q in PopularCandidates(posts, exclude) && q !in r && p in r ==>
      LikeCount(q) <= LikeCount(p)
  {
    var sorted := SortByLikes(PopularCandidates(posts, exclude));
    var m := Min(limit, |sorted|);
    TopOfSorted(sorted, PopularCandidates(posts, exclude), m);
    sorted[..m]
  }

  lemma TopOfSorted(sorted: seq<Post>, cands: seq<Post>, m: nat)
    requires SortedByLikes(sorted) && multiset(sorted) == multiset(cands) && m <= |sorted|
    ensures forall p :: p in sorted[..m] ==> p in cands
    ensures multiset(sorted[..m]) <= multiset(cands)
    ensures forall q, p :: q in cands && q !in sorted[..m] && p in sorted[..m] ==> LikeCount(q) <= LikeCount(p)
  {
    assert sorted == sorted[..m] + sorted[m..];
    forall p | p in sorted[..m] ensures p in cands {
      assert p in multiset(sorted);
    }
    forall q, p | q in cands && q !in sorted[..m] && p in sorted[..m]
      ensures LikeCount(q) <= LikeCount(p)
    {
      assert q in multiset(sorted);
      var j :| 0 <= j < |sorted| && sorted[j] == q;
      var i :| 0 <= i < m && sorted[..m][i] == p;
      assert j >= m;
    }
  }

  /** `Math.max(Math.floor(s * 3 / 7), 10)`: at least 10, at least three sevenths of `s`, and one
      of the two. */
  function PopularLimit(s: nat): (r: nat)
    ensures r >= 10 && r * 7 <= 3 * s + 7 * 10
    ensures 3 * s < r * 7 + 7
    ensures r == 10 || (r * 7 <= 3 * s < r * 7 + 7)
  {
    var share := 3 * s / 7;
    if share >= 10 then share else 10
  }

  // ---------------------------------------------------------------------------------------------
  // Ranking and sizing policy

  /** A mixing ratio num/den in [0, 1]. */
  datatype Fraction = Fraction(num: nat, den: nat)
  type Ratio = r: Fraction | 0 < r.den && r.num <= r.den witness Fraction(0, 1)

  /** The ratio the code uses (`totalCount * 0`). */
  const CodeRatio: Ratio := Fraction(0, 1)

  /** The 70/30 split the comment above the blend describes. */
  const IntendedRatio: Ratio := Fraction(7, 10)

  /** `Math.floor(totalCount * R)`: the largest whole number not above total * R. */
  function NumFollowing(total: nat, ratio: Ratio): (r: nat)
    ensures r <= total
    ensures r * ratio.den <= total * ratio.num < (r + 1) * ratio.den
  {
    var n := total * ratio.num;
    var r := n / ratio.den;
    assert n == r * ratio.den + n % ratio.den;
    assert total * ratio.num <= total * ratio.den by {
      MulMonotone(total, ratio.num, ratio.den);
    }
    assert r <= total by {
      if r > total {
        MulMonotone(ratio.den, total + 1, r);
      }
    }
    r
  }

  lemma MulMonotone(a: nat, b: nat, c: nat)
    requires b <= c
    ensures a * b <= a * c
  {
  }

  /** The blend: the first `numFollowing` following posts and the first `total - numFollowing`
      popular posts, `slice` clamping each count to what is there. */
  function Blend(following: seq<Post>, popular: seq<Post>, ratio: Ratio): seq<Post> {
    var total := |following| + |popular|;
    var numFollowing := NumFollowing(total, ratio);
    var numPopular := total - numFollowing;
    following[..Min(numFollowing, |following|)] + popular[..Min(numPopular, |popular|)]
  }

  /** The sizes of the blend: the two counts add up to the total, the following share is at most
      the total, and the blend holds the smaller of each count and what is available. When the
      following share exceeds the following posts at hand, the popular share shrinks with it and
      the blend is shorter than the total. */
  lemma BlendSizes(following: seq<Post>, popular: seq<Post>, ratio: Ratio)
    ensures var total := |following| + |popular|;
      var nf := NumFollowing(total, ratio);
      var b := Blend(following, popular, ratio);
      |b| == Min(nf, |following|) + Min(total - nf, |popular|) &&
      b[..Min(nf, |following|)] == following[..Min(nf, |following|)] &&
      (nf <= |following| ==> b == following[..nf] + popular) &&
      (nf > |following| ==> |b| == total - (nf - |following|))
  {
    var total := |following| + |popular|;
    var nf := NumFollowing(total, ratio);
    var b := Blend(following, popular, ratio);
    assert b[..Min(nf, |following|)] == following[..Min(nf, |following|)];
    if nf <= |following| {
      assert popular[..Min(total - nf, |popular|)] == popular;
    }
  }

  /** With the ratio the code uses, the blend is exactly the popular list. */
  lemma CodeRatioBlendIsPopular(following: seq<Post>, popular: seq<Post>)
    ensures Blend(following, popular, CodeRatio) == popular
  {
    var total := |following| + |popular|;
    assert NumFollowing(total, CodeRatio) == 0;
    assert popular[..Min(total, |popular|)] == popular;
  }

  /** With the intended 70/30 ratio, 10 following posts and the 10 popular ones the limit then
      allows give 14 following slots: all 10 following posts, 6 popular ones and a feed of 16. */
  lemma IntendedRatioExample(following: seq<Post>, popular: seq<Post>)
    requires |following| == 10 && |popular| == PopularLimit(10)
    ensures |popular| == 10 && NumFollowing(20, IntendedRatio) == 14
    ensures Blend(following, popular, IntendedRatio) == following + popular[..6]
  {
    assert NumFollowing(20, IntendedRatio) == 14;
    assert following[..10] == following;
  }

  // ---------------------------------------------------------------------------------------------
  // The feed before shuffling

  /** Lines 15-54 of `getPosts`: social candidates, popular candidates excluding their ids, the
      blend. */
  function ComposeFeed(users: seq<User>, posts: seq<Post>, viewer: Option<ClerkId>, ratio: Ratio): seq<Post> {
    var following := FollowingPosts(posts, FollowedIds(users, viewer));
    var popular := PopularPosts(posts, IdsOf(following), PopularLimit(|following|));
    Blend(following, popular, ratio)
  }

  /** With the code's ratio the feed before shuffling is the popular list: no following post is in
      it, it is ordered by likes, and it is capped at the popular limit. */
  lemma CodeRatioFeedHasNoFollowingPost(users: seq<User>, posts: seq<Post>, viewer: Option<ClerkId>)
    ensures var following := FollowingPosts(posts, FollowedIds(users, viewer));
      var feed := ComposeFeed(users, posts, viewer, CodeRatio);
      feed == PopularPosts(posts, IdsOf(following), PopularLimit(|following|)) &&
      (forall p :: p in feed ==> p !in following && p in posts) &&
      SortedByLikes(feed) && |feed| <= PopularLimit(|following|)
  {
    var following := FollowingPosts(posts, FollowedIds(users, viewer));
    var popular := PopularPosts(posts, IdsOf(following), PopularLimit(|following|));
    CodeRatioBlendIsPopular(following, popular);
    forall p | p in popular ensures p !in following {
    }
  }

  // ---------------------------------------------------------------------------------------------
  // Unique ids

  lemma {:induction false} FilterKeepsIdsUnique(s: seq<Post>, p: Post -> bool)
    requires UniquePostIds(s)
    ensures UniquePostIds(Filter(s, p))
  {
    if s != [] {
      FilterKeepsIdsUnique(s[1..], p);
      var rest := Filter(s[1..], p);
      if p(s[0]) {
        var r := [s[0]] + rest;
        forall i, j | 0 <= i < j < |r| ensures r[i].id != r[j].id {
          if i == 0 {
            assert r[j] in s[1..];
          }
        }
      }
    }
  }

  lemma {:induction false} InsertKeepsIdsUnique(x: Post, s: seq<Post>)
    requires UniquePostIds(s)
    requires forall q :: q in s ==> q.id != x.id
    ensures UniquePostIds(InsertByLikes(x, s))
  {
    if s != [] && LikeCount(x) < LikeCount(s[0]) {
      assert s == [s[0]] + s[1..];
      InsertKeepsIdsUnique(x, s[1..]);
      var rest := InsertByLikes(x, s[1..]);
      forall j | 0 <= j < |rest| ensures rest[j].id != s[0].id {
        assert rest[j] in multiset(rest);
      }
    }
  }

  lemma {:induction false} SortKeepsIdsUnique(s: seq<Post>)
    requires UniquePostIds(s)
    ensures UniquePostIds(SortByLikes(s))
  {
    if s != [] {
      SortKeepsIdsUnique(s[1..]);
      var sorted := SortByLikes(s[1..]);
      forall q | q in sorted ensures q.id != s[0].id {
        assert q in multiset(s[1..]);
      }
      InsertKeepsIdsUnique(s[0], sorted);
    }
  }

  lemma {:induction false} ShuffleKeepsIdsUnique(s: seq<Post>, draw: nat -> nat, i: int)
    requires ValidDraws(draw) && i < |s| && UniquePostIds(s)
    ensures UniquePostIds(ShuffleFrom(s, draw, i))
    decreases i
  {
    if i > 0 {
      var s' := Swap(s, i, draw(i));
      forall a, b | 0 <= a < b < |s'| ensures s'[a].id != s'[b].id {
        var a' := if a == i then draw(i) else if a == draw(i) then i else a;
        var b' := if b == i then draw(i) else if b == draw(i) then i else b;
        assert s'[a] == s[a'] && s'[b] == s[b'] && a' != b';
      }
      ShuffleKeepsIdsUnique(s', draw, i - 1);
    }
  }

  lemma ShuffledKeepsIdsUnique(s: seq<Post>, draw: nat -> nat)
    requires ValidDraws(draw) && UniquePostIds(s)
    ensures UniquePostIds(Shuffled(s, draw))
  {
    ShuffleKeepsIdsUnique(s, draw, |s| - 1);
  }

  lemma PrefixKeepsIdsUnique(s: seq<Post>, n: nat)
    requires UniquePostIds(s) && n <= |s|
    ensures UniquePostIds(s[..n])
  {
  }

  lemma ConcatKeepsIdsUnique(a: seq<Post>, b: seq<Post>)
    requires UniquePostIds(a) && UniquePostIds(b)
    requires forall x, y :: x in a && y in b ==> x.id != y.id
    ensures UniquePostIds(a + b)
  {
    var r := a + b;
    forall i, j | 0 <= i < j < |r| ensures r[i].id != r[j].id {
      if j < |a| {
        assert r[i] == a[i] && r[j] == a[j];
      } else if i >= |a| {
        assert r[i] == b[i - |a|] && r[j] == b[j - |a|];
      } else {
        assert r[i] in a && r[j] in b;
      }
    }
  }

  /** The popular list repeats no post when the store does not. */
  lemma PopularIdsUnique(posts: seq<Post>, exclude: seq<PostId>, limit: nat)
    requires UniquePostIds(posts)
    ensures UniquePostIds(PopularPosts(posts, exclude, limit))
  {
    var cands := PopularCandidates(posts, exclude);
    FilterKeepsIdsUnique(posts, (p: Post) => p.id !in exclude);
    SortKeepsIdsUnique(cands);
    var sorted := SortByLikes(cands);
    PrefixKeepsIdsUnique(sorted, Min(limit, |sorted|));
  }

  /** A blend of two lists without repeats and without shared ids repeats no post. */
  lemma BlendIdsUnique(following: seq<Post>, popular: seq<Post>, ratio: Ratio)
    requires UniquePostIds(following) && UniquePostIds(popular)
    requires forall p :: p in popular ==> p.id !in IdsOf(following)
    ensures UniquePostIds(Blend(following, popular, ratio))
  {
    var total := |following| + |popular|;
    var nf := NumFollowing(total, ratio);
    var f := following[..Min(nf, |following|)];
    var p := popular[..Min(total - nf, |popular|)];
    PrefixKeepsIdsUnique(following, Min(nf, |following|));
    PrefixKeepsIdsUnique(popular, Min(total - nf, |popular|));
    forall x, y | x in f && y in p ensures x.id != y.id {
      var k :| 0 <= k < |f| && f[k] == x;
      assert IdsOf(following)[k] == x.id;
    }
    ConcatKeepsIdsUnique(f, p);
  }

  /** In a store with unique post ids, the feed holds every post at most once: the popular fetch
      excludes the following posts' ids, and sorting, cutting and shuffling keep ids apart. */
  lemma FeedIdsUnique(users: seq<User>, posts: seq<Post>, viewer: Option<ClerkId>, ratio: Ratio, draw: nat -> nat)
    requires UniquePostIds(posts) && ValidDraws(draw)
    ensures UniquePostIds(Shuffled(ComposeFeed(users, posts, viewer, ratio), draw))
  {
    var followed := FollowedIds(users, viewer);
    var following := FollowingPosts(posts, followed);
    FilterKeepsIdsUnique(posts, (p: Post) => p.author in followed);
    PopularIdsUnique(posts, IdsOf(following), PopularLimit(|following|));
    var popular := PopularPosts(posts, IdsOf(following), PopularLimit(|following|));
    BlendIdsUnique(following, popular, ratio);
    ShuffledKeepsIdsUnique(ComposeFeed(users, posts, viewer, ratio), draw);
  }

  // ---------------------------------------------------------------------------------------------
  // getPosts

  /** `[...selectedFollowing, ...selectedPopular]`: a fresh array holding `s`. */
  method ArrayOf<T>(s: seq<T>) returns (a: array<T>)
    ensures fresh(a) && a[..] == s
  {
    a := new T[|s|](i requires 0 <= i < |s| => s[i]);
  }

  /** `getPosts`: compose the feed from the store for the viewer, then shuffle it with the given
      draws. The result is a shuffle, hence a permutation, of the composed feed, and with unique
      post ids in the store it repeats no post. */
  method GetPosts(db: Db, viewer: Option<ClerkId>, ratio: Ratio, draw: nat -> nat) returns (feed: seq<Post>)
    requires ValidDraws(draw)
    ensures feed == Shuffled(ComposeFeed(db.users, db.posts, viewer, ratio), draw)
    ensures multiset(feed) == multiset(ComposeFeed(db.users, db.posts, viewer, ratio))
    ensures db.Valid() ==> UniquePostIds(feed)
  {
    var followingIds := FollowedIds(db.users, viewer);
    var followingPosts := FollowingPosts(db.posts, followingIds);
    var excludeIds := IdsOf(followingPosts);
    var popularPosts := PopularPosts(db.posts, excludeIds, PopularLimit(|followingPosts|));
    var blended := Blend(followingPosts, popularPosts, ratio);
    ghost var composed := ComposeFeed(db.users, db.posts, viewer, ratio);
    assert blended == composed;

    var a := ArrayOf(blended);
    Shuffle(a, draw);
    feed := a[..];
    if db.Valid() {
      FeedIdsUnique(db.users, db.posts, viewer, ratio, draw);
    }
  }
}
