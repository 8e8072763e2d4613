/** The reduction of a box's post feed into the viewed user's posts and reaction counts,
    as the profile screen's `value` listener performs it on every snapshot. */
module Feed {
  import opened Common

  /** A post record stored under one key of the box's feed. The store keeps `uid` and the
      three reaction buckets optional; a bucket lists the ids of the users who reacted. */
  datatype Post = Post(
    uid: Option<string>,
    name: string,
    postURL: string,
    love: Option<seq<string>>,
    meh: Option<seq<string>>,
    sad: Option<seq<string>>)

  /** One key of the snapshot object with its record. A snapshot is the list of these in
      `Object.keys` order; `None` stands for a `null` snapshot value (an empty box feed). */
  datatype FeedEntry = FeedEntry(key: string, post: Post)

  datatype Reaction = Love | Meh | Sad

  datatype ProfileStats = ProfileStats(posts: seq<Post>, love: nat, meh: nat, sad: nat)

  function Bucket(p: Post, k: Reaction): Option<seq<string>> {
    match k
    case Love => p.love
    case Meh => p.meh
    case Sad => p.sad
  }

  /** `bucket ? bucket.length : 0`: an absent bucket adds nothing, and a reactor id that
      occurs twice is counted twice. */
  function BucketSize(b: Option<seq<string>>): nat {
    match b
    case None => 0
    case Some(ids) => |ids|
  }

  /** A record belongs to `uid` when its own uid is strictly equal to it, so a record without a uid never matches. */
  predicate Owns(p: Post, uid: string) {
    p.uid == Some(uid)
  }

  /** The records of a snapshot, one per key, in key order. */
  function Values(entries: seq<FeedEntry>): seq<Post> {
    seq(|entries|, i requires 0 <= i < |entries| => entries[i].post)
  }

  /** The filter over the records: only records of `uid` survive, in their order, and never more than came in. */
  function UserPosts(ps: seq<Post>, uid: string): (mine: seq<Post>)
    ensures |mine| <= |ps|
    ensures forall j :: 0 <= j < |mine| ==> Owns(mine[j], uid)
  {
    if ps == [] then []
    else UserPosts(ps[..|ps| - 1], uid) + (if Owns(ps[|ps| - 1], uid) then [ps[|ps| - 1]] else [])
  }

  /** Sum of the sizes of bucket `k` over `ps`: the value the `forEach` accumulates. */
  function Total(ps: seq<Post>, k: Reaction): nat {
    if ps == [] then 0 else Total(ps[..|ps| - 1], k) + BucketSize(Bucket(ps[|ps| - 1], k))
  }

  /** Reference definition without a filter: every record of the feed contributes its
      bucket size when it belongs to `uid`, and zero otherwise. */
  function TotalFor(ps: seq<Post>, uid: string, k: Reaction): nat {
    if ps == [] then 0
    else TotalFor(ps[..|ps| - 1], uid, k) + (if Owns(ps[|ps| - 1], uid) then BucketSize(Bucket(ps[|ps| - 1], k)) else 0)
  }

  /** Reference definition of the filter: the ascending positions of the records of `uid`. */
  function Selected(ps: seq<Post>, uid: string): seq<nat> {
    if ps == [] then []
    else Selected(ps[..|ps| - 1], uid) + (if Owns(ps[|ps| - 1], uid) then [|ps| - 1] else [])
  }

  /** The whole snapshot handler: a `null` snapshot gives no posts and zero counts; otherwise
      the user's records in key order and the three totals over them. */
  function Reduce(snap: Option<seq<FeedEntry>>, uid: string): (stats: ProfileStats)
    ensures snap.None? ==> stats == ProfileStats([], 0, 0, 0)
    ensures snap == Some([]) ==> stats == ProfileStats([], 0, 0, 0)
    ensures snap.Some? ==> |stats.posts| <= |snap.value|
    ensures forall j :: 0 <= j < |stats.posts| ==> Owns(stats.posts[j], uid)
  {
    match snap
    case None => ProfileStats([], 0, 0, 0)
    case Some(entries) =>
      var mine := UserPosts(Values(entries), uid);
      ProfileStats(mine, Total(mine, Love), Total(mine, Meh), Total(mine, Sad))
  }

  /** The `forEach` over the user's posts with mutable `love`, `meh` and `sad` accumulators. */
  method SumReactions(userPosts: seq<Post>) returns (love: nat, meh: nat, sad: nat)
    ensures love == Total(userPosts, Love)
    ensures meh == Total(userPosts, Meh)
    ensures sad == Total(userPosts, Sad)
  {
    love, meh, sad := 0, 0, 0;
    var i := 0;
    while i < |userPosts|
      invariant 0 <= i <= |userPosts|
      invariant love == Total(userPosts[..i], Love)
      invariant meh == Total(userPosts[..i], Meh)
      invariant sad == Total(userPosts[..i], Sad)
    {
      var post := userPosts[i];
      love := love + BucketSize(post.love);
      meh := meh + BucketSize(post.meh);
      sad := sad + BucketSize(post.sad);
      assert userPosts[..i + 1][..i] == userPosts[..i];
      i := i + 1;
    }
    assert userPosts[..|userPosts|] == userPosts;
  }

  /** The filter keeps exactly the records of `uid`, in their original order, none dropped
      and none duplicated: the kept records are those at the ascending positions `Selected`,
      and a position is selected exactly when its record belongs to `uid`. */
  lemma {:induction false} SelectedSpec(ps: seq<Post>, uid: string)
    ensures |Selected(ps, uid)| == |UserPosts(ps, uid)|
    ensures forall j :: 0 <= j < |Selected(ps, uid)| ==>
              Selected(ps, uid)[j] < |ps| && UserPosts(ps, uid)[j] == ps[Selected(ps, uid)[j]]
    ensures forall j, k :: 0 <= j < k < |Selected(ps, uid)| ==> Selected(ps, uid)[j] < Selected(ps, uid)[k]
    ensures forall i :: 0 <= i < |ps| ==> (Owns(ps[i], uid) <==> i in Selected(ps, uid))
  {
    if ps != [] {
      var init := ps[..|ps| - 1];
      SelectedSpec(init, uid);
      var idx, mine := Selected(init, uid), UserPosts(init, uid);
      assert forall j :: 0 <= j < |idx| ==> idx[j] < |init|;
      forall i | 0 <= i < |init| ensures ps[i] == init[i] { }
    }
  }

  /** Snapshot form of SelectedSpec: the posts the handler stores are the feed records of
      `uid` at ascending key positions, and every record of `uid` is among them. */
  lemma ReduceKeepsExactlyUserPosts(entries: seq<FeedEntry>, uid: string)
    ensures var posts, idx := Reduce(Some(entries), uid).posts, Selected(Values(entries), uid);
      && |posts| == |idx|
      && (forall j :: 0 <= j < |idx| ==> idx[j] < |entries| && posts[j] == entries[idx[j]].post)
      && (forall j, k :: 0 <= j < k < |idx| ==> idx[j] < idx[k])
      && (forall i :: 0 <= i < |entries| ==> (Owns(entries[i].post, uid) <==> i in idx))
  {
    SelectedSpec(Values(entries), uid);
  }

  /** Summing over the filtered posts equals summing over the whole feed with other users'
      records contributing zero. */
  lemma {:induction false} TotalOfUserPosts(ps: seq<Post>, uid: string, k: Reaction)
    ensures Total(UserPosts(ps, uid), k) == TotalFor(ps, uid, k)
  {
    if ps != [] {
      var init, last := ps[..|ps| - 1], ps[|ps| - 1];
      TotalOfUserPosts(init, uid, k);
      var mine := UserPosts(init, uid);
      if Owns(last, uid) {
        assert (mine + [last])[..|mine|] == mine;
      } else {
        assert mine + [] == mine;
      }
    }
  }

  /** Each count the handler stores is the feed-wide sum of that bucket's sizes over the
      records of `uid`. */
  lemma ReduceCounts(entries: seq<FeedEntry>, uid: string)
    ensures Reduce(Some(entries), uid).love == TotalFor(Values(entries), uid, Love)
    ensures Reduce(Some(entries), uid).meh == TotalFor(Values(entries), uid, Meh)
    ensures Reduce(Some(entries), uid).sad == TotalFor(Values(entries), uid, Sad)
  {
    TotalOfUserPosts(Values(entries), uid, Love);
    TotalOfUserPosts(Values(entries), uid, Meh);
    TotalOfUserPosts(Values(entries), uid, Sad);
  }

  /** Filtering distributes over concatenation of feeds. */
  lemma {:induction false} UserPostsConcat(a: seq<Post>, b: seq<Post>, uid: string)
    ensures UserPosts(a + b, uid) == UserPosts(a, uid) + UserPosts(b, uid)
  {
    if b != [] {
      var init := b[..|b| - 1];
      assert (a + b)[..|a + b| - 1] == a + init;
      UserPostsConcat(a, init, uid);
    } else {
      assert a + b == a;
    }
  }

  /** A record of another user, wherever it sits in the feed, changes neither the stored
      posts nor any of the three counts. */
  lemma ReduceIgnoresOthers(before: seq<FeedEntry>, e: FeedEntry, after: seq<FeedEntry>, uid: string)
    requires !Owns(e.post, uid)
    ensures Reduce(Some(before + [e] + after), uid) == Reduce(Some(before + after), uid)
  {
    assert Values(before + [e] + after) == Values(before) + [e.post] + Values(after);
    assert Values(before + after) == Values(before) + Values(after);
    UserPostsConcat(Values(before) + [e.post], Values(after), uid);
    UserPostsConcat(Values(before), [e.post], uid);
    UserPostsConcat(Values(before), Values(after), uid);
    assert UserPosts([e.post], uid) == [] by {
      assert [e.post][..0] == [];
    }
  }

  /** One post of `u` with love reactors [a, a] and sad reactor [c], one post of another user:
      the other post is excluded, and the repeated reactor is counted twice. */
  lemma ReduceExample(u: string, other: string)
    requires u != other
    ensures var mine := Post(Some(u), "p1.jpg", "url1", Some(["a", "a"]), Some([]), Some(["c"]));
      var theirs := Post(Some(other), "p2.jpg", "url2", Some(["b"]), None, None);
      Reduce(Some([FeedEntry("p1", mine), FeedEntry("p2", theirs)]), u) == ProfileStats([mine], 2, 0, 1)
  {
    var mine := Post(Some(u), "p1.jpg", "url1", Some(["a", "a"]), Some([]), Some(["c"]));
    var theirs := Post(Some(other), "p2.jpg", "url2", Some(["b"]), None, None);
    var ps := Values([FeedEntry("p1", mine), FeedEntry("p2", theirs)]);
    assert ps == [mine, theirs];
    assert ps[..1] == [mine] && [mine][..0] == [];
    assert UserPosts(ps, u) == [mine];
    assert Total([mine], Love) == 2 && Total([mine], Meh) == 0 && Total([mine], Sad) == 1;
  }
}
