/** The profile screen: which user it shows, the state its feed listener keeps, and the
    long-press / action-sheet commands that delete one of the shown posts. */
module Profile {
  import opened Common
  import opened JsString
  import opened Feed

  /** The route parameters; `uid` is absent when the screen is opened without one. */
  datatype RouteParams = RouteParams(uid: Option<string>)

  /** The signed-in user as the auth client reports it. */
  datatype CurrentUser = CurrentUser(uid: string, displayName: string)

  /** Backend calls, in the order the screen issues them. */
  datatype Request =
    | WatchProfile(uid: string)            // firestore().collection('Users').doc(uid).onSnapshot
    | WatchFeed(box: string)               // database().ref(box).on('value')
    | DetachPost(box: string, key: string) // database().ref(box).child(key).off()
    | DeletePost(box: string, name: string) // deletePosts(box, name)

  /** User-visible notifications (toasts). */
  datatype Notice = PostDeleted

  /** The uid whose profile is shown: the signed-in user's unless the route passes a
      non-empty (truthy) `uid`. `None` for `params` is `undefined` only: route params that are
      `null` would raise when `uid` is read from them, a case this function does not model. */
  function ViewedUid(params: Option<RouteParams>, currentUid: string): (u: string)
    ensures u == currentUid || (params.Some? && params.value.uid == Some(u) && u != "")
    ensures params.Some? && params.value.uid.Some? && params.value.uid.value != "" ==> u == params.value.uid.value
  {
    match params
    case None => currentUid
    case Some(p) => if p.uid.Some? && p.uid.value != "" then p.uid.value else currentUid
  }

  /** The child key of a post in the feed: its file name up to the first '.'. */
  function DeleteKey(name: string): (key: string)
    ensures |key| <= |name| && key == name[..|key|]
    ensures '.' !in key
    ensures |key| < |name| ==> name[|key|] == '.'
    ensures '.' !in name ==> key == name
  {
    SplitHead(name, '.')
  }

  class ProfileScreen {
    const uid: string
    var name: string
    var posts: seq<Post>
    var love: nat
    var meh: nat
    var sad: nat
    var isLoading: bool
    var actionSheetIndex: int
    ghost var requests: seq<Request>
    ghost var notices: seq<Notice>

    /** Every shown post belongs to the viewed user and the three counts are the totals over them. */
    ghost predicate Valid()
      reads this
    {
      && (forall i :: 0 <= i < |posts| ==> Owns(posts[i], uid))
      && love == Total(posts, Love)
      && meh == Total(posts, Meh)
      && sad == Total(posts, Sad)
    }

    constructor (params: Option<RouteParams>, current: CurrentUser)
      ensures Valid()
      ensures uid == ViewedUid(params, current.uid)
      ensures name == (if params.None? then current.displayName else "Username")
      ensures posts == [] && love == 0 && meh == 0 && sad == 0
      ensures isLoading && actionSheetIndex == -1
      ensures requests == [] && notices == []
    {
      uid := ViewedUid(params, current.uid);
      name := if params.None? then current.displayName else "Username";
      posts, love, meh, sad := [], 0, 0, 0;
      isLoading, actionSheetIndex := true, -1;
      requests, notices := [], [];
    }

    /** Mounting watches the profile document and, unless no box is chosen, the box's feed;
        with no box the screen stops loading at once. */
    method Mount(box: string)
      requires Valid()
      modifies this`isLoading, this`requests
      ensures Valid()
      ensures requests == old(requests) + [WatchProfile(uid)] + (if box == "" then [] else [WatchFeed(box)])
      ensures isLoading == (old(isLoading) && box != "")
    {
      requests := requests + [WatchProfile(uid)];
      if box == "" {
        isLoading := false;
        return;
      }
      requests := requests + [WatchFeed(box)];
    }

    /** The `value` listener: the new state is a function of the snapshot and `uid` alone, so
        delivering the same snapshot again leaves the state as it is. */
    method OnFeedSnapshot(snap: Option<seq<FeedEntry>>)
      requires Valid()
      modifies this`posts, this`love, this`meh, this`sad, this`isLoading
      ensures Valid()
      ensures posts == Reduce(snap, uid).posts
      ensures love == Reduce(snap, uid).love && meh == Reduce(snap, uid).meh && sad == Reduce(snap, uid).sad
      ensures !isLoading
    {
      match snap
      case None =>
        posts, love, meh, sad, isLoading := [], 0, 0, 0, false;
      case Some(entries) =>
        var userPosts := UserPosts(Values(entries), uid);
        var l, m, s := SumReactions(userPosts);
        posts, love, meh, sad, isLoading := userPosts, l, m, s, false;
    }

    /** A long press on a card selects it for the action sheet. */
    method HandleCardLongPress(cardIndex: int)
      requires Valid()
      modifies this`actionSheetIndex
      ensures Valid()
      ensures actionSheetIndex == cardIndex
    {
      actionSheetIndex := cardIndex;
    }

    /** Action sheet choice `index`: 0 detaches the selected post's child key and asks the
        backend to delete it, then waits for that request; any other index only clears the
        selection. With no post at the selected position, index 0 raises before any call. */
    method HandleActionPress(box: string, index: int) returns (c: Completion)
      requires Valid()
      modifies this`actionSheetIndex, this`requests
      ensures Valid()
      ensures index == 0 && 0 <= old(actionSheetIndex) < |posts| ==>
        && c == Suspended
        && actionSheetIndex == old(actionSheetIndex)
        && requests == old(requests) + [DetachPost(box, DeleteKey(posts[old(actionSheetIndex)].name)),
                                         DeletePost(box, posts[old(actionSheetIndex)].name)]
      ensures index == 0 && !(0 <= old(actionSheetIndex) < |posts|) ==>
        c == Threw && actionSheetIndex == old(actionSheetIndex) && requests == old(requests)
      ensures index != 0 ==> c == Returned && actionSheetIndex == -1 && requests == old(requests)
    {
      if index == 0 {
        if !(0 <= actionSheetIndex < |posts|) {
          return Threw;
        }
        var postName := posts[actionSheetIndex].name;
        requests := requests + [DetachPost(box, DeleteKey(postName))];
        requests := requests + [DeletePost(box, postName)];
        return Suspended;
      }
      actionSheetIndex := -1;
      return Returned;
    }

    /** The rest of HandleActionPress once `deletePosts` settles: on success a toast and the
        selection cleared; a rejection escapes the handler and leaves the selection set. */
    method OnDeleteSettled(outcome: Outcome)
      requires Valid()
      modifies this`actionSheetIndex, this`notices
      ensures Valid()
      ensures outcome.Resolved? ==> actionSheetIndex == -1 && notices == old(notices) + [PostDeleted]
      ensures outcome.Rejected? ==> actionSheetIndex == old(actionSheetIndex) && notices == old(notices)
    {
      if outcome.Resolved? {
        notices := notices + [PostDeleted];
        actionSheetIndex := -1;
      }
    }
  }
}
