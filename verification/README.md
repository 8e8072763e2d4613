# Cosmos screens: feed reduction and roster commands

A Dafny model of the two pieces of logic inside the Cosmos app's profile and box screens.

- **Feed reduction (profile screen).** Every snapshot of a box's post feed is reduced to the viewed user's posts, in key order, and three reaction counts: `love`, `meh` and `sad`. Each count is the sum of the lengths of one optional reactor list. A `null` snapshot gives no posts and zero counts.
- **Command state of the two screens.** The box screen holds `enrolledBy`, `auth = [author_name, author_uid]`, `email`, `actionSheetIndex` and `btnLoading`. It adds a member by email, rejecting a blank email before any backend call. It removes the selected member, but never the author. The profile screen selects a post with a long press and deletes it from the action sheet.

Both screens are classes whose fields are the component state. The backend calls (`getBox`, `addUserToBox`, `removeUserFromBox`, `deletePosts`, the two listeners and the `off()` detach) are appended to a ghost `requests` log. Toasts are appended to a ghost `notices` log.

Promise continuations are separate event methods named `On…Settled`. These stand for the code in `.then`/`.catch` and the code after an `await`. The settled outcome is a parameter, so success and failure are both arbitrary. The current box id is read from context in the code, at the moment each handler runs. Here it is a parameter of each handler.

A feed snapshot is `Option<seq<FeedEntry>>`. The sequence lists the snapshot object's keys in `Object.keys` order, with their records. `None` is a `null` value.

In these places the model follows the code's actual behaviour:
- A reactor id that occurs twice in a bucket is counted twice, because the code uses `.length`. No set semantics are applied.
- On the profile screen, "Delete" awaits `deletePosts`. A rejected delete escapes the handler before `actionSheetIndex` is reset, so the selection stays set (`OnDeleteSettled`). Any other choice resets it at once.
- An action-sheet index other than 0 or 1 is not an error. It resets the selection just as index 1 does.
- Choosing index 0 when no item is at the selected position raises a TypeError. This happens before any backend call (`Completion.Threw`). No request is made and no state changes.

## Model

| member | source | states |
|---|---|---|
| JsString.TrimStart | src/screens/BoxScreen/index.js:75 | the leading half of `trim()`: the result is a suffix of the input, everything removed is whitespace, and the result does not start with whitespace |
| JsString.TrimEnd | src/screens/BoxScreen/index.js:75 | the trailing half of `trim()`: the result is a prefix of the input, everything removed is whitespace, and the result does not end with whitespace |
| JsString.Trim | src/screens/BoxScreen/index.js:75 | `trim()` returns the contiguous slice of the input left after removing whitespace from both ends; all removed characters are whitespace and neither end of the result is |
| JsString.TrimEmptyIffBlank | src/screens/BoxScreen/index.js:75 | `email.trim() === ''` exactly when every character of the email is JavaScript whitespace, including the empty email |
| JsString.SplitHead | src/screens/ProfileScreen/index.js:168 | `name.split('.')[0]` is a prefix of the name with no '.', followed by '.' or by the end of the name, so the whole name when it has no dot |
| JsString.SplitHeadUnique | src/screens/ProfileScreen/index.js:168 | those three facts determine the delete key uniquely |
| Feed.UserPosts | src/screens/ProfileScreen/index.js:113 | the filter keeps only records that are the viewed user's by `Owns` (their `uid` strictly equals the viewed uid, and a record without a uid never matches), and never more records than the feed has |
| Feed.Reduce | src/screens/ProfileScreen/index.js:98-128 | a `null` snapshot and an empty feed both give no posts and zero counts; otherwise the records are taken one per key in key order (`Values`) and filtered; every stored post belongs to the viewed user and there are no more of them than keys |
| Feed.SumReactions | src/screens/ProfileScreen/index.js:114-121 | the `forEach` with mutable accumulators returns, for each reaction kind, the sum of the bucket lengths over the posts; by `BucketSize` an absent bucket adds 0 and a repeated reactor id is counted each time |
| Feed.SelectedSpec | src/screens/ProfileScreen/index.js:110-113 | the filtered list is the records at strictly ascending positions of the input, and a position is taken exactly when its record is the user's: none dropped, none duplicated, order kept |
| Feed.ReduceKeepsExactlyUserPosts | src/screens/ProfileScreen/index.js:110-113 | the stored posts are exactly the feed records of the viewed uid, in feed key order |
| Feed.TotalOfUserPosts | src/screens/ProfileScreen/index.js:113-121 | summing a bucket over the filtered posts equals summing over the whole feed with other users' records contributing zero |
| Feed.ReduceCounts | src/screens/ProfileScreen/index.js:114-121 | each of `love`, `meh`, `sad` equals the feed-wide sum of that bucket's lengths over the viewed user's records |
| Feed.UserPostsConcat | src/screens/ProfileScreen/index.js:113 | filtering a concatenated feed is the concatenation of the filtered parts |
| Feed.ReduceIgnoresOthers | src/screens/ProfileScreen/index.js:113-121 | inserting another user's record anywhere in the feed changes neither the posts nor any count |
| Feed.ReduceExample | src/screens/ProfileScreen/index.js:98-128 | a worked feed: another user's post is excluded, and a repeated love reactor is counted twice |
| Profile.DeleteKey | src/screens/ProfileScreen/index.js:168 | the child key of a post is the prefix of its name before the first '.', or the whole name when it has no dot |
| Profile.ViewedUid | src/screens/ProfileScreen/index.js:59-63 | the viewed uid is the route's `uid` whenever that is present and non-empty, and the signed-in user's uid otherwise |
| Profile.ProfileScreen.constructor | src/screens/ProfileScreen/index.js:38-65 | initial state: viewed uid as ViewedUid, name from the auth user or 'Username', no posts, zero counts, loading, no selection |
| Profile.ProfileScreen.Mount | src/screens/ProfileScreen/index.js:67-96 | always watches the profile document; an empty box id skips the feed subscription and stops loading, otherwise the box feed is watched |
| Profile.ProfileScreen.OnFeedSnapshot | src/screens/ProfileScreen/index.js:98-128 | posts and counts become Reduce of the snapshot and the viewed uid, independent of the previous state, so a repeated snapshot changes nothing; loading stops; the invariant (posts are the user's, counts are their totals) is kept |
| Profile.ProfileScreen.HandleCardLongPress | src/screens/ProfileScreen/index.js:153-159 | the pressed card becomes the selection |
| Profile.ProfileScreen.HandleActionPress | src/screens/ProfileScreen/index.js:161-186 | only index 0 issues requests: the detach of the child at the post name's part before the first '.', then deletion of the full name, after which the handler waits; other indices make no request and clear the selection |
| Profile.ProfileScreen.OnDeleteSettled | src/screens/ProfileScreen/index.js:170-185 | a completed delete shows a toast and clears the selection; a rejected delete leaves the selection and shows nothing |
| Membership.CheckRemoval | src/screens/BoxScreen/index.js:116-124 | the remove guard: only the selected member can be removed, never the author (`AuthorUid`, which is `auth[1]`, or absent before the first fetch); a selected author is always protected; a missing selection is reported |
| Membership.BoxScreen.constructor | src/screens/BoxScreen/index.js:28-37 | initial state: empty roster and author pair, empty email, no selection, button idle; establishes the invariant that `auth` is empty or a pair, and empty only while the roster is |
| Membership.BoxScreen.Mount | src/screens/BoxScreen/index.js:39-41 | mounting issues one roster fetch |
| Membership.BoxScreen.FetchEnrolledUsers | src/screens/BoxScreen/index.js:43-45 | one `getBox` request for the current box |
| Membership.BoxScreen.OnGetBoxSettled | src/screens/BoxScreen/index.js:45-58 | a fetched box sets `enrolledBy` and `auth = [author_name, author_uid]`; a failed fetch leaves both unchanged and shows its message |
| Membership.BoxScreen.SetAddParticipant | src/screens/BoxScreen/index.js:67-71 | the typed text becomes `email` |
| Membership.BoxScreen.HandleAddUser | src/screens/BoxScreen/index.js:73-84 | a request is sent exactly when the email has a non-whitespace character; a blank email makes no request, keeps `btnLoading` and shows a toast; otherwise `btnLoading` is set and the untrimmed email is sent |
| Membership.BoxScreen.OnAddUserSettled | src/screens/BoxScreen/index.js:85-102 | success leaves `enrolledBy` alone, re-fetches, clears `email` and stops `btnLoading`; failure stops `btnLoading`, keeps `email` and makes no request |
| Membership.BoxScreen.HandleUserClick | src/screens/BoxScreen/index.js:105-110 | the tapped member becomes the selection |
| Membership.BoxScreen.HandleActionPress | src/screens/BoxScreen/index.js:112-151 | on index 0 a selected author gets no request, a toast and an early return that keeps the selection; any other member gets exactly one removal request for its uid and the selection is cleared; other indices make no request and clear the selection; a removal is only requested while the author is known (the invariant: no roster before the first fetch) and never names the author |
| Membership.BoxScreen.OnRemoveUserSettled | src/screens/BoxScreen/index.js:125-139 | success re-fetches the roster and confirms; failure shows the message; the roster is not edited locally |

## Left out

- Rendering: JSX, `render`, `renderPosts`, styles, the ghost animation and its interpolation (ProfileScreen 52-57 and 189-284, BoxScreen 153-219). These are layout and floating-point animation only.
- The Firebase SDK calls themselves. Each is a request appended to a ghost log, and its outcome is an arbitrary parameter of the matching `On…Settled` method.
- The profile-document handler that copies `name` and `photoURL` (ProfileScreen 72-88). It includes the logged "account might be deleted" error. It only assigns fields and logs, and only its subscription is modelled (`WatchProfile`).
- `console.log`, `Vibration`, `ActionSheet.show()` and the Cancel-branch log lines. These are fire-and-forget side effects with no effect on state.
- The `catch` at ProfileScreen 129-132, which logs and stops loading. The model's typed records cannot make the reduction raise. A record that is not an object, or a bucket that is not an array, is outside the model.
- `handleOpenPost` (ProfileScreen 148-151) and the `setPosts`/`setLoading`/`setBtnLoading` setters. These are navigation and one-line setters, which the modelled handlers inline.
- Listener lifecycle and interleaving of promises. The code never unsubscribes its `value` listener. Each continuation is one atomic event, and continuations may occur in any order. The model does not track which requests are still pending.
- The store's conversion of a key set of small integers into an array in `snap.val()`. The snapshot is taken as given, in its key order.
