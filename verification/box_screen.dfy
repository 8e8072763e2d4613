/** The box screen: the roster of a box, adding a member by email and removing a selected
    member, with the author protected from removal. */
module Membership {
  import opened Common
  import opened JsString

  /** One enrolled user as the box document lists it. */
  datatype Member = Member(uid: string, name: string)

  /** The box document `getBox` returns. */
  datatype Box = Box(authorName: string, authorUid: string, enrolledBy: seq<Member>)

  /** How a `getBox` promise settles. */
  datatype Fetch = Fetched(box: Box) | FetchFailed(message: string)

  /** Backend calls, in the order the screen issues them. */
  datatype Request =
    | GetBox(box: string)
    | AddUserToBox(email: string, box: string)
    | RemoveUserFromBox(uid: string, box: string)

  /** User-visible notifications (toasts). */
  datatype Notice =
    | NoEmailTyped
    | UserAdded
    | UserRemoved
    | AuthorCannotLeave
    | ErrorMessage(message: string)

  /** What a "Remove User" choice finds at the selected position. */
  datatype RemovalCheck =
    | NoSuchMember              // `enrolledBy[actionSheetIndex]` is undefined
    | AuthorProtected           // the selected member is the author, `auth[1]`
    | Removable(uid: string)    // anyone else

  /** `auth[1]`, undefined until a box has been fetched. */
  function AuthorUid(auth: seq<string>): Option<string> {
    if |auth| > 1 then Some(auth[1]) else None
  }

  /** The guard of the remove command. Only the selected member can be removed, never the
      author; a selected author is always protected; and a missing selection is reported as such. */
  function CheckRemoval(enrolledBy: seq<Member>, auth: seq<string>, selected: int): (c: RemovalCheck)
    ensures c.NoSuchMember? <==> !(0 <= selected < |enrolledBy|)
    ensures c.Removable? ==>
      0 <= selected < |enrolledBy| && c.uid == enrolledBy[selected].uid && AuthorUid(auth) != Some(c.uid)
    ensures c.AuthorProtected? ==>
      0 <= selected < |enrolledBy| && AuthorUid(auth) == Some(enrolledBy[selected].uid)
  {
    if !(0 <= selected < |enrolledBy|) then NoSuchMember
    else if AuthorUid(auth) == Some(enrolledBy[selected].uid) then AuthorProtected
    else Removable(enrolledBy[selected].uid)
  }

  class BoxScreen {
    var enrolledBy: seq<Member>
    var auth: seq<string>
    var email: string
    var actionSheetIndex: int
    var btnLoading: bool
    ghost var requests: seq<Request>
    ghost var notices: seq<Notice>

    /** `auth` is empty until the first successful fetch and `[author_name, author_uid]` after
        it; the roster is set by the same fetch, so it is empty while the author is unknown. */
    ghost predicate Valid()
      reads this
    {
      && (|auth| == 0 || |auth| == 2)
      && (|auth| == 0 ==> enrolledBy == [])
    }

    constructor ()
      ensures Valid()
      ensures enrolledBy == [] && auth == [] && email == ""
      ensures actionSheetIndex == -1 && !btnLoading
      ensures requests == [] && notices == []
    {
      enrolledBy, auth, email := [], [], "";
      actionSheetIndex, btnLoading := -1, false;
      requests, notices := [], [];
    }

    /** Mounting fetches the roster. */
    method Mount(box: string)
      requires Valid()
      modifies this`requests
      ensures Valid()
      ensures requests == old(requests) + [GetBox(box)]
    {
      FetchEnrolledUsers(box);
    }

    /** Asks the backend for the box document; the answer arrives in OnGetBoxSettled. */
    method FetchEnrolledUsers(box: string)
      requires Valid()
      modifies this`requests
      ensures Valid()
      ensures requests == old(requests) + [GetBox(box)]
    {
      requests := requests + [GetBox(box)];
    }

    /** A fetched box replaces the roster and the author pair; a failed fetch only shows its message. */
    method OnGetBoxSettled(result: Fetch)
      requires Valid()
      modifies this`enrolledBy, this`auth, this`notices
      ensures Valid()
      ensures result.Fetched? ==>
        && enrolledBy == result.box.enrolledBy
        && auth == [result.box.authorName, result.box.authorUid]
        && AuthorUid(auth) == Some(result.box.authorUid)
        && notices == old(notices)
      ensures result.FetchFailed? ==>
        && enrolledBy == old(enrolledBy) && auth == old(auth)
        && notices == old(notices) + [ErrorMessage(result.message)]
    {
      match result
      case Fetched(b) =>
        enrolledBy := b.enrolledBy;
        auth := [b.authorName, b.authorUid];
      case FetchFailed(message) =>
        notices := notices + [ErrorMessage(message)];
    }

    /** The email text field's change handler. */
    method SetAddParticipant(text: string)
      requires Valid()
      modifies this`email
      ensures Valid()
      ensures email == text
    {
      email := text;
    }

    /** "Add Member": an email that is blank after `trim()` is refused with a toast and no
        request; otherwise the button shows progress and the untrimmed email is sent. */
    method HandleAddUser(box: string) returns (sent: bool)
      requires Valid()
      modifies this`btnLoading, this`requests, this`notices
      ensures Valid()
      ensures sent <==> exists i :: 0 <= i < |email| && !IsWhitespace(email[i])
      ensures !sent ==>
        btnLoading == old(btnLoading) && requests == old(requests) && notices == old(notices) + [NoEmailTyped]
      ensures sent ==>
        btnLoading && requests == old(requests) + [AddUserToBox(email, box)] && notices == old(notices)
    {
      TrimEmptyIffBlank(email);
      if Trim(email) == "" {
        notices := notices + [NoEmailTyped];
        return false;
      }
      btnLoading := true;
      requests := requests + [AddUserToBox(email, box)];
      return true;
    }

    /** The rest of HandleAddUser once `addUserToBox` settles. Success does not touch the
        roster: it re-fetches, clears the field and stops the button's progress. Failure shows
        the message and stops the progress, keeping the typed email. */
    method OnAddUserSettled(box: string, outcome: Outcome)
      requires Valid()
      modifies this`email, this`btnLoading, this`requests, this`notices
      ensures Valid()
      ensures !btnLoading
      ensures outcome.Resolved? ==>
        && requests == old(requests) + [GetBox(box)]
        && notices == old(notices) + [UserAdded]
        && email == ""
      ensures outcome.Rejected? ==>
        && requests == old(requests)
        && notices == old(notices) + [ErrorMessage(outcome.message)]
        && email == old(email)
    {
      match outcome
      case Resolved =>
        FetchEnrolledUsers(box);
        notices := notices + [UserAdded];
        email := "";
        btnLoading := false;
      case Rejected(message) =>
        notices := notices + [ErrorMessage(message)];
        btnLoading := false;
    }

    /** Tapping a member's card selects it for the action sheet. */
    method HandleUserClick(userIndex: int)
      requires Valid()
      modifies this`actionSheetIndex
      ensures Valid()
      ensures actionSheetIndex == userIndex
    {
      actionSheetIndex := userIndex;
    }

    /** Action sheet choice `index`. On 0 the author guard runs before any call: the author is
        never sent for removal, and that path returns early with the selection kept; any other
        selected member is sent for removal (not awaited) and the selection is cleared. A
        removal is only ever requested once the author is known, by Valid(). Any
        other index only clears the selection. With no member at the selected position,
        index 0 raises before any call. */
    method HandleActionPress(box: string, index: int) returns (c: Completion)
      requires Valid()
      modifies this`actionSheetIndex, this`requests, this`notices
      ensures Valid()
      ensures index == 0 && CheckRemoval(enrolledBy, auth, old(actionSheetIndex)).NoSuchMember? ==>
        && c == Threw
        && actionSheetIndex == old(actionSheetIndex) && requests == old(requests) && notices == old(notices)
      ensures index == 0 && CheckRemoval(enrolledBy, auth, old(actionSheetIndex)).AuthorProtected? ==>
        && c == Returned
        && actionSheetIndex == old(actionSheetIndex) && requests == old(requests)
        && notices == old(notices) + [AuthorCannotLeave]
      ensures index == 0 && CheckRemoval(enrolledBy, auth, old(actionSheetIndex)).Removable? ==>
        && c == Returned
        && actionSheetIndex == -1
        && requests == old(requests) + [RemoveUserFromBox(enrolledBy[old(actionSheetIndex)].uid, box)]
        && notices == old(notices)
      ensures index != 0 ==>
        c == Returned && actionSheetIndex == -1 && requests == old(requests) && notices == old(notices)
      ensures forall r :: r in requests && r !in old(requests) ==>
        r.RemoveUserFromBox? && AuthorUid(auth).Some? && AuthorUid(auth) != Some(r.uid)
    {
      if index == 0 {
        var check := CheckRemoval(enrolledBy, auth, actionSheetIndex);
        match check
        case NoSuchMember =>
          return Threw;
        case AuthorProtected =>
          notices := notices + [AuthorCannotLeave];
          return Returned;
        case Removable(uid) =>
          requests := requests + [RemoveUserFromBox(uid, box)];
      }
      actionSheetIndex := -1;
      return Returned;
    }

    /** The continuation of a removal request: success re-fetches the roster and confirms with
        a toast; failure shows the message. The roster itself is not edited locally. */
    method OnRemoveUserSettled(box: string, outcome: Outcome)
      requires Valid()
      modifies this`requests, this`notices
      ensures Valid()
      ensures outcome.Resolved? ==>
        requests == old(requests) + [GetBox(box)] && notices == old(notices) + [UserRemoved]
      ensures outcome.Rejected? ==>
        requests == old(requests) && notices == old(notices) + [ErrorMessage(outcome.message)]
    {
      match outcome
      case Resolved =>
        FetchEnrolledUsers(box);
        notices := notices + [UserRemoved];
      case Rejected(message) =>
        notices := notices + [ErrorMessage(message)];
    }
  }
}
