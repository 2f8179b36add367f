/** The share and save buttons on post cards (components/ActionButton.jsx): which action a
    click takes, the save toggle over the parent's saved-id set, and the button title. */
module ActionButton {
  import opened Base
  import UseApi

  /** What a click does. */
  datatype ClickAction = Share | SaveToggle | NoAction

  /** A JavaScript-truthy post id. */
  predicate TruthyId(postId: Option<int>)
  {
    postId.Some? && postId.value != 0
  }

  /** `handleClick`: share wins over save, and without a post id nothing happens. */
  function Click(isShare: bool, isSave: bool, postId: Option<int>): (a: ClickAction)
    ensures a == Share <==> isShare && TruthyId(postId)
    ensures a == SaveToggle <==> !isShare && isSave && TruthyId(postId)
    ensures !TruthyId(postId) ==> a == NoAction
  {
    if isShare && TruthyId(postId) then Share
    else if isSave && TruthyId(postId) then SaveToggle
    else NoAction
  }

  /** The button's `title`. */
  function Title(isSave: bool, isSaved: bool, isShare: bool): (t: string)
    ensures isSave ==> t == (if isSaved then "Remove from saved" else "Save post")
    ensures !isSave && isShare ==> t == "Share post"
    ensures !isSave && !isShare ==> t == []
  {
    if isSave then (if isSaved then "Remove from saved" else "Save post")
    else if isShare then "Share post"
    else ""
  }

  /** The new saved set after a successful toggle: `postId` leaves it when the snapshot says
      it was saved, and joins it otherwise. */
  function Toggled(prev: set<int>, snapshot: set<int>, postId: int): set<int>
  {
    if postId in snapshot then prev - {postId} else prev + {postId}
  }

  /** When the snapshot agrees with the current set about `postId`, a successful toggle flips
      exactly that id's membership. */
  lemma ToggleFlipsOnlyPost(prev: set<int>, snapshot: set<int>, postId: int)
    requires postId in snapshot <==> postId in prev
    ensures postId in Toggled(prev, snapshot, postId) <==> postId !in prev
    ensures forall id :: id != postId ==> (id in Toggled(prev, snapshot, postId) <==> id in prev)
  {
  }

  const LoginFirst := "Please login to save posts"
  const Removed := "Post removed from saved posts!"
  const SavedOk := "Post saved successfully!"
  const SaveFailed := "Failed to save/unsave post. Please try again."

  class Button {
    /** `savePostIds` as passed in props when the click happened. */
    const snapshot: set<int>
    /** The parent's saved-id state, updated through `setSavedPostIds`. */
    var savedIds: set<int>
    var saving: bool
    var requests: seq<int>
    var toasts: seq<string>

    constructor (snapshot: set<int>, savedIds: set<int>)
      ensures this.snapshot == snapshot && this.savedIds == savedIds
      ensures !saving && requests == [] && toasts == []
    {
      this.snapshot := snapshot;
      this.savedIds := savedIds;
      saving := false;
      requests := [];
      toasts := [];
    }

    /** `handleSaveToggle`; `status` is the response status if there was a response, and
        `inFlight` is `saving` while the request is out. */
    method SaveToggle(isAuthenticated: bool, postId: int, status: Option<int>) returns (inFlight: bool)
      modifies this
      ensures !isAuthenticated ==>
        toasts == old(toasts) + [LoginFirst] && requests == old(requests) &&
        saving == old(saving) && savedIds == old(savedIds) && inFlight == old(saving)
      ensures isAuthenticated ==> inFlight && !saving && requests == old(requests) + [postId]
      ensures isAuthenticated && (status == Some(200) || status == Some(201)) ==>
        savedIds == Toggled(old(savedIds), snapshot, postId) &&
        toasts == old(toasts) + [if postId in snapshot then Removed else SavedOk]
      ensures isAuthenticated && (status.None? || !UseApi.Resolves(status.value)) ==>
        savedIds == old(savedIds) && toasts == old(toasts) + [SaveFailed]
      ensures isAuthenticated && status.Some? && UseApi.Resolves(status.value) && status.value != 200 && status.value != 201 ==>
        savedIds == old(savedIds) && toasts == old(toasts)
    {
      if !isAuthenticated {
        toasts := toasts + [LoginFirst];
        inFlight := saving;
        return;
      }
      saving := true;
      inFlight := saving;
      requests := requests + [postId];
      if status.Some? && UseApi.Resolves(status.value) {
        if status.value == 200 || status.value == 201 {
          var wasSaved := postId in snapshot;
          if wasSaved {
            savedIds := savedIds - {postId};
            toasts := toasts + [Removed];
          } else {
            savedIds := savedIds + {postId};
            toasts := toasts + [SavedOk];
          }
        }
      } else {
        toasts := toasts + [SaveFailed];
      }
      saving := false;
    }
  }
}
