/**
 * The full-screen picture viewer: a cursor over the pictures it was opened
 * with, navigation with wrap-around, the keyboard dispatch, the delete dialog
 * and the tag panel. Every backend call is an outcome passed in by the
 * caller, and everything the viewer asks of the outside world (backend calls,
 * the parent's callbacks, the error alert) is returned as a list of effects.
 */
module ImageViewer {
  import opened Wrappers
  import opened Models

  // ---------------------------------------------------------------------------
  // Navigation
  // ---------------------------------------------------------------------------

  /** goToNext: the following index, or 0 from the last one. */
  function NextIndex(i: int, n: int): (r: int)
    ensures 0 <= i < n ==> 0 <= r < n
  {
    if i < n - 1 then i + 1 else 0
  }

  /** goToPrevious: the preceding index, or the last one from 0. */
  function PreviousIndex(i: int, n: int): (r: int)
    ensures 0 <= i < n ==> 0 <= r < n
  {
    if i > 0 then i - 1 else n - 1
  }

  /** Inside a non-empty list both moves are steps around a circle of length n. */
  lemma NavigationIsCircular(i: int, n: int)
    requires 0 <= i < n
    ensures NextIndex(i, n) == (i + 1) % n
    ensures PreviousIndex(i, n) == (i + n - 1) % n
  {
    if i == n - 1 {
      assert (i + 1) % n == 0 by { assert i + 1 == n; }
    } else {
      assert (i + 1) % n == i + 1;
    }
    if i == 0 {
      assert (i + n - 1) % n == n - 1;
    } else {
      assert (i + n - 1) % n == i - 1 by { assert i + n - 1 == (i - 1) + n; }
    }
  }

  /** The cursor stays in range, and the two moves undo each other. */
  lemma NavigationRoundTrip(i: int, n: int)
    requires 0 <= i < n
    ensures 0 <= NextIndex(i, n) < n && 0 <= PreviousIndex(i, n) < n
    ensures NextIndex(PreviousIndex(i, n), n) == i
    ensures PreviousIndex(NextIndex(i, n), n) == i
  {
  }

  /** The index kept after a successful delete from a list of n > 1 pictures. */
  function IndexAfterDelete(i: int, n: int): (r: int)
    ensures 0 <= i < n && n > 1 ==> 0 <= r <= n - 2
  {
    if i >= n - 1 then i - 1 else i
  }

  function RemoveAt<T>(s: seq<T>, i: nat): seq<T>
    requires i < |s|
  {
    s[..i] + s[i + 1..]
  }

  /**
   * Once the deleted picture is gone from the list, the kept index lies in
   * [0, n-2] and shows the picture that followed it, or the one before it when
   * the deleted picture was the last.
   */
  lemma IndexAfterDeleteShowsNeighbour<T>(s: seq<T>, i: nat)
    requires |s| > 1 && i < |s|
    ensures var j := IndexAfterDelete(i, |s|);
      && 0 <= j < |s| - 1 == |RemoveAt(s, i)|
      && RemoveAt(s, i)[j] == (if i == |s| - 1 then s[i - 1] else s[i + 1])
  {
  }

  // ---------------------------------------------------------------------------
  // Pure view helpers
  // ---------------------------------------------------------------------------

  datatype SizeUnit = B | KB | MB

  /** The unit formatFileSize picks for a size in bytes. */
  function UnitFor(bytes: int): (u: SizeUnit)
    ensures u == B <==> bytes < 1024
    ensures u == MB <==> bytes >= 1024 * 1024
  {
    if bytes < 1024 then B
    else if bytes < 1024 * 1024 then KB
    else MB
  }

  function Divisor(u: SizeUnit): (d: int)
    ensures d >= 1 && (u != B ==> d % 1024 == 0)
  {
    match u
    case B => 1
    case KB => 1024
    case MB => 1024 * 1024
  }

  /**
   * The shown number, bytes divided by the unit, is at least 1 for KB and
   * MB and below 1024 for B and KB; and a larger size never gets a smaller unit.
   */
  lemma UnitScale(bytes: int, larger: int)
    ensures UnitFor(bytes) != B ==> Divisor(UnitFor(bytes)) <= bytes
    ensures UnitFor(bytes) != MB ==> bytes < 1024 * Divisor(UnitFor(bytes))
    ensures bytes <= larger ==> Divisor(UnitFor(bytes)) <= Divisor(UnitFor(larger))
  {
  }

  predicate HasName(tags: seq<Tag>, name: string) {
    exists t :: t in tags && t.name == name
  }

  /** availableTags: the loaded tags whose name the picture does not carry, in load order. */
  function AvailableTags(all: seq<Tag>, carried: seq<Tag>): (r: seq<Tag>)
    ensures forall t :: t in r <==> t in all && !HasName(carried, t.name)
    ensures |r| <= |all|
  {
    if all == [] then []
    else
      var rest := AvailableTags(all[1..], carried);
      assert forall t :: t in all <==> t == all[0] || t in all[1..];
      if HasName(carried, all[0].name) then rest else [all[0]] + rest
  }

  /** The filter keeps order: it distributes over concatenation. */
  lemma {:induction false} AvailableTagsKeepsOrder(a: seq<Tag>, b: seq<Tag>, carried: seq<Tag>)
    ensures AvailableTags(a + b, carried) == AvailableTags(a, carried) + AvailableTags(b, carried)
  {
    if a != [] {
      assert (a + b)[1..] == a[1..] + b;
      assert (a + b)[0] == a[0];
      AvailableTagsKeepsOrder(a[1..], b, carried);
    } else {
      assert a + b == b;
    }
  }

  /** With no tag carried everything is available. */
  lemma {:induction false} AvailableTagsNoneCarried(all: seq<Tag>)
    ensures AvailableTags(all, []) == all
  {
    if all != [] {
      AvailableTagsNoneCarried(all[1..]);
      assert !HasName([], all[0].name);
      assert all == [all[0]] + all[1..];
    }
  }

  /** When the picture carries the name of every loaded tag, nothing is available. */
  lemma {:induction false} AvailableTagsAllCarried(all: seq<Tag>, carried: seq<Tag>)
    requires forall t :: t in all ==> HasName(carried, t.name)
    ensures AvailableTags(all, carried) == []
  {
    if all != [] {
      assert all[0] in all;
      assert forall t :: t in all[1..] ==> t in all;
      AvailableTagsAllCarried(all[1..], carried);
    }
  }

  // ---------------------------------------------------------------------------
  // Keyboard dispatch
  // ---------------------------------------------------------------------------

  datatype KeyAction = NoAction | CloseDialog | CloseViewer | Previous | Next | ToggleInfo | OpenDialog

  /**
   * What a key does. While the delete dialog is open only Escape acts, and it
   * closes the dialog rather than the viewer.
   */
  function KeyActionFor(dialogOpen: bool, key: string): (a: KeyAction)
    ensures dialogOpen ==> (a != NoAction <==> key == "Escape")
    ensures dialogOpen && a != NoAction ==> a == CloseDialog
    ensures !dialogOpen ==> a != CloseDialog
    ensures !dialogOpen && key == "Escape" ==> a == CloseViewer
    ensures !dialogOpen && key == "ArrowLeft" ==> a == Previous
    ensures !dialogOpen && key == "ArrowRight" ==> a == Next
    ensures !dialogOpen && key == "i" ==> a == ToggleInfo
    ensures !dialogOpen && key == "Delete" ==> a == OpenDialog
    ensures !dialogOpen && key !in {"Escape", "ArrowLeft", "ArrowRight", "i", "Delete"} ==> a == NoAction
  {
    if dialogOpen then
      (if key == "Escape" then CloseDialog else NoAction)
    else if key == "Escape" then CloseViewer
    else if key == "ArrowLeft" then Previous
    else if key == "ArrowRight" then Next
    else if key == "i" then ToggleInfo
    else if key == "Delete" then OpenDialog
    else NoAction
  }

  // ---------------------------------------------------------------------------
  // The component state
  // ---------------------------------------------------------------------------

  /** What the viewer asks of the backend and of its parent. */
  datatype Effect =
    | DeletePicture(path: string, fromDisk: bool)
    | AddTagToPicture(path: string, tagName: string)
    | RemoveTagFromPicture(path: string, tagName: string)
    | GetTagsForPicture(path: string)
    | NotifyDeleted(path: string)
    | Close
    | Alert

  class Viewer {
    const pictures: seq<Picture>
    /** Whether the parent passed an onDelete callback. */
    const hasOnDelete: bool
    var currentIndex: int
    var showInfo: bool
    var showDeleteDialog: bool
    var isDeleting: bool
    var allTags: seq<Tag>
    var pictureTags: seq<Tag>
    var showTagSelector: bool
    var tagLoading: bool

    constructor (pictures: seq<Picture>, initialIndex: int, hasOnDelete: bool)
      ensures this.pictures == pictures && this.hasOnDelete == hasOnDelete
      ensures currentIndex == initialIndex && showInfo && !showDeleteDialog && !isDeleting
      ensures allTags == [] && pictureTags == [] && !showTagSelector && !tagLoading
    {
      this.pictures := pictures;
      this.hasOnDelete := hasOnDelete;
      currentIndex := initialIndex;
      showInfo := true;
      showDeleteDialog := false;
      isDeleting := false;
      allTags := [];
      pictureTags := [];
      showTagSelector := false;
      tagLoading := false;
    }

    /** `pictures[currentIndex]`, which is undefined outside the list. */
    function CurrentPicture(): (p: Option<Picture>)
      reads this
      ensures p.Some? <==> 0 <= currentIndex < |pictures|
      ensures p.Some? ==> p.value == pictures[currentIndex]
    {
      if 0 <= currentIndex < |pictures| then Some(pictures[currentIndex]) else None
    }

    function Available(): seq<Tag>
      reads this
    {
      AvailableTags(allTags, pictureTags)
    }

    /** The mount-time load of every tag; a failed load keeps the list. */
    method LoadAllTags(reply: Option<seq<Tag>>)
      modifies this
      ensures allTags == (if reply.Some? then reply.value else old(allTags))
      ensures currentIndex == old(currentIndex) && showInfo == old(showInfo)
      ensures showDeleteDialog == old(showDeleteDialog) && isDeleting == old(isDeleting)
      ensures pictureTags == old(pictureTags) && showTagSelector == old(showTagSelector) && tagLoading == old(tagLoading)
    {
      if reply.Some? {
        allTags := reply.value;
      }
    }

    /** The load of the current picture's tags; a failed load empties them. */
    method LoadPictureTags(reply: Option<seq<Tag>>) returns (effects: seq<Effect>)
      modifies this
      ensures old(CurrentPicture()).None? ==> effects == [] && pictureTags == old(pictureTags)
      ensures old(CurrentPicture()).Some? ==>
        && effects == [GetTagsForPicture(old(CurrentPicture()).value.path)]
        && pictureTags == (if reply.Some? then reply.value else [])
      ensures currentIndex == old(currentIndex) && showInfo == old(showInfo)
      ensures showDeleteDialog == old(showDeleteDialog) && isDeleting == old(isDeleting)
      ensures allTags == old(allTags) && showTagSelector == old(showTagSelector) && tagLoading == old(tagLoading)
    {
      var current := CurrentPicture();
      if current.None? {
        return [];
      }
      effects := [GetTagsForPicture(current.value.path)];
      pictureTags := if reply.Some? then reply.value else [];
    }

    method GoToNext()
      modifies this
      ensures currentIndex == NextIndex(old(currentIndex), |pictures|)
      ensures 0 <= old(currentIndex) < |pictures| ==> 0 <= currentIndex < |pictures|
      ensures showInfo == old(showInfo) && showDeleteDialog == old(showDeleteDialog) && isDeleting == old(isDeleting)
      ensures allTags == old(allTags) && pictureTags == old(pictureTags)
      ensures showTagSelector == old(showTagSelector) && tagLoading == old(tagLoading)
    {
      currentIndex := NextIndex(currentIndex, |pictures|);
    }

    method GoToPrevious()
      modifies this
      ensures currentIndex == PreviousIndex(old(currentIndex), |pictures|)
      ensures 0 <= old(currentIndex) < |pictures| ==> 0 <= currentIndex < |pictures|
      ensures showInfo == old(showInfo) && showDeleteDialog == old(showDeleteDialog) && isDeleting == old(isDeleting)
      ensures allTags == old(allTags) && pictureTags == old(pictureTags)
      ensures showTagSelector == old(showTagSelector) && tagLoading == old(tagLoading)
    {
      currentIndex := PreviousIndex(currentIndex, |pictures|);
    }

    /** The keydown listener. */
    method HandleKey(key: string) returns (effects: seq<Effect>)
      modifies this
      ensures var a := KeyActionFor(old(showDeleteDialog), key);
        && currentIndex == (if a == Previous then PreviousIndex(old(currentIndex), |pictures|)
                            else if a == Next then NextIndex(old(currentIndex), |pictures|)
                            else old(currentIndex))
        && showInfo == (if a == ToggleInfo then !old(showInfo) else old(showInfo))
        && showDeleteDialog == (if a == OpenDialog then true else if a == CloseDialog then false else old(showDeleteDialog))
        && effects == (if a == CloseViewer then [Close] else [])
      ensures 0 <= old(currentIndex) < |pictures| ==> 0 <= currentIndex < |pictures|
      ensures isDeleting == old(isDeleting) && allTags == old(allTags) && pictureTags == old(pictureTags)
      ensures showTagSelector == old(showTagSelector) && tagLoading == old(tagLoading)
    {
      effects := [];
      if showDeleteDialog {
        if key == "Escape" {
          showDeleteDialog := false;
        }
        return;
      }
      if key == "Escape" {
        effects := [Close];
      } else if key == "ArrowLeft" {
        GoToPrevious();
      } else if key == "ArrowRight" {
        GoToNext();
      } else if key == "i" {
        showInfo := !showInfo;
      } else if key == "Delete" {
        showDeleteDialog := true;
      }
    }

    /** The toolbar's info button. */
    method ToggleInfoPanel()
      modifies this
      ensures showInfo == !old(showInfo)
      ensures currentIndex == old(currentIndex) && showDeleteDialog == old(showDeleteDialog) && isDeleting == old(isDeleting)
      ensures allTags == old(allTags) && pictureTags == old(pictureTags)
      ensures showTagSelector == old(showTagSelector) && tagLoading == old(tagLoading)
    {
      showInfo := !showInfo;
    }

    /** The toolbar's delete button. */
    method OpenDeleteDialog()
      modifies this
      ensures showDeleteDialog
      ensures currentIndex == old(currentIndex) && showInfo == old(showInfo) && isDeleting == old(isDeleting)
      ensures allTags == old(allTags) && pictureTags == old(pictureTags)
      ensures showTagSelector == old(showTagSelector) && tagLoading == old(tagLoading)
    {
      showDeleteDialog := true;
    }

    /** The dialog's cancel button, disabled while a delete is in flight. */
    method CancelDelete()
      modifies this
      ensures showDeleteDialog == (old(showDeleteDialog) && old(isDeleting))
      ensures currentIndex == old(currentIndex) && showInfo == old(showInfo) && isDeleting == old(isDeleting)
      ensures allTags == old(allTags) && pictureTags == old(pictureTags)
      ensures showTagSelector == old(showTagSelector) && tagLoading == old(tagLoading)
    {
      if !isDeleting {
        showDeleteDialog := false;
      }
    }

    /** A click on the dialog's backdrop: it closes the dialog even while a delete is in flight. */
    method CloseDialogFromBackdrop()
      modifies this
      ensures !showDeleteDialog
      ensures currentIndex == old(currentIndex) && showInfo == old(showInfo) && isDeleting == old(isDeleting)
      ensures allTags == old(allTags) && pictureTags == old(pictureTags)
      ensures showTagSelector == old(showTagSelector) && tagLoading == old(tagLoading)
    {
      showDeleteDialog := false;
    }

    /**
     * handleDelete, with the backend's answer as `succeeded`. A no-op while a
     * delete is in flight or when no picture is shown; `isDeleting` is false
     * afterwards otherwise.
     */
    method HandleDelete(deleteFromDisk: bool, succeeded: bool) returns (effects: seq<Effect>)
      modifies this
      ensures old(isDeleting) || old(CurrentPicture()).None? ==>
        && effects == []
        && currentIndex == old(currentIndex) && showDeleteDialog == old(showDeleteDialog)
        && isDeleting == old(isDeleting)
      ensures !old(isDeleting) && old(CurrentPicture()).Some? ==>
        var path := old(CurrentPicture()).value.path;
        var notify := if hasOnDelete then [NotifyDeleted(path)] else [];
        && !isDeleting
        && (!succeeded ==>
              effects == [DeletePicture(path, deleteFromDisk), Alert]
              && currentIndex == old(currentIndex) && showDeleteDialog == old(showDeleteDialog))
        && (succeeded && |pictures| <= 1 ==>
              effects == [DeletePicture(path, deleteFromDisk)] + notify + [Close]
              && currentIndex == old(currentIndex) && showDeleteDialog == old(showDeleteDialog))
        && (succeeded && |pictures| > 1 ==>
              effects == [DeletePicture(path, deleteFromDisk)] + notify
              && currentIndex == IndexAfterDelete(old(currentIndex), |pictures|)
              && 0 <= currentIndex <= |pictures| - 2
              && !showDeleteDialog)
      ensures showInfo == old(showInfo) && allTags == old(allTags) && pictureTags == old(pictureTags)
      ensures showTagSelector == old(showTagSelector) && tagLoading == old(tagLoading)
    {
      var current := CurrentPicture();
      if current.None? || isDeleting {
        return [];
      }
      var path := current.value.path;
      isDeleting := true;
      effects := [DeletePicture(path, deleteFromDisk)];
      if succeeded {
        if hasOnDelete {
          effects := effects + [NotifyDeleted(path)];
        }
        if |pictures| <= 1 {
          effects := effects + [Close];
        } else {
          if currentIndex >= |pictures| - 1 {
            currentIndex := currentIndex - 1;
          }
          showDeleteDialog := false;
        }
      } else {
        effects := effects + [Alert];
      }
      isDeleting := false;
    }

    /** The "+" button of the tag panel, disabled while busy or with nothing to add. */
    method ToggleTagSelector()
      modifies this
      ensures showTagSelector == (if old(tagLoading) || |old(Available())| == 0 then old(showTagSelector) else !old(showTagSelector))
      ensures currentIndex == old(currentIndex) && showInfo == old(showInfo)
      ensures showDeleteDialog == old(showDeleteDialog) && isDeleting == old(isDeleting)
      ensures allTags == old(allTags) && pictureTags == old(pictureTags) && tagLoading == old(tagLoading)
    {
      if !(tagLoading || |Available()| == 0) {
        showTagSelector := !showTagSelector;
      }
    }

    /**
     * handleAddTag, with the backend's answers: whether the add succeeded and
     * what the reload of the picture's tags returned. A no-op while busy or
     * with no picture shown; otherwise the selector always closes.
     */
    method HandleAddTag(tagName: string, added: bool, reply: Option<seq<Tag>>) returns (effects: seq<Effect>)
      modifies this
      ensures old(tagLoading) || old(CurrentPicture()).None? ==>
        effects == [] && pictureTags == old(pictureTags) && showTagSelector == old(showTagSelector) && tagLoading == old(tagLoading)
      ensures !old(tagLoading) && old(CurrentPicture()).Some? ==>
        var path := old(CurrentPicture()).value.path;
        && !tagLoading && !showTagSelector
        && effects == [AddTagToPicture(path, tagName)] + (if added then [GetTagsForPicture(path)] else [])
        && pictureTags == (if added && reply.Some? then reply.value else old(pictureTags))
      ensures currentIndex == old(currentIndex) && showInfo == old(showInfo)
      ensures showDeleteDialog == old(showDeleteDialog) && isDeleting == old(isDeleting) && allTags == old(allTags)
    {
      var current := CurrentPicture();
      if current.None? || tagLoading {
        return [];
      }
      var path := current.value.path;
      tagLoading := true;
      effects := [AddTagToPicture(path, tagName)];
      if added {
        effects := effects + [GetTagsForPicture(path)];
        if reply.Some? {
          pictureTags := reply.value;
        }
      }
      tagLoading := false;
      showTagSelector := false;
    }

    /** handleRemoveTag: as handleAddTag, but the selector is left as it was. */
    method HandleRemoveTag(tagName: string, removed: bool, reply: Option<seq<Tag>>) returns (effects: seq<Effect>)
      modifies this
      ensures old(tagLoading) || old(CurrentPicture()).None? ==>
        effects == [] && pictureTags == old(pictureTags) && tagLoading == old(tagLoading)
      ensures !old(tagLoading) && old(CurrentPicture()).Some? ==>
        var path := old(CurrentPicture()).value.path;
        && !tagLoading
        && effects == [RemoveTagFromPicture(path, tagName)] + (if removed then [GetTagsForPicture(path)] else [])
        && pictureTags == (if removed && reply.Some? then reply.value else old(pictureTags))
      ensures currentIndex == old(currentIndex) && showInfo == old(showInfo) && showTagSelector == old(showTagSelector)
      ensures showDeleteDialog == old(showDeleteDialog) && isDeleting == old(isDeleting) && allTags == old(allTags)
    {
      var current := CurrentPicture();
      if current.None? || tagLoading {
        return [];
      }
      var path := current.value.path;
      tagLoading := true;
      effects := [RemoveTagFromPicture(path, tagName)];
      if removed {
        effects := effects + [GetTagsForPicture(path)];
        if reply.Some? {
          pictureTags := reply.value;
        }
      }
      tagLoading := false;
    }
  }
}
