/**
 * AppBlockerService as an object whose fields its callbacks update in
 * place. Each method is proved to move the fields exactly as the matching
 * transition of BlockerState prescribes, and to keep the object invariant.
 */
module Blocker {
  import opened Wrappers
  import opened BlockList
  import opened BlockerState

  class AppBlockerService {
    /** `overlayContainer != null` */
    var hasContainer: bool
    var blockedApps: seq<string>
    var isOverlayVisible: bool
    var currentBlockedApp: Option<string>
    /** The callback posted on the main-looper handler, if any, and the package it blocks. */
    var pendingBlock: Option<string>
    var currentUserId: Option<string>
    var currentChildId: Option<string>

    function State(): Session
      reads this
    {
      Session(currentChildId, currentUserId, blockedApps, isOverlayVisible, hasContainer,
              currentBlockedApp, pendingBlock)
    }

    ghost predicate Valid()
      reads this
    {
      Inv(State())
    }

    /**
     * The service after onServiceConnected has read the child document id
     * (from SharedPreferences) and the signed-in user id (from FirebaseAuth).
     */
    constructor (childId: Option<string>, userId: Option<string>)
      ensures Valid()
      ensures State() == Initial(childId, userId)
    {
      hasContainer := false;
      blockedApps := [];
      isOverlayVisible := false;
      currentBlockedApp := None;
      pendingBlock := None;
      currentUserId := userId;
      currentChildId := childId;
    }

    /** fetchBlockedApps, run to the completion of its query with the given response. */
    method FetchBlockedApps(response: FetchResponse)
      requires Valid()
      modifies this
      ensures Valid()
      ensures State() == BlockerState.FetchBlockedApps(old(State()), response)
    {
      if IsNullOrEmpty(currentChildId) || IsNullOrEmpty(currentUserId) {
        return;
      }
      match response {
        case Failed =>
        case Documents(docs) =>
          blockedApps := [];
          var i := 0;
          while i < |docs|
            invariant 0 <= i <= |docs|
            invariant blockedApps == PackageNames(docs[..i])
            invariant State() == old(State()).(blocked := blockedApps)
          {
            assert docs[..i + 1][..i] == docs[..i];
            var packageName := docs[i];
            if packageName.Some? && packageName.value != "" {
              blockedApps := blockedApps + [packageName.value];
            }
            i := i + 1;
          }
          assert docs[..i] == docs;
      }
    }

    method OnAccessibilityEvent(event: Option<AccessibilityEvent>)
      requires Valid()
      modifies this
      ensures Valid()
      ensures State() == BlockerState.OnAccessibilityEvent(old(State()), event)
    {
      if event.None? {
        return;
      }
      if event.value.eventType == TYPE_WINDOW_STATE_CHANGED {
        var packageName := event.value.packageName;
        if packageName == Some(OWN_PACKAGE) {
          return;
        }
        if IsAppBlocked(blockedApps, packageName) {
          pendingBlock := packageName;
        } else if currentBlockedApp.Some? && packageName != currentBlockedApp {
          RemoveOverlay();
          currentBlockedApp := None;
        }
      }
    }

    /** The callback posted by OnAccessibilityEvent, run when its delay has elapsed. */
    method OnBlockDelayElapsed(addViewSucceeds: bool)
      requires Valid()
      modifies this
      ensures Valid()
      ensures State() == BlockerState.OnBlockDelayElapsed(old(State()), addViewSucceeds)
    {
      if pendingBlock.None? {
        return;
      }
      var packageName := pendingBlock.value;
      pendingBlock := None;
      if !isOverlayVisible || currentBlockedApp != Some(packageName) {
        currentBlockedApp := Some(packageName);
        ShowBlockScreen(addViewSucceeds);
      }
    }

    method ShowBlockScreen(addViewSucceeds: bool)
      modifies this
      ensures State() == BlockerState.ShowBlockScreen(old(State()), addViewSucceeds)
    {
      if isOverlayVisible {
        return;
      }
      hasContainer := true;
      if addViewSucceeds {
        isOverlayVisible := true;
      }
    }

    method RemoveOverlay()
      modifies this
      ensures State() == BlockerState.RemoveOverlay(old(State()))
      ensures !isOverlayVisible
    {
      if !isOverlayVisible {
        return;
      }
      if hasContainer {
        hasContainer := false;
      }
      isOverlayVisible := false;
    }

    /** The OK button's click listener. */
    method OnOkClicked()
      requires Valid()
      modifies this
      ensures Valid()
      ensures State() == BlockerState.OnOkClicked(old(State()))
    {
      RemoveOverlay();
    }
  }

  /**
   * A caller's view: a fetch that yields the package puts it in the table,
   * so that the package is blocked.
   */
  method FetchThenLookUp(app: string)
    requires app != ""
  {
    var service := new AppBlockerService(Some("child"), Some("parent"));
    var named := [Some(app)];
    assert PackageNames(named) == [app];
    service.FetchBlockedApps(Documents(named + [None]));
    assert service.blockedApps == [app];
    EntryIsBlocked(service.blockedApps, 0);
    assert IsAppBlocked(service.blockedApps, Some(app));
  }

  /**
   * A caller's view: a window change to a blocked package followed by its
   * delay brings the overlay up; a window change whose package is null
   * takes it down.
   */
  method BlockThenLeave(service: AppBlockerService, app: string)
    requires service.Valid() && !service.isOverlayVisible
    requires app != OWN_PACKAGE && IsAppBlocked(service.blockedApps, Some(app))
    modifies service
  {
    service.OnAccessibilityEvent(Some(AccessibilityEvent(TYPE_WINDOW_STATE_CHANGED, Some(app))));
    service.OnBlockDelayElapsed(true);
    assert service.isOverlayVisible && service.currentBlockedApp == Some(app);
    service.OnAccessibilityEvent(Some(AccessibilityEvent(TYPE_WINDOW_STATE_CHANGED, None)));
    assert !service.isOverlayVisible && service.currentBlockedApp.None?;
  }
}
