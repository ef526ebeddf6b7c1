/**
 * The session state of AppBlockerService as a value, and each of the
 * service's transitions as a function of the old state and the inputs the
 * platform supplies (the accessibility event, the outcome of the Firestore
 * query, whether WindowManager.addView succeeded). The class in
 * app_blocker_service.dfy is proved to follow these functions; the lemmas
 * here are about runs of several transitions.
 */
module BlockerState {
  import opened Wrappers
  import opened BlockList

  /** The service's own package, which it never blocks. */
  const OWN_PACKAGE: string := "com.example.child_moni"

  /** Android's AccessibilityEvent.TYPE_WINDOW_STATE_CHANGED. */
  const TYPE_WINDOW_STATE_CHANGED: int := 32

  datatype AccessibilityEvent = AccessibilityEvent(eventType: int, packageName: Option<string>)

  /** What the Firestore query reports: the `packageName` field of each document, or a failure. */
  datatype FetchResponse = Documents(packageNames: seq<Option<string>>) | Failed

  /**
   * The fields of the service. `hasContainer` is `overlayContainer != null`;
   * `pending` is the callback posted on the main-looper handler, carrying the
   * package it will block (the handler holds at most one, because every post
   * of a block callback is preceded by removeCallbacksAndMessages(null)).
   */
  datatype Session = Session(
    childId: Option<string>,
    userId: Option<string>,
    blocked: seq<string>,
    overlayVisible: bool,
    hasContainer: bool,
    current: Option<string>,
    pending: Option<string>)

  /** A visible overlay is attached and records the app it blocks. */
  predicate Inv(s: Session) {
    s.overlayVisible ==> s.current.Some? && s.hasContainer
  }

  /** The state right after onServiceConnected has read the two identifiers. */
  function Initial(childId: Option<string>, userId: Option<string>): (s: Session)
    ensures Inv(s) && !s.overlayVisible && s.current.None? && s.pending.None? && s.blocked == []
  {
    Session(childId, userId, [], false, false, None, None)
  }

  predicate IsNullOrEmpty(id: Option<string>) {
    id.None? || id.value == ""
  }

  /**
   * fetchBlockedApps with its success and failure listeners: nothing happens
   * without both identifiers; a success replaces the list by the kept names;
   * a failure only logs.
   */
  function FetchBlockedApps(s: Session, response: FetchResponse): (t: Session)
    ensures IsNullOrEmpty(s.childId) || IsNullOrEmpty(s.userId) || response.Failed? ==> t == s
    ensures !IsNullOrEmpty(s.childId) && !IsNullOrEmpty(s.userId) && response.Documents? ==>
              t.blocked == PackageNames(response.packageNames)
    ensures t.(blocked := s.blocked) == s
    ensures Inv(s) ==> Inv(t)
  {
    if IsNullOrEmpty(s.childId) || IsNullOrEmpty(s.userId) then s
    else match response
      case Failed => s
      case Documents(docs) => s.(blocked := PackageNames(docs))
  }

  /** showBlockScreen, with the result of WindowManager.addView as an input. */
  function ShowBlockScreen(s: Session, addViewSucceeds: bool): (t: Session)
    ensures s.overlayVisible ==> t == s
    ensures !s.overlayVisible ==> t.hasContainer && (t.overlayVisible <==> addViewSucceeds)
    ensures t.(overlayVisible := s.overlayVisible, hasContainer := s.hasContainer) == s
    ensures Inv(s) && s.current.Some? ==> Inv(t)
  {
    if s.overlayVisible then s
    else s.(hasContainer := true, overlayVisible := addViewSucceeds)
  }

  /** removeOverlay. */
  function RemoveOverlay(s: Session): (t: Session)
    ensures !t.overlayVisible
    ensures !s.overlayVisible ==> t == s
    ensures s.overlayVisible ==> !t.hasContainer
    ensures t.(overlayVisible := s.overlayVisible, hasContainer := s.hasContainer) == s
    ensures Inv(t)
  {
    if !s.overlayVisible then s
    else s.(hasContainer := false, overlayVisible := false)
  }

  /** An event that onAccessibilityEvent returns from without doing anything. */
  predicate IsIgnored(event: Option<AccessibilityEvent>) {
    event.None?
    || event.value.eventType != TYPE_WINDOW_STATE_CHANGED
    || event.value.packageName == Some(OWN_PACKAGE)
  }

  /**
   * onAccessibilityEvent: a window change to a blocked package replaces the
   * pending callback by one for that package; a change to any other package
   * than the recorded blocked app removes the overlay and forgets that app.
   */
  function OnAccessibilityEvent(s: Session, event: Option<AccessibilityEvent>): (t: Session)
    ensures IsIgnored(event) ==> t == s
    ensures !IsIgnored(event) && IsAppBlocked(s.blocked, event.value.packageName) ==>
              t == s.(pending := event.value.packageName) && t.pending.Some?
    ensures !IsIgnored(event) && !IsAppBlocked(s.blocked, event.value.packageName) ==>
              t.pending == s.pending && t.blocked == s.blocked
              && (if s.current.Some? && event.value.packageName != s.current
                  then t.current.None? && !t.overlayVisible
                       && t.hasContainer == (s.hasContainer && !s.overlayVisible)
                       && t.(current := s.current, overlayVisible := s.overlayVisible,
                             hasContainer := s.hasContainer) == s
                  else t == s)
    ensures Inv(s) ==> Inv(t)
  {
    if IsIgnored(event) then s
    else
      var name := event.value.packageName;
      if IsAppBlocked(s.blocked, name) then s.(pending := name)
      else if s.current.Some? && name != s.current then RemoveOverlay(s).(current := None)
      else s
  }

  /**
   * The posted callback running 300 ms later: it records its package and
   * shows the block screen unless the overlay already shows for that package.
   */
  function OnBlockDelayElapsed(s: Session, addViewSucceeds: bool): (t: Session)
    ensures t.pending.None? && t.blocked == s.blocked
    ensures s.pending.None? ==> t == s
    ensures s.pending.Some? && s.overlayVisible && s.current == s.pending ==> t == s.(pending := None)
    ensures s.pending.Some? && !(s.overlayVisible && s.current == s.pending) ==>
              t.current == s.pending
              && t.overlayVisible == (s.overlayVisible || addViewSucceeds)
              && t.hasContainer == (s.hasContainer || !s.overlayVisible)
              && t.(current := s.current, overlayVisible := s.overlayVisible,
                    hasContainer := s.hasContainer, pending := s.pending) == s
    ensures Inv(s) ==> Inv(t)
  {
    match s.pending
    case None => s
    case Some(name) =>
      var s' := s.(pending := None);
      if !s.overlayVisible || s.current != Some(name) then ShowBlockScreen(s'.(current := Some(name)), addViewSucceeds)
      else s'
  }

  /** The OK button of the overlay: remove the overlay (then navigate home). */
  function OnOkClicked(s: Session): (t: Session)
    ensures !t.overlayVisible && t.current == s.current && t.pending == s.pending && t.blocked == s.blocked
    ensures t.(overlayVisible := s.overlayVisible, hasContainer := s.hasContainer) == s
    ensures Inv(t)
  {
    RemoveOverlay(s)
  }

  /** Everything that can reach the service, serialised on the main looper. */
  datatype Input =
    | Event(event: Option<AccessibilityEvent>)
    | BlockDelayElapsed(addViewSucceeds: bool)
    | FetchCompleted(response: FetchResponse)
    | OkClicked

  /** One input handled to completion; every transition keeps the invariant. */
  function Step(s: Session, input: Input): (t: Session)
    ensures Inv(s) ==> Inv(t)
    ensures !input.FetchCompleted? ==> t.blocked == s.blocked
    ensures t.childId == s.childId && t.userId == s.userId
  {
    match input
    case Event(e) => OnAccessibilityEvent(s, e)
    case BlockDelayElapsed(ok) => OnBlockDelayElapsed(s, ok)
    case FetchCompleted(r) => FetchBlockedApps(s, r)
    case OkClicked => OnOkClicked(s)
  }

  /**
   * The inputs handled one after another, as the main looper runs them. The
   * identifiers never change, and only a fetch changes the table.
   */
  function Run(s: Session, inputs: seq<Input>): (t: Session)
    ensures t.childId == s.childId && t.userId == s.userId
    ensures (forall k :: 0 <= k < |inputs| ==> !inputs[k].FetchCompleted?) ==> t.blocked == s.blocked
    decreases |inputs|
  {
    if inputs == [] then s else Run(Step(s, inputs[0]), inputs[1..])
  }

  /** Handling a + b is handling a, then b from where a left off. */
  lemma {:induction false} RunAppend(s: Session, a: seq<Input>, b: seq<Input>)
    ensures Run(s, a + b) == Run(Run(s, a), b)
    decreases |a|
  {
    if a == [] {
      assert a + b == b;
    } else {
      assert (a + b)[0] == a[0] && (a + b)[1..] == a[1..] + b;
      RunAppend(Step(s, a[0]), a[1..], b);
    }
  }

  /** Every transition keeps the invariant, so every reachable state has it. */
  lemma {:induction false} RunPreservesInv(s: Session, inputs: seq<Input>)
    requires Inv(s)
    ensures Inv(Run(s, inputs))
    decreases |inputs|
  {
    if inputs != [] {
      RunPreservesInv(Step(s, inputs[0]), inputs[1..]);
    }
  }

  lemma ReachableSatisfiesInv(childId: Option<string>, userId: Option<string>, inputs: seq<Input>)
    ensures Inv(Run(Initial(childId, userId), inputs))
  {
    RunPreservesInv(Initial(childId, userId), inputs);
  }

  /** Events that are ignored (null, not a window change, or the own package). */
  lemma {:induction false} IgnoredEventsChangeNothing(s: Session, inputs: seq<Input>)
    requires forall k :: 0 <= k < |inputs| ==> inputs[k].Event? && IsIgnored(inputs[k].event)
    ensures Run(s, inputs) == s
    decreases |inputs|
  {
    if inputs != [] {
      IgnoredEventsChangeNothing(Step(s, inputs[0]), inputs[1..]);
    }
  }

  /**
   * Starting with no overlay and nothing pending, inputs whose events are all
   * ignored (interleaved freely with elapsed delays, fetches and OK clicks)
   * never bring the overlay up.
   */
  lemma {:induction false} OwnPackageNeverShowsOverlay(s: Session, inputs: seq<Input>)
    requires !s.overlayVisible && s.pending.None?
    requires forall k :: 0 <= k < |inputs| ==> inputs[k].Event? ==> IsIgnored(inputs[k].event)
    ensures !Run(s, inputs).overlayVisible && Run(s, inputs).pending.None?
    decreases |inputs|
  {
    if inputs != [] {
      OwnPackageNeverShowsOverlay(Step(s, inputs[0]), inputs[1..]);
    }
  }

  /** Showing again with the overlay up changes nothing. */
  lemma ShowBlockScreenIdempotent(s: Session, first: bool, second: bool)
    ensures ShowBlockScreen(ShowBlockScreen(s, true), second) == ShowBlockScreen(s, true)
    ensures ShowBlockScreen(s, first).overlayVisible ==>
              ShowBlockScreen(ShowBlockScreen(s, first), second) == ShowBlockScreen(s, first)
  {
  }

  lemma RemoveOverlayIdempotent(s: Session)
    ensures RemoveOverlay(RemoveOverlay(s)) == RemoveOverlay(s)
  {
  }

  /**
   * Once the overlay shows for a blocked package, a repeated window change to
   * that package and its elapsed delay leave the state as it was: no second
   * overlay is created.
   */
  lemma RepeatedBlockedEventShowsOnce(s: Session, name: string, first: bool, second: bool)
    requires name != OWN_PACKAGE && IsAppBlocked(s.blocked, Some(name))
    ensures var e := Some(AccessibilityEvent(TYPE_WINDOW_STATE_CHANGED, Some(name)));
            var t := OnBlockDelayElapsed(OnAccessibilityEvent(s, e), first);
            t.overlayVisible ==> OnBlockDelayElapsed(OnAccessibilityEvent(t, e), second) == t
  {
  }

  /** A successful fetch keeps nothing of the previous list. */
  lemma FetchReplacesWholesale(s1: Session, s2: Session, docs: seq<Option<string>>)
    requires !IsNullOrEmpty(s1.childId) && !IsNullOrEmpty(s1.userId)
    requires s2.childId == s1.childId && s2.userId == s1.userId
    ensures FetchBlockedApps(s1, Documents(docs)).blocked == FetchBlockedApps(s2, Documents(docs)).blocked
    ensures forall name :: name in FetchBlockedApps(s1, Documents(docs)).blocked <==> name != "" && Some(name) in docs
  {
    forall name ensures name in PackageNames(docs) <==> name != "" && Some(name) in docs {
      PackageNamesMembers(docs, name);
    }
  }
}
