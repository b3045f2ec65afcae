/**
 * The rendering manager: the scheduler that coalesces redraw requests for a
 * set of render windows, renders them when its timer fires or on demand,
 * tracks which windows are rendering so that their renders can be aborted,
 * and raises the level of detail after every finished render.
 *
 * The environment is reduced to what steers the control flow:
 * - the mapper ID each window's renderer reports, and whether that renderer
 *   owns a vtkRenderer (a camera), are fixed functions given at construction;
 * - the calls into the backend (Render, SetAbortRender, the timer, the
 *   monitoring and abort-finishing hooks, the slice navigation controllers)
 *   are recorded in ghost fields; Render does not call back into the manager.
 */
module RenderingManagement {
  import opened Wrappers
  import opened RenderWindows
  import opened LevelOfDetail
  import opened ViewInitialization

  class RenderingManager {
    /** Mapper ID of the renderer that draws each window (1 = 2D, 2 = 3D). */
    const MapperId: Window -> int
    /** Does the renderer of a window own a vtkRenderer whose camera can be reset? */
    const HasVtkRenderer: Window -> bool

    /** State of each window, and the order the map's iterators visit them in. */
    var renderWindowList: map<Window, RenderingState>
    var order: seq<Window>
    /** The windows in registration order. */
    var allRenderWindows: seq<Window>
    var updatePending: bool
    /** Whether the coalescing timer is armed. */
    var timerRunning: bool
    var currentLOD: int
    var maxLOD: int
    /** Number of 3D windows, as last counted by CheckUpdatePending. */
    var numberOf3DRW: nat
    var lodIncreaseBlocked: bool
    var lastUpdatedRW: Option<Window>
    /** Whether a global time navigation controller is set. */
    var timeNavigationControllerSet: bool
    const shadingEnabled: array<bool>
    const shadingValues: array<real>

    /** Windows passed to Render, in call order. */
    ghost var rendered: seq<Window>
    /** Windows whose abort flag has been raised. */
    ghost var abortFlagged: set<Window>
    ghost var timerRestarts: nat
    ghost var monitorCalls: nat
    ghost var finishAbortCalls: nat
    /** Calls made on the windows' view machinery and on the time controller. */
    ghost var viewLog: seq<ViewAction>

    ghost predicate Valid()
      reads this
    {
      && KeyOrderOf(order, renderWindowList)
      && shadingEnabled.Length == ShadingSlots
      && shadingValues.Length == ShadingValueSlots
    }

    /** Every requested window will be serviced: a request marks the manager
        pending, and a pending manager has its timer armed. */
    ghost predicate Coalescing()
      reads this
    {
      && (AnyInState(renderWindowList, Requested) ==> updatePending)
      && (updatePending ==> timerRunning)
    }

    constructor (mapperId: Window -> int, hasVtkRenderer: Window -> bool)
      ensures Valid() && Coalescing()
      ensures MapperId == mapperId && HasVtkRenderer == hasVtkRenderer
      ensures renderWindowList == map[] && order == [] && allRenderWindows == []
      ensures !updatePending && !timerRunning
      ensures currentLOD == 0 && maxLOD == DefaultMaxLOD && numberOf3DRW == 0 && !lodIncreaseBlocked
      ensures lastUpdatedRW == None && !timeNavigationControllerSet
      ensures fresh(shadingEnabled) && fresh(shadingValues)
      ensures shadingEnabled[..] == [false, false, false]
      ensures shadingValues[..] == [0.0, 0.0, 0.0, 0.0]
      ensures rendered == [] && abortFlagged == {} && timerRestarts == 0 && viewLog == []
    {
      MapperId := mapperId;
      HasVtkRenderer := hasVtkRenderer;
      renderWindowList := map[];
      order := [];
      allRenderWindows := [];
      updatePending := false;
      timerRunning := false;
      currentLOD := 0;
      maxLOD := DefaultMaxLOD;
      numberOf3DRW := 0;
      lodIncreaseBlocked := false;
      lastUpdatedRW := None;
      timeNavigationControllerSet := false;
      shadingEnabled := new bool[3](_ => false);
      shadingValues := new real[4](_ => 0.0);
      rendered := [];
      abortFlagged := {};
      timerRestarts := 0;
      monitorCalls := 0;
      finishAbortCalls := 0;
      viewLog := [];
      new;
      assert shadingEnabled[..] == [false, false, false];
      assert shadingValues[..] == [0.0, 0.0, 0.0, 0.0];
    }

    // ------------------------------------------------------------------
    // The window map's subscript operator and the backend calls.

    /** Subscript as an lvalue: an unknown window is inserted, then `st` is stored. */
    method Store(w: Window, st: RenderingState)
      requires Valid()
      modifies this`renderWindowList, this`order
      ensures Valid()
      ensures renderWindowList == old(renderWindowList)[w := st]
      ensures order == InsertKey(old(order), w)
      ensures w in old(renderWindowList) ==> order == old(order)
      ensures st != Requested && AnyInState(renderWindowList, Requested) ==> AnyInState(old(renderWindowList), Requested)
    {
      InsertKeyOrder(order, renderWindowList, w, st);
      if st != Requested {
        AnyInStateAfterStore(renderWindowList, w, st, Requested);
      }
      renderWindowList := renderWindowList[w := st];
      order := InsertKey(order, w);
    }

    /** Subscript as an rvalue: an unknown window is inserted as Inactive. */
    method Lookup(w: Window) returns (st: RenderingState)
      requires Valid()
      modifies this`renderWindowList, this`order
      ensures Valid()
      ensures st == (if w in old(renderWindowList) then old(renderWindowList)[w] else Inactive)
      ensures renderWindowList == old(renderWindowList)[w := st]
      ensures order == InsertKey(old(order), w)
      ensures w in old(renderWindowList) ==> order == old(order)
      ensures AnyInState(renderWindowList, Requested) ==> AnyInState(old(renderWindowList), Requested)
    {
      InsertKeyOrder(order, renderWindowList, w, Inactive);
      if w !in renderWindowList {
        Store(w, Inactive);
      }
      st := renderWindowList[w];
    }

    method Render(w: Window)
      modifies this`rendered
      ensures rendered == old(rendered) + [w]
    {
      rendered := rendered + [w];
    }

    method SetAbortRender(w: Window)
      modifies this`abortFlagged
      ensures abortFlagged == old(abortFlagged) + {w}
    {
      abortFlagged := abortFlagged + {w};
    }

    method RestartTimer()
      modifies this`timerRunning, this`timerRestarts
      ensures timerRunning && timerRestarts == old(timerRestarts) + 1
    {
      timerRunning := true;
      timerRestarts := timerRestarts + 1;
    }

    method StopTimer()
      modifies this`timerRunning
      ensures !timerRunning
    {
      timerRunning := false;
    }

    // ------------------------------------------------------------------
    // Registration.

    method AddRenderWindow(w: Window)
      requires Valid()
      modifies this`renderWindowList, this`order, this`allRenderWindows
      ensures Valid()
      ensures renderWindowList == old(renderWindowList)[w := Inactive]
      ensures order == InsertKey(old(order), w)
      ensures allRenderWindows == old(allRenderWindows) + [w]
      ensures old(Coalescing()) ==> Coalescing()
    {
      Store(w, Inactive);
      allRenderWindows := allRenderWindows + [w];
    }

    method RemoveRenderWindow(w: Window)
      requires Valid()
      modifies this`renderWindowList, this`order, this`allRenderWindows
      ensures Valid()
      ensures renderWindowList == old(renderWindowList) - {w}
      ensures order == EraseKey(old(order), w)
      ensures allRenderWindows == RemoveFirst(old(allRenderWindows), w)
      ensures old(Coalescing()) ==> Coalescing()
    {
      EraseKeyOrder(order, renderWindowList, w);
      AnyInStateAfterErase(renderWindowList, w, Requested);
      renderWindowList := renderWindowList - {w};
      order := EraseKey(order, w);
      allRenderWindows := RemoveFirst(allRenderWindows, w);
    }

    // ------------------------------------------------------------------
    // Requests and forced updates.

    method RequestUpdate(w: Window)
      requires Valid()
      modifies this`renderWindowList, this`order, this`updatePending, this`timerRunning, this`timerRestarts, this`abortFlagged
      ensures Valid()
      ensures renderWindowList == old(renderWindowList)[w := Requested]
      ensures order == InsertKey(old(order), w)
      ensures w in old(renderWindowList) ==> order == old(order)
      ensures updatePending
      ensures timerRunning == (old(timerRunning) || !old(updatePending))
      ensures timerRestarts == old(timerRestarts) + (if old(updatePending) then 0 else 1)
      ensures abortFlagged ==
        if w in old(renderWindowList) && old(renderWindowList)[w] == InProgress then old(abortFlagged) + {w} else old(abortFlagged)
      ensures old(Coalescing()) ==> Coalescing()
    {
      var st := Lookup(w);
      if st == InProgress {
        AbortRendering(w);
      }
      StoreOverwrites(old(renderWindowList), w, st, Requested);
      Store(w, Requested);
      if !updatePending {
        updatePending := true;
        RestartTimer();
      }
    }

    /** Recomputes the pending flag and the 3D-window count from the map. */
    method CheckUpdatePending()
      requires Valid()
      modifies this`updatePending, this`numberOf3DRW
      ensures updatePending == AnyInState(renderWindowList, Requested)
      ensures numberOf3DRW == CountWithMapper(order, MapperId, Mapper3D)
    {
      KeysInMap(order, renderWindowList);
      updatePending, numberOf3DRW := ScanWindows(order, renderWindowList, MapperId);
      AnyInStateByFilter(order, renderWindowList, Requested);
    }

    method ForceImmediateUpdate(w: Window)
      requires Valid()
      modifies this`renderWindowList, this`order, this`updatePending, this`numberOf3DRW, this`timerRunning,
               this`lastUpdatedRW, this`rendered
      ensures Valid()
      ensures renderWindowList == old(renderWindowList)[w := Inactive]
      ensures order == InsertKey(old(order), w)
      ensures w in old(renderWindowList) ==> order == old(order)
      ensures updatePending == AnyInState(renderWindowList, Requested)
      ensures numberOf3DRW == CountWithMapper(order, MapperId, Mapper3D)
      ensures timerRunning == (old(timerRunning) && updatePending)
      ensures lastUpdatedRW == Some(w)
      ensures rendered == old(rendered) + [w]
      ensures old(Coalescing()) ==> Coalescing()
    {
      Store(w, Inactive);
      CheckUpdatePending();
      if !updatePending {
        StopTimer();
      }
      lastUpdatedRW := Some(w);
      Render(w);
    }

    /** Before returning, an update of all selected windows: what a request
        for all of them leaves behind. */
    twostate predicate UpdateAllRequested(requestType: RequestType)
      reads this
    {
      && order == old(order)
      && renderWindowList == MarkMatching(old(renderWindowList), requestType, MapperId, Requested)
      && updatePending
      && timerRunning == (old(timerRunning) || !old(updatePending))
      && timerRestarts == old(timerRestarts) + (if old(updatePending) then 0 else 1)
      && abortFlagged == old(abortFlagged) +
           set k | k in old(renderWindowList) && Matches(requestType, MapperId(k)) && old(renderWindowList)[k] == InProgress
    }

    /** The state of RequestMatching's walk once the windows `order[..i]`
        have been visited, from the map `m0` and the flags, abort set and
        timer count it started with; `touched` tells whether any visited
        window was selected. */
    ghost predicate RequestWalked(requestType: RequestType, i: nat, m0: map<Window, RenderingState>,
                                  aborted0: set<Window>, pending0: bool, running0: bool, restarts0: nat,
                                  coalescing0: bool, touched: bool)
      reads this
    {
      && i <= |order|
      && renderWindowList == MarkMatchingAmong(m0, order[..i], requestType, MapperId, Requested)
      && abortFlagged == aborted0 + AbortTargets(order[..i], m0, requestType, MapperId)
      && updatePending == (pending0 || touched)
      && timerRunning == (running0 || (!pending0 && touched))
      && timerRestarts == restarts0 + (if !pending0 && touched then 1 else 0)
      && (coalescing0 ==> Coalescing())
    }

    /** One step of RequestMatching: visit `order[i]`. */
    method RequestMatchingStep(requestType: RequestType, i: nat, ghost m0: map<Window, RenderingState>,
                               ghost aborted0: set<Window>, ghost pending0: bool, ghost running0: bool,
                               ghost restarts0: nat, ghost coalescing0: bool, ghost touched: bool)
      returns (ghost touched': bool)
      requires Valid() && i < |order| && order[i] in m0 && order[i] !in order[..i]
      requires RequestWalked(requestType, i, m0, aborted0, pending0, running0, restarts0, coalescing0, touched)
      modifies this`renderWindowList, this`order, this`updatePending, this`timerRunning, this`timerRestarts, this`abortFlagged
      ensures Valid() && order == old(order)
      ensures RequestWalked(requestType, i + 1, m0, aborted0, pending0, running0, restarts0, coalescing0, touched')
    {
      var w := order[i];
      PrefixStep(order, i);
      MarkMatchingAmongAt(m0, order[..i], requestType, MapperId, Requested, w);
      UnionAssoc(aborted0, AbortTargets(order[..i], m0, requestType, MapperId), {w});
      touched' := touched;
      if Matches(requestType, MapperId(w)) {
        RequestUpdate(w);
        touched' := true;
        // The re-check for an Inactive window that follows here in the
        // source can never fire: the request has just been stored.
        assert renderWindowList[w] != Inactive;
      }
    }

    /** The walk of RequestUpdateAll: request every selected window.
        `touched` tells whether any window was selected. */
    method RequestMatching(requestType: RequestType) returns (ghost touched: bool)
      requires Valid()
      modifies this`renderWindowList, this`order, this`updatePending, this`timerRunning, this`timerRestarts, this`abortFlagged
      ensures Valid()
      ensures order == old(order)
      ensures renderWindowList == MarkMatchingAmong(old(renderWindowList), order, requestType, MapperId, Requested)
      ensures abortFlagged == old(abortFlagged) + AbortTargets(order, old(renderWindowList), requestType, MapperId)
      ensures updatePending == (old(updatePending) || touched)
      ensures timerRunning == (old(timerRunning) || (!old(updatePending) && touched))
      ensures timerRestarts == old(timerRestarts) + (if !old(updatePending) && touched then 1 else 0)
      ensures old(Coalescing()) ==> Coalescing()
    {
      ghost var m0 := renderWindowList;
      KeysInMap(order, renderWindowList);
      touched := false;
      var i := 0;
      while i < |order|
        invariant 0 <= i <= |order|
        invariant Valid() && order == old(order)
        invariant RequestWalked(requestType, i, m0, old(abortFlagged), old(updatePending), old(timerRunning),
                                old(timerRestarts), old(Coalescing()), touched)
      {
        NextUnvisited(order, i);
        touched := RequestMatchingStep(requestType, i, m0, old(abortFlagged), old(updatePending), old(timerRunning),
                                       old(timerRestarts), old(Coalescing()), touched);
        i := i + 1;
      }
      assert order[..i] == order;
    }

    method RequestUpdateAll(requestType: RequestType)
      requires Valid()
      modifies this`renderWindowList, this`order, this`updatePending, this`timerRunning, this`timerRestarts, this`abortFlagged
      ensures Valid()
      ensures UpdateAllRequested(requestType)
      ensures old(Coalescing()) ==> Coalescing()
    {
      ghost var m0 := renderWindowList;
      KeysInMap(order, renderWindowList);
      MarkMatchingWalk(m0, order, requestType, MapperId, Requested);
      AbortTargetsMembers(order, m0, requestType, MapperId);
      forall k
        ensures k in AbortTargets(order, m0, requestType, MapperId)
            <==> k in m0 && Matches(requestType, MapperId(k)) && m0[k] == InProgress
      {
        assert k in order <==> k in m0;
      }
      ghost var touched := RequestMatching(requestType);
      if !updatePending {
        updatePending := true;
        RestartTimer();
      }
    }

    /** The state of RenderMatching's walk once the windows `order[..i]` have
        been visited, from the map `m0` and the render log `rendered0`. */
    ghost predicate RenderWalked(requestType: RequestType, i: nat, m0: map<Window, RenderingState>,
                                 rendered0: seq<Window>)
      reads this
    {
      && i <= |order|
      && renderWindowList == MarkMatchingAmong(m0, order[..i], requestType, MapperId, Inactive)
      && rendered == rendered0 + WindowsMatching(order[..i], requestType, MapperId)
    }

    /** One step of RenderMatching: visit `order[i]`. */
    method RenderStep(requestType: RequestType, i: nat, ghost m0: map<Window, RenderingState>,
                      ghost rendered0: seq<Window>)
      requires i < |order| && order[i] in m0
      requires RenderWalked(requestType, i, m0, rendered0)
      modifies this`renderWindowList, this`rendered
      ensures RenderWalked(requestType, i + 1, m0, rendered0)
    {
      var w := order[i];
      PrefixStep(order, i);
      if Matches(requestType, MapperId(w)) {
        AppendAssoc(rendered0, WindowsMatching(order[..i], requestType, MapperId), [w]);
        Render(w);
        renderWindowList := renderWindowList[w := Inactive];
      }
    }

    /** The loop shared by both forced updates of all selected windows:
        render each selected window, then mark it Inactive. */
    method RenderMatching(requestType: RequestType)
      requires Valid()
      modifies this`renderWindowList, this`rendered
      ensures Valid()
      ensures renderWindowList == MarkMatching(old(renderWindowList), requestType, MapperId, Inactive)
      ensures rendered == old(rendered) + WindowsMatching(order, requestType, MapperId)
    {
      KeysInMap(order, renderWindowList);
      var i := 0;
      while i < |order|
        invariant 0 <= i <= |order|
        invariant RenderWalked(requestType, i, old(renderWindowList), old(rendered))
      {
        RenderStep(requestType, i, old(renderWindowList), old(rendered));
        i := i + 1;
      }
      assert order[..i] == order;
      MarkMatchingWalk(old(renderWindowList), order, requestType, MapperId, Inactive);
    }

    /** As the source has it: the timer is stopped whenever an update was
        pending, even when the recount that follows finds a request left. */
    method ForceImmediateUpdateAll(requestType: RequestType)
      requires Valid()
      modifies this`renderWindowList, this`rendered, this`updatePending, this`numberOf3DRW, this`timerRunning
      ensures Valid()
      ensures renderWindowList == MarkMatching(old(renderWindowList), requestType, MapperId, Inactive)
      ensures rendered == old(rendered) + WindowsMatching(order, requestType, MapperId)
      ensures updatePending == AnyInState(renderWindowList, Requested)
      ensures numberOf3DRW == CountWithMapper(order, MapperId, Mapper3D)
      ensures timerRunning == (old(timerRunning) && !old(updatePending))
    {
      RenderMatching(requestType);
      if updatePending {
        StopTimer();
        updatePending := false;
      }
      CheckUpdatePending();
    }

    /** The forced update of all selected windows with the timer kept armed
        while a request is left, as ForceImmediateUpdate does it. */
    method ForceImmediateUpdateAllKeepingTimer(requestType: RequestType)
      requires Valid()
      modifies this`renderWindowList, this`rendered, this`updatePending, this`numberOf3DRW, this`timerRunning
      ensures Valid()
      ensures renderWindowList == MarkMatching(old(renderWindowList), requestType, MapperId, Inactive)
      ensures rendered == old(rendered) + WindowsMatching(order, requestType, MapperId)
      ensures updatePending == AnyInState(renderWindowList, Requested)
      ensures numberOf3DRW == CountWithMapper(order, MapperId, Mapper3D)
      ensures timerRunning == (old(timerRunning) && updatePending)
      ensures old(Coalescing()) ==> Coalescing()
    {
      RenderMatching(requestType);
      CheckUpdatePending();
      if !updatePending {
        StopTimer();
      }
    }

    /** The state of UpdateCallback's walk once the windows `order[..i]` have
        been visited, from the map `m0` and the values it started with;
        `done` lists the windows rendered so far. */
    ghost predicate ServiceWalked(i: nat, m0: map<Window, RenderingState>, rendered0: seq<Window>,
                                  last0: Option<Window>, count0: nat, running0: bool, done: seq<Window>)
      reads this
    {
      && i <= |order|
      && renderWindowList == ServicedAmong(m0, order[..i])
      && done == WindowsInState(order[..i], m0, Requested)
      && rendered == rendered0 + done
      && lastUpdatedRW == (if done == [] then last0 else Some(done[|done| - 1]))
      && numberOf3DRW == (if done == [] then count0 else CountWithMapper(order, MapperId, Mapper3D))
      && timerRunning == (running0 && (done == [] || AnyInState(renderWindowList, Requested)))
    }

    /** One step of UpdateCallback's walk: visit `order[i]`. */
    method ServiceStep(i: nat, ghost m0: map<Window, RenderingState>, ghost rendered0: seq<Window>,
                       ghost last0: Option<Window>, ghost count0: nat, ghost running0: bool, ghost done: seq<Window>)
      returns (ghost done': seq<Window>)
      requires Valid() && i < |order| && order[i] in m0 && order[i] !in order[..i]
      requires ServiceWalked(i, m0, rendered0, last0, count0, running0, done)
      modifies this`renderWindowList, this`order, this`updatePending, this`numberOf3DRW, this`timerRunning,
               this`lastUpdatedRW, this`rendered
      ensures Valid() && order == old(order)
      ensures ServiceWalked(i + 1, m0, rendered0, last0, count0, running0, done')
    {
      var w := order[i];
      PrefixStep(order, i);
      ServicedAmongAt(m0, order[..i], w);
      done' := done;
      if renderWindowList[w] == Requested {
        AppendAssoc(rendered0, done, [w]);
        ForceImmediateUpdate(w);
        done' := done + [w];
      }
    }

    /** The walk of UpdateCallback: every window found requested is rendered
        at once. `done` lists those windows in map order. */
    method ServiceRequested() returns (ghost done: seq<Window>)
      requires Valid()
      modifies this`renderWindowList, this`order, this`updatePending, this`numberOf3DRW, this`timerRunning,
               this`lastUpdatedRW, this`rendered
      ensures Valid()
      ensures order == old(order)
      ensures ServiceWalked(|order|, old(renderWindowList), old(rendered), old(lastUpdatedRW), old(numberOf3DRW),
                            old(timerRunning), done)
    {
      ghost var m0 := renderWindowList;
      KeysInMap(order, renderWindowList);
      done := [];
      var i := 0;
      while i < |order|
        invariant 0 <= i <= |order|
        invariant Valid() && order == old(order)
        invariant ServiceWalked(i, m0, old(rendered), old(lastUpdatedRW), old(numberOf3DRW), old(timerRunning), done)
      {
        NextUnvisited(order, i);
        done := ServiceStep(i, m0, old(rendered), old(lastUpdatedRW), old(numberOf3DRW), old(timerRunning), done);
        i := i + 1;
      }
    }

    /** The timer fired: render every window that is Requested when the walk
        reaches it, in map order, then clear the pending flag. */
    method UpdateCallback()
      requires Valid()
      modifies this`renderWindowList, this`order, this`updatePending, this`numberOf3DRW, this`timerRunning,
               this`lastUpdatedRW, this`rendered
      ensures Valid()
      ensures order == old(order)
      ensures renderWindowList == Serviced(old(renderWindowList))
      ensures rendered == old(rendered) + WindowsInState(old(order), old(renderWindowList), Requested)
      ensures !updatePending
      ensures var drained := WindowsInState(old(order), old(renderWindowList), Requested);
        && lastUpdatedRW == (if drained == [] then old(lastUpdatedRW) else Some(drained[|drained| - 1]))
        && numberOf3DRW == (if drained == [] then old(numberOf3DRW) else CountWithMapper(order, MapperId, Mapper3D))
        && timerRunning == (old(timerRunning) && drained == [])
      ensures Coalescing()
    {
      ghost var m0 := renderWindowList;
      ghost var done := ServiceRequested();
      assert order[..|order|] == order;
      ServicedWalk(m0, order);
      ServicedLeavesNoRequest(m0);
      updatePending := false;
    }

    // ------------------------------------------------------------------
    // Callbacks from the renderers, and abort.

    /** `renderer` is the window of the object that sent the event, or None
        when the sender is not a renderer. */
    method RenderingStartCallback(renderer: Option<Window>)
      requires Valid()
      modifies this`renderWindowList, this`order
      ensures Valid()
      ensures renderer.None? ==> renderWindowList == old(renderWindowList) && order == old(order)
      ensures renderer.Some? ==> renderWindowList == old(renderWindowList)[renderer.value := InProgress]
                                 && order == InsertKey(old(order), renderer.value)
      ensures old(Coalescing()) ==> Coalescing()
    {
      if renderer.Some? {
        Store(renderer.value, InProgress);
      }
    }

    method RenderingProgressCallback()
      modifies this`monitorCalls
      ensures monitorCalls == old(monitorCalls) + 1
    {
      monitorCalls := monitorCalls + 1;
    }

    method RenderingEndCallback(renderer: Option<Window>)
      requires Valid()
      modifies this`renderWindowList, this`order, this`finishAbortCalls, this`currentLOD, this`updatePending,
               this`timerRunning, this`timerRestarts, this`abortFlagged
      ensures Valid()
      ensures abortFlagged == old(abortFlagged)
      ensures renderer.None? ==>
        && renderWindowList == old(renderWindowList) && order == old(order)
        && finishAbortCalls == old(finishAbortCalls) && currentLOD == old(currentLOD)
        && updatePending == old(updatePending) && timerRunning == old(timerRunning)
        && timerRestarts == old(timerRestarts)
      ensures renderer.Some? ==>
        var w := renderer.value;
        var increase := LodIncreases(numberOf3DRW, old(currentLOD), maxLOD, lodIncreaseBlocked);
        && renderWindowList == old(renderWindowList)[w := if increase then Requested else Inactive]
        && order == InsertKey(old(order), w)
        && finishAbortCalls == old(finishAbortCalls) + 1
        && currentLOD == LodAfterRenderEnd(numberOf3DRW, old(currentLOD), maxLOD, lodIncreaseBlocked)
        && updatePending == (old(updatePending) || increase)
        && timerRunning == (old(timerRunning) || (increase && !old(updatePending)))
        && timerRestarts == old(timerRestarts) + (if increase && !old(updatePending) then 1 else 0)
      ensures old(Coalescing()) ==> Coalescing()
    {
      if renderer.Some? {
        var w := renderer.value;
        Store(w, Inactive);
        finishAbortCalls := finishAbortCalls + 1;
        if numberOf3DRW > 0 {
          if currentLOD < maxLOD {
            if !lodIncreaseBlocked {
              SetCurrentLOD(currentLOD + 1);
              StoreOverwrites(old(renderWindowList), w, Inactive, Requested);
              RequestUpdate(w);
            }
          }
        }
      }
    }

    method IsRendering() returns (rendering: bool)
      requires Valid()
      ensures rendering <==> AnyInState(renderWindowList, InProgress)
    {
      AnyInStateByIndex(order, renderWindowList, InProgress);
      var i := 0;
      while i < |order|
        invariant 0 <= i <= |order|
        invariant forall j :: 0 <= j < i ==> renderWindowList[order[j]] != InProgress
      {
        if renderWindowList[order[i]] == InProgress {
          return true;
        }
        i := i + 1;
      }
      return false;
    }

    /** AbortRendering's fallback walk: flag every window being rendered. */
    method AbortAllInProgress()
      requires Valid()
      modifies this`abortFlagged
      ensures abortFlagged == old(abortFlagged) + AbortTargets(order, renderWindowList, UpdateAll, MapperId)
    {
      KeysInMap(order, renderWindowList);
      var i := 0;
      while i < |order|
        invariant 0 <= i <= |order|
        invariant abortFlagged == old(abortFlagged) + AbortTargets(order[..i], renderWindowList, UpdateAll, MapperId)
      {
        PrefixStep(order, i);
        UnionAssoc(old(abortFlagged), AbortTargets(order[..i], renderWindowList, UpdateAll, MapperId), {order[i]});
        if renderWindowList[order[i]] == InProgress {
          SetAbortRender(order[i]);
        }
        i := i + 1;
      }
      assert order[..i] == order;
    }

    /** Raise the abort flag of `w` if it is a registered window that is
        rendering; otherwise of every window that is rendering. */
    method AbortRendering(w: Window)
      requires Valid()
      modifies this`abortFlagged
      ensures abortFlagged == old(abortFlagged) +
        (if w in renderWindowList && renderWindowList[w] == InProgress then {w}
         else set k | k in renderWindowList && renderWindowList[k] == InProgress)
    {
      if w in renderWindowList && renderWindowList[w] == InProgress {
        SetAbortRender(w);
      } else {
        AbortAllInProgress();
        AbortTargetsMembers(order, renderWindowList, UpdateAll, MapperId);
        forall k
          ensures k in AbortTargets(order, renderWindowList, UpdateAll, MapperId)
              <==> k in renderWindowList && renderWindowList[k] == InProgress
        {
          assert k in order <==> k in renderWindowList;
        }
      }
    }

    // ------------------------------------------------------------------
    // Level of detail and shading.

    method SetCurrentLOD(lod: int)
      modifies this`currentLOD
      ensures currentLOD == (if lod > maxLOD then old(currentLOD) else lod)
    {
      if currentLOD != lod {
        if lod > maxLOD {
          return;
        }
        currentLOD := lod;
      }
    }

    method SetNumberOfLOD(number: int)
      modifies this`maxLOD
      ensures maxLOD == number - 1
    {
      maxLOD := number - 1;
    }

    method SetLODIncreaseBlocked(blocked: bool)
      modifies this`lodIncreaseBlocked
      ensures lodIncreaseBlocked == blocked
    {
      lodIncreaseBlocked := blocked;
    }

    /** Stores `state` for level `lod` when the level is in range, and does
        nothing otherwise. */
    method SetShading(state: bool, lod: int)
      requires Valid()
      modifies shadingEnabled
      ensures shadingEnabled[..] ==
        if ShadingIndexInRange(lod, maxLOD) then old(shadingEnabled[..])[lod := state] else old(shadingEnabled[..])
    {
      if !ShadingIndexInRange(lod, maxLOD) {
        return;
      }
      shadingEnabled[lod] := state;
    }

    method GetShading(lod: int) returns (enabled: bool)
      requires Valid()
      ensures enabled <==> ShadingIndexInRange(lod, maxLOD) && shadingEnabled[lod]
    {
      if !ShadingIndexInRange(lod, maxLOD) {
        return false;
      }
      return shadingEnabled[lod];
    }

    method SetShadingValues(ambient: real, diffuse: real, specular: real, specpower: real)
      requires Valid()
      modifies shadingValues
      ensures shadingValues[..] == [ambient, diffuse, specular, specpower]
    {
      shadingValues[0] := ambient;
      shadingValues[1] := diffuse;
      shadingValues[2] := specular;
      shadingValues[3] := specpower;
    }

    // ------------------------------------------------------------------
    // View initialisation.

    method SetTimeNavigationController(present: bool)
      modifies this`timeNavigationControllerSet
      ensures timeNavigationControllerSet == present
    {
      timeNavigationControllerSet := present;
    }

    method InternalViewInitialization(w: Window, boundingBoxInitialized: bool, mapperId: int)
      modifies this`viewLog
      ensures viewLog == old(viewLog) + ViewInitializationSteps(w, boundingBoxInitialized, mapperId, HasVtkRenderer(w))
    {
      var steps := [SetViewDirectionToDefault(w)];
      if boundingBoxInitialized {
        steps := steps + [SetInputWorldGeometry(w), UpdateSlicer(w)];
        if mapperId == Mapper2D {
          steps := steps + [CenterSlice(w)];
        }
        steps := steps + [FitDisplayGeometry(w)];
        if HasVtkRenderer(w) {
          steps := steps + [ResetCamera(w)];
        }
      } else {
        steps := steps + [UpdateSlicer(w)];
      }
      viewLog := viewLog + steps;
    }

    /** Hand the geometry to the time controller when it is usable and
        `propagate` holds, then update the controller; nothing without one. */
    method UpdateTimeController(boundingBoxInitialized: bool, propagate: bool)
      modifies this`viewLog
      ensures viewLog == old(viewLog) + TimeControllerActions(timeNavigationControllerSet, boundingBoxInitialized, propagate)
    {
      if timeNavigationControllerSet {
        if boundingBoxInitialized && propagate {
          viewLog := viewLog + [TimeSetInputWorldGeometry];
        }
        viewLog := viewLog + [TimeUpdate];
      }
    }

    /** The walk over the windows shared by both ways of initialising all
        selected views. */
    method InitializeMatchingViews(requestType: RequestType, boundingBoxInitialized: bool)
      modifies this`viewLog
      ensures viewLog == old(viewLog) + ViewInitActions(order, requestType, boundingBoxInitialized, MapperId, HasVtkRenderer)
    {
      var keys, mapperId, hasVtk := order, MapperId, HasVtkRenderer;
      var i := 0;
      while i < |keys|
        invariant 0 <= i <= |keys|
        invariant viewLog == old(viewLog) + ViewInitActions(keys[..i], requestType, boundingBoxInitialized, mapperId, hasVtk)
      {
        var w := keys[i];
        ghost var before := ViewInitActions(keys[..i], requestType, boundingBoxInitialized, mapperId, hasVtk);
        ViewInitActionsStep(keys, i, requestType, boundingBoxInitialized, mapperId, hasVtk);
        if Matches(requestType, mapperId(w)) {
          InternalViewInitialization(w, boundingBoxInitialized, mapperId(w));
          AppendAssoc(old(viewLog), before, ViewInitializationSteps(w, boundingBoxInitialized, mapperId(w), hasVtk(w)));
        }
        i := i + 1;
      }
      assert keys[..i] == keys;
    }

    /** Initialise the selected views from a bounding geometry, of which only
        its usability is known here. */
    method InitializeViews(geometryUsable: bool, requestType: RequestType) returns (boundingBoxInitialized: bool)
      requires Valid()
      modifies this`viewLog, this`renderWindowList, this`order, this`updatePending, this`timerRunning,
               this`timerRestarts, this`abortFlagged
      ensures Valid()
      ensures boundingBoxInitialized == geometryUsable
      ensures viewLog == old(viewLog)
        + ViewInitActions(old(order), requestType, geometryUsable, MapperId, HasVtkRenderer)
        + TimeControllerActions(timeNavigationControllerSet, geometryUsable, true)
        + [ViewsInitializedEvent]
      ensures UpdateAllRequested(requestType)
      ensures old(Coalescing()) ==> Coalescing()
    {
      boundingBoxInitialized := geometryUsable;
      InitializeMatchingViews(requestType, boundingBoxInitialized);
      UpdateTimeController(boundingBoxInitialized, true);
      RequestUpdateAll(requestType);
      viewLog := viewLog + [ViewsInitializedEvent];
    }

    /** Initialise the selected views without a geometry: every one gets its
        default view direction back. */
    method InitializeViewsWithoutGeometry(requestType: RequestType) returns (done: bool)
      requires Valid()
      modifies this`viewLog, this`renderWindowList, this`order, this`updatePending, this`timerRunning,
               this`timerRestarts, this`abortFlagged
      ensures Valid()
      ensures done
      ensures viewLog == old(viewLog) + ViewInitActions(old(order), requestType, false, MapperId, HasVtkRenderer)
      ensures UpdateAllRequested(requestType)
      ensures old(Coalescing()) ==> Coalescing()
    {
      InitializeMatchingViews(requestType, false);
      RequestUpdateAll(requestType);
      return true;
    }

    /** Initialise one window's view from a bounding geometry; the time
        controller gets the geometry only when `initializeGlobalTimeSNC` holds. */
    method InitializeView(w: Window, geometryUsable: bool, initializeGlobalTimeSNC: bool) returns (boundingBoxInitialized: bool)
      requires Valid()
      modifies this`viewLog, this`renderWindowList, this`order, this`updatePending, this`timerRunning,
               this`timerRestarts, this`abortFlagged
      ensures Valid()
      ensures boundingBoxInitialized == geometryUsable
      ensures viewLog == old(viewLog)
        + ViewInitializationSteps(w, geometryUsable, MapperId(w), HasVtkRenderer(w))
        + TimeControllerActions(timeNavigationControllerSet, geometryUsable, initializeGlobalTimeSNC)
      ensures renderWindowList == old(renderWindowList)[w := Requested]
      ensures order == InsertKey(old(order), w)
      ensures updatePending
      ensures timerRunning == (old(timerRunning) || !old(updatePending))
      ensures timerRestarts == old(timerRestarts) + (if old(updatePending) then 0 else 1)
      ensures abortFlagged ==
        if w in old(renderWindowList) && old(renderWindowList)[w] == InProgress then old(abortFlagged) + {w} else old(abortFlagged)
      ensures old(Coalescing()) ==> Coalescing()
    {
      boundingBoxInitialized := geometryUsable;
      InternalViewInitialization(w, boundingBoxInitialized, MapperId(w));
      UpdateTimeController(boundingBoxInitialized, initializeGlobalTimeSNC);
      RequestUpdate(w);
    }

    /** Reset one window's view to its default direction and request it. */
    method InitializeViewWithoutGeometry(w: Window) returns (done: bool)
      requires Valid()
      modifies this`viewLog, this`renderWindowList, this`order, this`updatePending, this`timerRunning,
               this`timerRestarts, this`abortFlagged
      ensures Valid()
      ensures done
      ensures viewLog == old(viewLog) + [SetViewDirectionToDefault(w), UpdateSlicer(w)]
      ensures renderWindowList == old(renderWindowList)[w := Requested]
      ensures order == InsertKey(old(order), w)
      ensures updatePending
      ensures timerRunning == (old(timerRunning) || !old(updatePending))
      ensures timerRestarts == old(timerRestarts) + (if old(updatePending) then 0 else 1)
      ensures abortFlagged ==
        if w in old(renderWindowList) && old(renderWindowList)[w] == InProgress then old(abortFlagged) + {w} else old(abortFlagged)
      ensures old(Coalescing()) ==> Coalescing()
    {
      viewLog := viewLog + [SetViewDirectionToDefault(w), UpdateSlicer(w)];
      RequestUpdate(w);
      return true;
    }
  }

  /** CheckUpdatePending's walk over the map, in its visiting order `keys`:
      whether some window is Requested, and how many windows are 3D. */
  method ScanWindows(keys: seq<Window>, m: map<Window, RenderingState>, mapperId: Window -> int)
    returns (pending: bool, count: nat)
    requires forall j :: 0 <= j < |keys| ==> keys[j] in m
    ensures pending == (WindowsInState(keys, m, Requested) != [])
    ensures count == CountWithMapper(keys, mapperId, Mapper3D)
  {
    pending, count := false, 0;
    var i := 0;
    while i < |keys|
      invariant 0 <= i <= |keys|
      invariant pending == (WindowsInState(keys[..i], m, Requested) != [])
      invariant count == CountWithMapper(keys[..i], mapperId, Mapper3D)
    {
      var w := keys[i];
      PrefixStep(keys, i);
      if m[w] == Requested {
        pending := true;
      }
      if mapperId(w) == Mapper3D {
        count := count + 1;
      }
      i := i + 1;
    }
    assert keys[..i] == keys;
  }

  // --------------------------------------------------------------------
  // A forced update of one class of windows can leave a request stranded.

  /** Forcing the 3D windows of a requested 2D window (1) and 3D window (2)
      settles window 2 only. */
  lemma ForcedThreeDOnly(mapperId: Window -> int)
    requires mapperId(1) == Mapper2D && mapperId(2) == Mapper3D
    ensures MarkMatching(map[1 := Requested, 2 := Requested], Update3DWindows, mapperId, Inactive)
         == map[1 := Requested, 2 := Inactive]
  {
    var r := MarkMatching(map[1 := Requested, 2 := Requested], Update3DWindows, mapperId, Inactive);
    assert r.Keys == {1, 2};
    assert r[1] == Requested && r[2] == Inactive;
  }

  /** A 2D window (1) and a 3D window (2) are both requested; forcing the 3D
      windows as the source does leaves the 2D request pending with the timer
      stopped, and a further request does not re-arm it. */
  method StrandedRequestAfterScopedForce() returns (m: RenderingManager)
    ensures m.Valid()
    ensures m.renderWindowList == map[1 := Requested, 2 := Requested]
    ensures m.updatePending && !m.timerRunning && !m.Coalescing()
  {
    m := new RenderingManager(w => if w == 1 then Mapper2D else Mapper3D, w => true);
    m.AddRenderWindow(1);
    m.AddRenderWindow(2);
    m.RequestUpdate(1);
    assert m.renderWindowList == map[1 := Requested, 2 := Inactive];
    m.RequestUpdate(2);
    assert m.renderWindowList == map[1 := Requested, 2 := Requested];
    ForcedThreeDOnly(m.MapperId);
    m.ForceImmediateUpdateAll(Update3DWindows);
    assert m.renderWindowList == map[1 := Requested, 2 := Inactive];
    m.RequestUpdate(2);
    assert m.renderWindowList == map[1 := Requested, 2 := Requested];
  }

  /** The same calls with the corrected forced update keep the timer armed. */
  method ScopedForceKeepsTimer() returns (m: RenderingManager)
    ensures m.Valid()
    ensures m.renderWindowList == map[1 := Requested, 2 := Requested]
    ensures m.updatePending && m.timerRunning && m.Coalescing()
  {
    m := new RenderingManager(w => if w == 1 then Mapper2D else Mapper3D, w => true);
    m.AddRenderWindow(1);
    m.AddRenderWindow(2);
    m.RequestUpdate(1);
    assert m.renderWindowList == map[1 := Requested, 2 := Inactive];
    m.RequestUpdate(2);
    assert m.renderWindowList == map[1 := Requested, 2 := Requested];
    ForcedThreeDOnly(m.MapperId);
    m.ForceImmediateUpdateAllKeepingTimer(Update3DWindows);
    assert m.renderWindowList == map[1 := Requested, 2 := Inactive];
    m.RequestUpdate(2);
    assert m.renderWindowList == map[1 := Requested, 2 := Requested];
  }
}
