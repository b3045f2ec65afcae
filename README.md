# Rendering manager scheduler and slice-visualisation state machine

A Dafny model of two pieces of MITK:

- **The rendering manager** (`Core/Controllers/mitkRenderingManager.cpp`). It is
  the scheduler that coalesces redraw requests for the registered render
  windows. It keeps a map from window to state (Inactive, Requested,
  InProgress) and the list of windows in registration order. Its
  pending flag guards a restartable timer. When the timer fires, every
  requested window is rendered. Renderers report when a render starts and
  ends. A finished render raises the level of detail while a 3D window is
  known. Renders in progress can be aborted. Shading is kept per level of
  detail. The views can be (re)initialised from a bounding geometry.
- **The navigation-data slice visualisation filter**
  (`Modules/IGT/IGTFilters/mitkNavigationDataSliceVisualization.cpp`). While a
  tracked tool is inside the tracking volume, or no volume is set, the
  renderer's slice follows the tool tip. The user's own slice is saved on the
  first update and each time the tool comes back in. It is restored on the
  first update after the tool leaves.

Files:

- `wrappers.dfy`: Option and Outcome.
- `render_windows.dfy`: window states and request types. The map's visiting
  order is a strictly sorted key sequence. It also holds the filters,
  counts and walks that the manager's contracts use.
- `level_of_detail.dfy`: level-of-detail progression and the shading-index
  check.
- `view_initialization.dfy`: the calls made on each window's view machinery
  and on the time controller, as a list of actions.
- `rendering_manager.dfy`: the class `RenderingManager`, imperative, with
  two scenarios.
- `slice_visualization.dfy`: the pure state machine `Step`, its lemmas, and
  the class `NavigationDataSliceVisualization`.

The environment becomes parameters and recorded effects:

- Each window's mapper ID (1 = 2D, 2 = 3D) is a function given at
  construction. So is whether the window's renderer owns a vtkRenderer.
- `Render`, `SetAbortRender`, the monitoring and abort-finishing hooks, and
  the calls on the slice navigation controllers are recorded in ghost fields
  (`rendered`, `abortFlagged`, `monitorCalls`, `finishAbortCalls`, `viewLog`).
- The timer is the flag `timerRunning` plus a ghost restart counter.
- For the filter, each navigation datum carries its geometry already
  evaluated:
  - whether it is valid;
  - whether it lies inside the tracking volume;
  - the slice index the controller selects for the tool tip;
  - the direction of projection, already rotated by the tool orientation.

  The renderer's slice navigation controller is a slice index plus two axis
  vectors.

## Model

| member | source | states |
|---|---|---|
| RenderingManagement.RenderingManager.constructor | Core/Controllers/mitkRenderingManager.cpp:37-49 | no windows, nothing pending, LOD 0 of maximum 2, three shading flags off, four shading values 0 |
| RenderingManagement.RenderingManager.Store | Core/Controllers/mitkRenderingManager.cpp:190 | the map's subscript as an lvalue: an unknown window is inserted into the visiting order, the state is stored, no other entry changes |
| RenderingManagement.RenderingManager.Lookup | Core/Controllers/mitkRenderingManager.cpp:185 | the subscript as an rvalue yields the stored state, or Inactive after silently inserting an unknown window |
| RenderingManagement.RenderingManager.Render | Core/Controllers/mitkRenderingManager.cpp:240 | the window is appended to the render log |
| RenderingManagement.RenderingManager.SetAbortRender | Core/Controllers/mitkRenderingManager.cpp:690 | the window joins the abort-flagged set |
| RenderingManagement.RenderingManager.RestartTimer | Core/Controllers/mitkRenderingManager.cpp:195 | the timer runs and one more restart is counted |
| RenderingManagement.RenderingManager.StopTimer | Core/Controllers/mitkRenderingManager.cpp:234 | the timer is stopped |
| RenderingManagement.RenderingManager.AddRenderWindow | Core/Controllers/mitkRenderingManager.cpp:131-132 | the window is mapped to Inactive and appended to the registration list; every other entry is kept; coalescing is preserved |
| RenderingManagement.RenderingManager.RemoveRenderWindow | Core/Controllers/mitkRenderingManager.cpp:161-170 | the map entry is erased and only the first list occurrence is removed; for an absent window both stay unchanged |
| RenderingManagement.RenderingManager.RequestUpdate | Core/Controllers/mitkRenderingManager.cpp:181-197 | the window becomes Requested (inserted if unknown); pending is set; the timer restarts exactly when nothing was pending; the window's render is aborted exactly when it was InProgress |
| RenderingManagement.RenderingManager.CheckUpdatePending | Core/Controllers/mitkRenderingManager.cpp:200-219 | pending holds exactly when some window is Requested; the 3D count is the number of mapped windows with mapper ID 2 |
| RenderingManagement.ScanWindows | Core/Controllers/mitkRenderingManager.cpp:207-217 | the counting loop finds a request exactly when the Requested filter is non-empty, and counts the 3D windows |
| RenderingManagement.RenderingManager.ForceImmediateUpdate | Core/Controllers/mitkRenderingManager.cpp:222-242 | the window becomes Inactive and no other entry changes; pending is recomputed; the timer stops unless a request remains; the window is the last updated and is rendered |
| RenderingManagement.RenderingManager.RequestMatchingStep | Core/Controllers/mitkRenderingManager.cpp:251-263 | one window visited by RequestUpdateAll: the walk invariant advances by that window |
| RenderingManagement.RenderingManager.RequestMatching | Core/Controllers/mitkRenderingManager.cpp:249-264 | the walk requests exactly the selected windows; it aborts the selected windows that were InProgress; the timer restarts at most once |
| RenderingManagement.RenderingManager.RequestUpdateAll | Core/Controllers/mitkRenderingManager.cpp:245-272 | every selected window is Requested and the others keep their state; pending is true; the timer runs if it ran before or nothing was pending, so whenever coalescing held; only selected in-progress renders are aborted |
| RenderingManagement.RenderingManager.RenderStep | Core/Controllers/mitkRenderingManager.cpp:282-293 | one window visited by the forced walk: rendered and set Inactive when selected |
| RenderingManagement.RenderingManager.RenderMatching | Core/Controllers/mitkRenderingManager.cpp:279-294 | exactly the selected windows become Inactive and are rendered, in map order; the others keep their state |
| RenderingManagement.RenderingManager.ForceImmediateUpdateAll | Core/Controllers/mitkRenderingManager.cpp:275-303 | selected windows become Inactive and are rendered in map order; pending is recomputed; the timer is stopped whenever something was pending, even if a request remains (Findings) |
| RenderingManagement.RenderingManager.ForceImmediateUpdateAllKeepingTimer | Core/Controllers/mitkRenderingManager.cpp:275-303 | as above, but the timer stays armed while a request remains, so coalescing holds afterwards (Findings) |
| RenderingManagement.RenderingManager.ServiceStep | Core/Controllers/mitkRenderingManager.cpp:607-610 | one window visited by the update callback: force-updated when it is Requested at that moment |
| RenderingManagement.RenderingManager.ServiceRequested | Core/Controllers/mitkRenderingManager.cpp:604-611 | the walk renders exactly the windows that were Requested, in map order; it tracks the last updated window, the 3D count and the timer |
| RenderingManagement.RenderingManager.UpdateCallback | Core/Controllers/mitkRenderingManager.cpp:599-613 | every Requested window is rendered once in map order and becomes Inactive; no other window changes; no request is left; pending is false; the timer keeps running only if nothing was rendered. No request is left only because `Render` never re-enters the callbacks here (see Left out) |
| RenderingManagement.RenderingManager.RenderingStartCallback | Core/Controllers/mitkRenderingManager.cpp:616-626 | the sending renderer's window becomes InProgress; a non-renderer sender changes nothing |
| RenderingManagement.RenderingManager.RenderingProgressCallback | Core/Controllers/mitkRenderingManager.cpp:629-635 | the monitoring hook is called once |
| RenderingManagement.RenderingManager.RenderingEndCallback | Core/Controllers/mitkRenderingManager.cpp:638-662 | the window ends Inactive, or Requested again; the LOD rises by exactly one iff a 3D window is known, the LOD is below the maximum and raising is not blocked; this never carries the LOD past the maximum |
| RenderingManagement.RenderingManager.IsRendering | Core/Controllers/mitkRenderingManager.cpp:665-679 | true iff some window is InProgress |
| RenderingManagement.RenderingManager.AbortAllInProgress | Core/Controllers/mitkRenderingManager.cpp:694-701 | flags the InProgress windows met in map order |
| RenderingManagement.RenderingManager.AbortRendering | Core/Controllers/mitkRenderingManager.cpp:682-703 | flags only `w` when it is registered and InProgress, otherwise every InProgress window; the map is untouched |
| RenderingManagement.RenderingManager.SetCurrentLOD | Core/Controllers/mitkRenderingManager.cpp:714-728 | a level above the maximum is ignored; any other level is taken |
| RenderingManagement.RenderingManager.SetNumberOfLOD | Core/Controllers/mitkRenderingManager.cpp:731-736 | the maximum level becomes n - 1 |
| RenderingManagement.RenderingManager.SetLODIncreaseBlocked | Core/Controllers/mitkRenderingManager.cpp:654 | sets the block flag that the end callback reads |
| RenderingManagement.RenderingManager.SetShading | Core/Controllers/mitkRenderingManager.cpp:740-751 | stores the flag only for an index in range; otherwise a no-op (corrected check, see Findings) |
| RenderingManagement.RenderingManager.GetShading | Core/Controllers/mitkRenderingManager.cpp:753-763 | the stored flag for an index in range, false otherwise |
| RenderingManagement.RenderingManager.SetShadingValues | Core/Controllers/mitkRenderingManager.cpp:783-791 | the four values are stored in order |
| RenderingManagement.RenderingManager.SetTimeNavigationController | Core/Controllers/mitkRenderingManager.cpp:575-580 | records whether a time controller is set |
| RenderingManagement.RenderingManager.InternalViewInitialization | Core/Controllers/mitkRenderingManager.cpp:536-572 | appends exactly the calls of one window's initialisation |
| RenderingManagement.RenderingManager.UpdateTimeController | Core/Controllers/mitkRenderingManager.cpp:383-390 | appends the time-controller calls: the geometry only when usable and wanted, then the update |
| RenderingManagement.RenderingManager.InitializeMatchingViews | Core/Controllers/mitkRenderingManager.cpp:368-381 | initialises the selected windows in map order |
| RenderingManagement.RenderingManager.InitializeViews | Core/Controllers/mitkRenderingManager.cpp:353-401 | result = geometry usable; selected views initialised, then the time controller, then RequestUpdateAll, then the event |
| RenderingManagement.RenderingManager.InitializeViewsWithoutGeometry | Core/Controllers/mitkRenderingManager.cpp:404-432 | every selected view gets its default direction and a slicer update; then RequestUpdateAll; returns true |
| RenderingManagement.RenderingManager.InitializeView | Core/Controllers/mitkRenderingManager.cpp:473-512 | one window initialised; the time controller gets the geometry only if asked; the window is then requested as by `RequestUpdate`: the timer restarts only if nothing was pending, and only this window's in-progress render is aborted |
| RenderingManagement.RenderingManager.InitializeViewWithoutGeometry | Core/Controllers/mitkRenderingManager.cpp:515-534 | default direction and slicer update for the window, which is then requested as by `RequestUpdate` (timer restarted only if nothing was pending, only this window aborted if in progress); returns true |
| RenderingManagement.ForcedThreeDOnly | Core/Controllers/mitkRenderingManager.cpp:280-294 | forcing the 3D windows clears the 3D window's request and keeps the 2D window's |
| RenderingManagement.StrandedRequestAfterScopedForce | Core/Controllers/mitkRenderingManager.cpp:296-302 | after the scoped force, a request is pending while the timer is stopped; a later request does not re-arm it |
| RenderingManagement.ScopedForceKeepsTimer | Core/Controllers/mitkRenderingManager.cpp:296-302 | with the corrected force the timer stays armed and coalescing holds |
| RenderWindows.IncreasingIsSorted | Core/Controllers/mitkRenderingManager.cpp:207 | the neighbour-wise and pairwise statements of the map's key order agree |
| RenderWindows.NextUnvisited | Core/Controllers/mitkRenderingManager.cpp:208 | a map iterator never meets a key twice |
| RenderWindows.AnyInStateByIndex | Core/Controllers/mitkRenderingManager.cpp:207-213 | some window has a state iff some position of the visiting order holds it |
| RenderWindows.AnyInStateByFilter | Core/Controllers/mitkRenderingManager.cpp:207-213 | some window has a state iff the filter over the visiting order is non-empty |
| RenderWindows.KeysInMap | Core/Controllers/mitkRenderingManager.cpp:208 | every visited key is a key of the map |
| RenderWindows.InsertKeySorted | Core/Controllers/mitkRenderingManager.cpp:185 | inserting into the ordered map keeps the keys sorted and adds exactly that key; a present key changes nothing |
| RenderWindows.EraseKeySorted | Core/Controllers/mitkRenderingManager.cpp:163 | erasing keeps the keys sorted and removes exactly that key; an absent key changes nothing |
| RenderWindows.InsertKeyOrder | Core/Controllers/mitkRenderingManager.cpp:190 | a store keeps the key sequence the map's visiting order |
| RenderWindows.EraseKeyOrder | Core/Controllers/mitkRenderingManager.cpp:163 | an erase keeps the key sequence the map's visiting order |
| RenderWindows.SortedKeysUnique | Core/Controllers/mitkRenderingManager.cpp:207 | a set of keys has only one visiting order |
| RenderWindows.WindowsInStateMembers | Core/Controllers/mitkRenderingManager.cpp:607 | the filter keeps exactly the mapped windows in the given state |
| RenderWindows.WindowsMatchingMembers | Core/Controllers/mitkRenderingManager.cpp:283-285 | the filter keeps exactly the windows the request type selects |
| RenderWindows.WindowsInStateInMapOrder | Core/Controllers/mitkRenderingManager.cpp:605 | the windows serviced by the callback come out in map order |
| RenderWindows.WindowsMatchingInMapOrder | Core/Controllers/mitkRenderingManager.cpp:280 | the windows rendered by the forced walk come out in map order |
| RenderWindows.CountWithMapper | Core/Controllers/mitkRenderingManager.cpp:214-217 | the 3D count never exceeds the number of windows |
| RenderWindows.CountWithMapperIsCardinality | Core/Controllers/mitkRenderingManager.cpp:214-217 | over the visiting order the count is the number of distinct windows with that mapper ID |
| RenderWindows.MarkMatching | Core/Controllers/mitkRenderingManager.cpp:284-293 | marking the selected windows keeps the set of windows |
| RenderWindows.Serviced | Core/Controllers/mitkRenderingManager.cpp:606-611 | servicing keeps the set of windows |
| RenderWindows.ServicedLeavesNoRequest | Core/Controllers/mitkRenderingManager.cpp:606-611 | no window is left Requested, and windows that were not Requested keep their state |
| RenderWindows.MarkMatchingAmongAt | Core/Controllers/mitkRenderingManager.cpp:284-293 | after visiting a prefix, a window is marked iff it was visited and selected |
| RenderWindows.MarkMatchingWalk | Core/Controllers/mitkRenderingManager.cpp:279-294 | the full walk marks exactly the selected windows |
| RenderWindows.ServicedAmongAt | Core/Controllers/mitkRenderingManager.cpp:606-611 | after visiting a prefix, a window is Inactive iff it was visited while Requested; others keep their state |
| RenderWindows.ServicedWalk | Core/Controllers/mitkRenderingManager.cpp:603-611 | the full walk services every request |
| RenderWindows.AbortTargetsMembers | Core/Controllers/mitkRenderingManager.cpp:694-701 | the abort walk flags exactly the selected InProgress windows |
| RenderWindows.AnyInStateAfterStore | Core/Controllers/mitkRenderingManager.cpp:226 | storing another state creates no request |
| RenderWindows.AnyInStateAfterErase | Core/Controllers/mitkRenderingManager.cpp:163 | erasing creates no request |
| RenderWindows.FirstIndex | Core/Controllers/mitkRenderingManager.cpp:165 | std::find's position: the first occurrence |
| RenderWindows.RemoveFirstLength | Core/Controllers/mitkRenderingManager.cpp:165-169 | an absent window leaves the list unchanged; otherwise it has one entry fewer |
| RenderWindows.RemoveFirstCounts | Core/Controllers/mitkRenderingManager.cpp:165-169 | exactly one occurrence of the window is removed; no other window's count changes |
| RenderWindows.RemoveFirstAt | Core/Controllers/mitkRenderingManager.cpp:165-169 | exactly the first occurrence is erased; the rest keep their order |
| LevelOfDetail.LodAfterRenderEnd | Core/Controllers/mitkRenderingManager.cpp:650-660 | the LOD rises by one iff a 3D window is known, it is below the maximum and not blocked; it never passes the maximum |
| LevelOfDetail.RefinementReachesMaxLOD | Core/Controllers/mitkRenderingManager.cpp:650-660 | unblocked with a 3D window, n render ends reach min(current + n, max) |
| LevelOfDetail.RefinementStalls | Core/Controllers/mitkRenderingManager.cpp:650-660 | without a 3D window, when blocked, or at the maximum, the LOD never moves |
| LevelOfDetail.RefinementBounded | Core/Controllers/mitkRenderingManager.cpp:650-660 | render ends alone keep the LOD between its start and the maximum |
| LevelOfDetail.ShadingIndexInRange | Core/Controllers/mitkRenderingManager.cpp:744 | the corrected check admits only what the written check admits, and only indices inside the shading vector |
| LevelOfDetail.GuardsAgreeWhileMaxFits | Core/Controllers/mitkRenderingManager.cpp:744 | while the maximum fits the vector, both checks agree on non-negative indices |
| LevelOfDetail.AsWrittenGuardAdmitsOutOfRange | Core/Controllers/mitkRenderingManager.cpp:744 | the written check lets index 3 through after SetNumberOfLOD(4), and index -1 by default |
| ViewInitialization.ViewInitializationStepsShape | Core/Controllers/mitkRenderingManager.cpp:536-572 | direction always reset first; geometry set and display fitted iff usable; centring iff usable and 2D; camera reset iff usable and the renderer has a camera |
| ViewInitialization.ViewInitActionsStep | Core/Controllers/mitkRenderingManager.cpp:368-381 | visiting one more window appends its calls when it is selected |
| ViewInitialization.ViewInitActionsCover | Core/Controllers/mitkRenderingManager.cpp:368-381 | only selected windows are touched; every selected one has its direction reset; geometry and camera exactly as usability and the renderer allow |
| ViewInitialization.UnusableGeometryOnlyResetsDirections | Core/Controllers/mitkRenderingManager.cpp:408-427 | with no usable geometry, only direction resets and slicer updates happen |
| ViewInitialization.TimeControllerActionsShape | Core/Controllers/mitkRenderingManager.cpp:383-390 | no calls without a controller; with one, the geometry only when usable and wanted, and always an update |
| NavigationSliceVisualization.NavigationDataSliceVisualization.constructor | Modules/IGT/IGTFilters/mitkNavigationDataSliceVisualization.cpp:12-35 | no renderer, orthogonal slicing, no volume, both flags up, slice 0 with axes (1,0,0) and (0,1,0) saved |
| NavigationSliceVisualization.NavigationDataSliceVisualization.SetRenderer | Modules/IGT/IGTFilters/mitkNavigationDataSliceVisualization.h:57 | a renderer is attached, or detached by a null one so that the next update fails; the filter state is otherwise unchanged |
| NavigationSliceVisualization.NavigationDataSliceVisualization.SetTrackingVolume | Modules/IGT/IGTFilters/mitkNavigationDataSliceVisualization.h:116 | sets or clears the volume and changes nothing else |
| NavigationSliceVisualization.NavigationDataSliceVisualization.SetSliceOrientation | Modules/IGT/IGTFilters/mitkNavigationDataSliceVisualization.cpp:90-111 | sets the orientation that update reads and changes nothing else |
| NavigationSliceVisualization.NavigationDataSliceVisualization.SaveLastUserSelectedSlice | Modules/IGT/IGTFilters/mitkNavigationDataSliceVisualization.cpp:122-129 | the controller's slice index and axes become the saved ones; nothing else changes |
| NavigationSliceVisualization.NavigationDataSliceVisualization.RestoreLastUserSelectedSlice | Modules/IGT/IGTFilters/mitkNavigationDataSliceVisualization.cpp:131-140 | the controller shows the saved index and axes; one redraw is requested; the flags are untouched |
| NavigationSliceVisualization.NavigationDataSliceVisualization.CreateOutputsForAllInputs | Modules/IGT/IGTFilters/mitkNavigationDataSliceVisualization.cpp:52-55 | there is one output per input, so `GetOutput(i)` exists for every input the update walks; existing outputs are kept and new ones hold invalid data |
| NavigationSliceVisualization.NavigationDataSliceVisualization.GenerateData | Modules/IGT/IGTFilters/mitkNavigationDataSliceVisualization.cpp:37-120 | without a renderer, fails and changes nothing; with a renderer but no input, fails after the first-update save; otherwise valid inputs are grafted to their outputs and the state follows Step on the primary input |
| NavigationSliceVisualization.GraftValid | Modules/IGT/IGTFilters/mitkNavigationDataSliceVisualization.cpp:52-64 | each valid input is copied to its output; the outputs of invalid inputs are kept |
| NavigationSliceVisualization.NormalToTipAxesPerpendicular | Modules/IGT/IGTFilters/mitkNavigationDataSliceVisualization.cpp:96-106 | both axes of the tool-normal plane are perpendicular to the projection; the y axis is also perpendicular to the user's x axis |
| NavigationSliceVisualization.CrossPerpendicular | Modules/IGT/IGTFilters/mitkNavigationDataSliceVisualization.cpp:101-103 | a cross product is perpendicular to both factors |
| NavigationSliceVisualization.FollowToolShape | Modules/IGT/IGTFilters/mitkNavigationDataSliceVisualization.cpp:90-111 | orthogonal mode moves only the index to the tip's slice; tool-normal mode turns the plane normal to the tool through the tip; other modes move nothing |
| NavigationSliceVisualization.FirstUpdateSavesUserSlice | Modules/IGT/IGTFilters/mitkNavigationDataSliceVisualization.cpp:45-49 | every update leaves the first-update flag down; any first update saves the user's slice, whatever the sample and the just-exceeded flag; later updates save only on entering |
| NavigationSliceVisualization.InvalidPrimaryKeepsView | Modules/IGT/IGTFilters/mitkNavigationDataSliceVisualization.cpp:66-68 | an invalid primary input moves nothing, flips no flag and requests no redraw |
| NavigationSliceVisualization.EnteringSavesSlice | Modules/IGT/IGTFilters/mitkNavigationDataSliceVisualization.cpp:74-82 | on entering, the flag goes up and the user's slice is saved |
| NavigationSliceVisualization.InsideFollowsTool | Modules/IGT/IGTFilters/mitkNavigationDataSliceVisualization.cpp:74-114 | every valid inside sample follows the tool, keeps the flag up and requests exactly one redraw; the saved slice stays while the flag was already up |
| NavigationSliceVisualization.LeavingRestoresSlice | Modules/IGT/IGTFilters/mitkNavigationDataSliceVisualization.cpp:115-119 | the first valid outside sample lowers the flag, restores the saved slice and requests one redraw |
| NavigationSliceVisualization.OutsideIdle | Modules/IGT/IGTFilters/mitkNavigationDataSliceVisualization.cpp:115-119 | further outside samples change nothing |
| NavigationSliceVisualization.SaveRestoreRoundTrip | Modules/IGT/IGTFilters/mitkNavigationDataSliceVisualization.cpp:122-140 | restore after save gives the controller back its slice and touches neither flag |
| NavigationSliceVisualization.FirstUpdateOutsideKeepsView | Modules/IGT/IGTFilters/mitkNavigationDataSliceVisualization.cpp:16-17 | a fresh filter whose first sample is outside saves and at once restores: the view stays |
| NavigationSliceVisualization.RunSnoc | Modules/IGT/IGTFilters/mitkNavigationDataSliceVisualization.cpp:37-120 | one more update after a run is one more step |
| NavigationSliceVisualization.InsideRunKeepsSaved | Modules/IGT/IGTFilters/mitkNavigationDataSliceVisualization.cpp:74-82 | while samples are inside or invalid, the flag stays up and the saved slice stays put |
| NavigationSliceVisualization.ExcursionRestoresView | Modules/IGT/IGTFilters/mitkNavigationDataSliceVisualization.cpp:74-119 | enter, any inside or invalid samples, leave: the controller again shows the user's slice and the filter is idle |
| NavigationSliceVisualization.InsideThenOutside | Modules/IGT/IGTFilters/mitkNavigationDataSliceVisualization.cpp:37-119 | through the filter's own methods: a fresh filter with a renderer and a tracking volume, given one inside and then one outside sample, passes both updates, requests two redraws and shows the user's slice again |

## Left out

- Singleton and factory plumbing (`GetInstance`, `SetFactory`, `New`) and the getters: there is no behaviour to state.
- The clipping-plane flag and its accessors, which are plain storage.
- The renderer observers that AddRenderWindow attaches: the callbacks are separate methods here, invoked by the caller.
- `Render()` runs synchronously and never calls back into the manager. The timer's asynchronous firing is not modelled.
- Re-entrant callbacks during a render: in the source a render may raise the start and end events before `Render()` returns. That concurrency is out.
- Geometry: the bounding-box construction, the time-sliced geometry, the `GetDiagonalLength2() > eps` test and the DataTree walk. "Geometry usable" is a boolean input.
- VTK's global warning toggle.
- The overloads of `InitializeViews` and `InitializeView` that take a DataTree iterator or a data storage. They only compute a geometry and then delegate.
- The request type is an `unsigned int` in the source; an enumeration here. Any other value selects nothing in the source, and this model cannot express it.
- Window identity is an integer address. The map walks windows in address order, and so does the model, whatever the registration order.
- The walk functions of `RenderWindows` skip keys that are not in the map. No walk over a map's own key order ever meets one.
- The ints `m_CurrentLOD`, `m_MaxLOD` and `m_NumberOf3DRW` are unbounded. The end callback raises the level only while it is below the maximum, and the 3D count never exceeds the number of windows, so neither can wrap.
- RenderingManagement.RenderingManager.SetNumberOfLOD: `number - 1` is computed in `int` in the source and overflows for `INT_MIN`; the model stores the unbounded `number - 1` instead.
- Shading values are `real`, not single-precision floats.
- The 3D-window count is refreshed only by CheckUpdatePending, and so can be stale. The model keeps this: the end callback reads the stored count.
- NavigationDataSliceVisualization:
  - Quaternion rotation of the tip offset and of the direction of projection is out of the model. Each sample carries the rotated projection and the slice index the controller would select.
  - After ReorientSlices, the controller's axes are taken to be exactly the vectors passed in. Scaling by the geometry's extent is out.
  - The ellipse, sphere and box tracking volumes (`SetSphereTrackingVolume`, `SetEllipseTrackingVolume`, `SetBoxTrackingVolumeVolume`, `.cpp:142-200`) are out. They are ITK spatial-object construction and floating point. The volume is present or absent, and each sample says whether it lies inside.
  - The header declares `m_ViewDirection` and `SetBoxTrackingVolume`, but the implementation uses `m_SliceOrientation` and `SetBoxTrackingVolumeVolume`. The model follows the implementation.
  - The error log for an unsupported orientation is not modelled: no slice moves and a redraw is still requested.
  - The `modified` notification on the controller is not modelled.
  - The tip offset, direction-of-projection and world-up setters are not modelled: their values only feed the geometry, which the samples carry.
- NavigationSliceVisualization.NavigationDataSliceVisualization.GenerateData: the renderer check raises an exception in the source; here it returns `Fail(RendererNotSet)`. With a renderer and no input, the source dereferences a null primary input, which is undefined behaviour; here it returns `Fail(MissingPrimaryInput)`.
- RenderingManagement.RenderingManager.AddRenderWindow: the source accepts a window without a BaseRenderer, only skipping the observers. Every `GetMapperID` call site then dereferences that window's null renderer to get its mapper ID: CheckUpdatePending, RequestUpdateAll, ForceImmediateUpdateAll, InitializeViews, InitializeViewsWithoutGeometry, InitializeView and InitializeViewWithoutGeometry. Here every window has a mapper ID (`MapperId` is total), so that crash is not modelled.
- RenderingManagement.RenderingManager.constructor: the source never initialises `m_LastUpdatedRW` and only ever writes it; the model starts it at `None` where the source leaves it indeterminate.
- NavigationSliceVisualization.NavigationDataSliceVisualization.CreateOutputsForAllInputs: stands in for the filter base class, which is not part of this model; only the number of outputs and their contents are modelled, not the pipeline objects.

## Findings

| source | as written | input that shows it | evidently intended | confidence | as-written member | corrected member |
|---|---|---|---|---|---|---|
| Core/Controllers/mitkRenderingManager.cpp:744 | `SetShading`/`GetShading` reject only `lod > m_MaxLOD` before indexing the 3-slot `m_ShadingEnabled` | `SetNumberOfLOD(4)` then `SetShading(true, 3)`; or `GetShading(-1)` with the default maximum | the index must lie within the shading vector: `0 <= lod <= m_MaxLOD` and `lod < 3` | high, not executed | LevelOfDetail.AsWrittenGuardAdmitsOutOfRange | LevelOfDetail.ShadingIndexInRange |
| Core/Controllers/mitkRenderingManager.cpp:296-302 | `ForceImmediateUpdateAll` stops the timer whenever something was pending, then CheckUpdatePending sets the pending flag again if a non-selected window is still Requested | a 2D window 1 and a 3D window 2 are both Requested; then `ForceImmediateUpdateAll(3D windows)` | as in ForceImmediateUpdate (`:231-235`): stop the timer only when no request remains, so the remaining request is still serviced | medium, not executed | RenderingManagement.StrandedRequestAfterScopedForce | RenderingManagement.ScopedForceKeepsTimer |
