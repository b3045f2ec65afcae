/**
 * What (re)initialising the views does to each window's slice navigation
 * controller, renderer and camera, and to the global time controller, as a
 * list of the calls made. The bounding geometry itself is out of the model:
 * the only thing about it that steers the control flow is whether it is
 * usable (present, with a squared diagonal above the epsilon threshold).
 */
module ViewInitialization {
  import opened RenderWindows

  /** One call into a window's view machinery or into the time controller. */
  datatype ViewAction =
    | SetViewDirectionToDefault(window: Window)
    | SetInputWorldGeometry(window: Window)
    | UpdateSlicer(window: Window)
    | CenterSlice(window: Window)        // slice position := number of steps / 2
    | FitDisplayGeometry(window: Window)
    | ResetCamera(window: Window)
    | TimeSetInputWorldGeometry
    | TimeUpdate
    | ViewsInitializedEvent
  {
    /** Is this a call on the view machinery of window `w`? */
    predicate IsFor(w: Window)
    {
      !TimeSetInputWorldGeometry? && !TimeUpdate? && !ViewsInitializedEvent? && window == w
    }
  }

  /** The calls the internal view initialisation makes for one window. */
  function ViewInitializationSteps(w: Window, boundingBoxInitialized: bool, mapperId: int, hasVtkRenderer: bool): seq<ViewAction>
  {
    [SetViewDirectionToDefault(w)] +
    if boundingBoxInitialized then
      [SetInputWorldGeometry(w), UpdateSlicer(w)]
      + (if mapperId == Mapper2D then [CenterSlice(w)] else [])
      + [FitDisplayGeometry(w)]
      + (if hasVtkRenderer then [ResetCamera(w)] else [])
    else
      [UpdateSlicer(w)]
  }

  /** One window's initialisation starts by resetting its view direction,
      touches only that window and always updates its slicer; the world
      geometry is set and the display geometry fitted exactly when the
      bounding box is usable, the slice centred exactly when in addition the
      window is 2D, and the camera reset exactly when in addition the
      renderer has one. */
  lemma ViewInitializationStepsShape(w: Window, boundingBoxInitialized: bool, mapperId: int, hasVtkRenderer: bool)
    ensures var r := ViewInitializationSteps(w, boundingBoxInitialized, mapperId, hasVtkRenderer);
      && |r| >= 2 && r[0] == SetViewDirectionToDefault(w)
      && (forall a :: a in r ==> a.IsFor(w))
      && UpdateSlicer(w) in r
      && (SetInputWorldGeometry(w) in r <==> boundingBoxInitialized)
      && (FitDisplayGeometry(w) in r <==> boundingBoxInitialized)
      && (CenterSlice(w) in r <==> boundingBoxInitialized && mapperId == Mapper2D)
      && (ResetCamera(w) in r <==> boundingBoxInitialized && hasVtkRenderer)
  {
    var r := ViewInitializationSteps(w, boundingBoxInitialized, mapperId, hasVtkRenderer);
    if boundingBoxInitialized {
      assert r[1] == SetInputWorldGeometry(w) && r[2] == UpdateSlicer(w);
    } else {
      assert r[1] == UpdateSlicer(w);
    }
  }

  /** The calls made for every window of `keys`, in that order, that the
      request type selects. */
  function ViewInitActions(keys: seq<Window>, requestType: RequestType, boundingBoxInitialized: bool,
                           mapperId: Window -> int, hasVtkRenderer: Window -> bool): seq<ViewAction>
  {
    if keys == [] then []
    else
      var last := keys[|keys| - 1];
      ViewInitActions(keys[..|keys| - 1], requestType, boundingBoxInitialized, mapperId, hasVtkRenderer)
      + (if Matches(requestType, mapperId(last))
         then ViewInitializationSteps(last, boundingBoxInitialized, mapperId(last), hasVtkRenderer(last))
         else [])
  }

  /** Walking one window further appends that window's calls when the
      request type selects it. */
  lemma ViewInitActionsStep(keys: seq<Window>, i: int, requestType: RequestType, boundingBoxInitialized: bool,
                            mapperId: Window -> int, hasVtkRenderer: Window -> bool)
    requires 0 <= i < |keys|
    ensures ViewInitActions(keys[..i + 1], requestType, boundingBoxInitialized, mapperId, hasVtkRenderer)
         == ViewInitActions(keys[..i], requestType, boundingBoxInitialized, mapperId, hasVtkRenderer)
            + (if Matches(requestType, mapperId(keys[i]))
               then ViewInitializationSteps(keys[i], boundingBoxInitialized, mapperId(keys[i]), hasVtkRenderer(keys[i]))
               else [])
  {
    assert keys[..i + 1][..i] == keys[..i];
  }

  /** Every selected window has its view direction reset; only selected
      windows are touched; world geometry is set and the camera is reset
      exactly for the selected windows when the geometry is usable (the
      camera only where the renderer has one). */
  lemma {:induction false} ViewInitActionsCover(keys: seq<Window>, requestType: RequestType, boundingBoxInitialized: bool,
                                                mapperId: Window -> int, hasVtkRenderer: Window -> bool)
    ensures var acts := ViewInitActions(keys, requestType, boundingBoxInitialized, mapperId, hasVtkRenderer);
      && (forall a :: a in acts ==> exists k :: k in keys && Matches(requestType, mapperId(k)) && a.IsFor(k))
      && (forall k :: SetViewDirectionToDefault(k) in acts <==> k in keys && Matches(requestType, mapperId(k)))
      && (forall k :: SetInputWorldGeometry(k) in acts <==> boundingBoxInitialized && k in keys && Matches(requestType, mapperId(k)))
      && (forall k :: ResetCamera(k) in acts <==> boundingBoxInitialized && hasVtkRenderer(k) && k in keys && Matches(requestType, mapperId(k)))
  {
    if keys != [] {
      var init := keys[..|keys| - 1];
      var last := keys[|keys| - 1];
      ViewInitActionsCover(init, requestType, boundingBoxInitialized, mapperId, hasVtkRenderer);
      assert forall k :: k in keys <==> k in init || k == last;
      var before := ViewInitActions(init, requestType, boundingBoxInitialized, mapperId, hasVtkRenderer);
      ViewInitializationStepsShape(last, boundingBoxInitialized, mapperId(last), hasVtkRenderer(last));
      var added := if Matches(requestType, mapperId(last))
                   then ViewInitializationSteps(last, boundingBoxInitialized, mapperId(last), hasVtkRenderer(last))
                   else [];
      assert ViewInitActions(keys, requestType, boundingBoxInitialized, mapperId, hasVtkRenderer) == before + added;
      forall k
        ensures SetViewDirectionToDefault(k) in added <==> k == last && Matches(requestType, mapperId(k))
        ensures SetInputWorldGeometry(k) in added <==> boundingBoxInitialized && k == last && Matches(requestType, mapperId(k))
        ensures ResetCamera(k) in added <==> boundingBoxInitialized && hasVtkRenderer(k) && k == last && Matches(requestType, mapperId(k))
      {
        if SetViewDirectionToDefault(k) in added { assert SetViewDirectionToDefault(k).IsFor(last); }
        if SetInputWorldGeometry(k) in added { assert SetInputWorldGeometry(k).IsFor(last); }
        if ResetCamera(k) in added { assert ResetCamera(k).IsFor(last); }
      }
    }
  }

  /** With an unusable geometry the views only get their default direction
      back: no world geometry, no centring, no fitting, no camera reset. */
  lemma {:induction false} UnusableGeometryOnlyResetsDirections(keys: seq<Window>, requestType: RequestType,
                                                                mapperId: Window -> int, hasVtkRenderer: Window -> bool)
    ensures forall a :: a in ViewInitActions(keys, requestType, false, mapperId, hasVtkRenderer) ==>
      a.SetViewDirectionToDefault? || a.UpdateSlicer?
  {
    if keys != [] {
      UnusableGeometryOnlyResetsDirections(keys[..|keys| - 1], requestType, mapperId, hasVtkRenderer);
    }
  }

  /** The calls made on the global time controller. */
  function TimeControllerActions(controllerSet: bool, boundingBoxInitialized: bool, propagate: bool): seq<ViewAction>
  {
    if !controllerSet then []
    else (if boundingBoxInitialized && propagate then [TimeSetInputWorldGeometry] else []) + [TimeUpdate]
  }

  /** None without a time controller; with one, the geometry is handed over
      only when usable and wanted, and the controller is always updated. */
  lemma TimeControllerActionsShape(controllerSet: bool, boundingBoxInitialized: bool, propagate: bool)
    ensures var r := TimeControllerActions(controllerSet, boundingBoxInitialized, propagate);
      && (TimeUpdate in r <==> controllerSet)
      && (TimeSetInputWorldGeometry in r <==> controllerSet && boundingBoxInitialized && propagate)
      && (forall a :: a in r ==> a.TimeUpdate? || a.TimeSetInputWorldGeometry?)
  {
  }
}
