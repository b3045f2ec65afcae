/**
 * The navigation-data slice visualisation filter: while a tracked tool is
 * inside the tracking volume (or no volume is set) the renderer's slice
 * follows the tool tip; when the tool leaves the volume the slice the user
 * had selected before the tool came in is put back.
 *
 * Geometry is reduced to what steers the control flow: each navigation
 * datum says whether it is valid, whether its position lies inside the
 * tracking volume, which slice index the controller selects for the
 * (offset) tool tip, and the tool's direction of projection already
 * rotated by the tool's orientation. The renderer's slice navigation
 * controller is a slice index plus the two in-plane axis vectors.
 */
module NavigationSliceVisualization {
  import opened Wrappers

  datatype Vector = Vector(x: real, y: real, z: real)

  function Dot(a: Vector, b: Vector): real
  {
    a.x * b.x + a.y * b.y + a.z * b.z
  }

  function Cross(a: Vector, b: Vector): Vector
  {
    Vector(a.y * b.z - a.z * b.y, a.z * b.x - a.x * b.z, a.x * b.y - a.y * b.x)
  }

  /** The two in-plane axes of a slice geometry. */
  datatype SliceAxes = SliceAxes(first: Vector, second: Vector)

  /** What a slice navigation controller shows: a slice index and the axes
      of the sliced plane. Also what the filter saves of the user's choice. */
  datatype SliceView = SliceView(pos: nat, axes: SliceAxes)

  /** The axes the filter starts with as the last user-selected ones. */
  const DefaultAxes: SliceAxes := SliceAxes(Vector(1.0, 0.0, 0.0), Vector(0.0, 1.0, 0.0))

  datatype SliceOrientation =
    | SliceOrtho
    | SliceNormalToToolTip
    | UnsupportedOrientation(code: int)

  /** One tracked tool sample, with its geometry already evaluated. */
  datatype NavigationData = NavigationData(
    dataValid: bool,
    /** Does the tool position lie inside the tracking volume? */
    inside: bool,
    /** The slice index the controller selects for the tool tip plus offset. */
    tipSlice: nat,
    /** The direction of projection rotated by the tool's orientation. */
    projection: Vector)

  /** A newly created output: no valid navigation data yet. */
  const EmptyOutput: NavigationData := NavigationData(false, false, 0, Vector(0.0, 0.0, 0.0))

  /** Why an update cannot go through: no renderer is attached, or there is
      no primary input to read (the source dereferences a null pointer
      there). */
  datatype FilterError = RendererNotSet | MissingPrimaryInput

  /** The filter's save/restore state together with the controller it drives. */
  datatype FilterState = FilterState(
    firstUpdate: bool,
    justExceeded: bool,
    /** The last user-selected slice index and axes. */
    saved: SliceView,
    /** The renderer's slice navigation controller. */
    view: SliceView,
    /** RequestUpdate calls made on the renderer. */
    updateRequests: nat)

  /** A freshly constructed filter whose renderer shows `view`. */
  function Initial(view: SliceView): FilterState
  {
    FilterState(true, true, SliceView(0, DefaultAxes), view, 0)
  }

  /** Does the filter follow the tool with this sample (no volume, or inside it)? */
  predicate Tracking(volumeSet: bool, nd: NavigationData)
  {
    !volumeSet || nd.inside
  }

  /** Remember the controller's current slice as the user's. */
  function Save(s: FilterState): FilterState
  {
    s.(saved := s.view)
  }

  /** Put the user's slice back on the controller and ask for a redraw. */
  function Restore(s: FilterState): FilterState
  {
    s.(view := s.saved, updateRequests := s.updateRequests + 1)
  }

  /** Axes of the plane normal to the tool: its y axis is normal to the
      projection and the user's x axis, its x axis completes the frame. */
  function NormalToTipAxes(projection: Vector, userX: Vector): SliceAxes
  {
    var yAxis := Cross(projection, userX);
    SliceAxes(Cross(yAxis, projection), yAxis)
  }

  /** Both axes of the tool-normal plane are perpendicular to the projection
      direction, and the second one to the user's x axis as well. */
  lemma NormalToTipAxesPerpendicular(projection: Vector, userX: Vector)
    ensures var axes := NormalToTipAxes(projection, userX);
      && Dot(axes.first, projection) == 0.0
      && Dot(axes.second, projection) == 0.0
      && Dot(axes.second, userX) == 0.0
  {
    var y := Cross(projection, userX);
    CrossPerpendicular(projection, userX);
    CrossPerpendicular(y, projection);
  }

  lemma CrossPerpendicular(a: Vector, b: Vector)
    ensures Dot(Cross(a, b), a) == 0.0 && Dot(Cross(a, b), b) == 0.0
  {
    var c := Cross(a, b);
    calc {
      Dot(c, a);
      (a.y * b.z - a.z * b.y) * a.x + (a.z * b.x - a.x * b.z) * a.y + (a.x * b.y - a.y * b.x) * a.z;
      a.x * a.y * b.z - a.x * a.z * b.y + a.y * a.z * b.x - a.x * a.y * b.z + a.x * a.z * b.y - a.y * a.z * b.x;
      0.0;
    }
    calc {
      Dot(c, b);
      (a.y * b.z - a.z * b.y) * b.x + (a.z * b.x - a.x * b.z) * b.y + (a.x * b.y - a.y * b.x) * b.z;
      a.y * b.x * b.z - a.z * b.x * b.y + a.z * b.x * b.y - a.x * b.y * b.z + a.x * b.y * b.z - a.y * b.x * b.z;
      0.0;
    }
  }

  /** Where the controller goes when it follows the tool. */
  function FollowTool(view: SliceView, orientation: SliceOrientation, nd: NavigationData, userAxes: SliceAxes): SliceView
  {
    match orientation
    case SliceOrtho => view.(pos := nd.tipSlice)
    case SliceNormalToToolTip => SliceView(nd.tipSlice, NormalToTipAxes(nd.projection, userAxes.first))
    case UnsupportedOrientation(_) => view
  }

  /** In orthogonal mode only the slice index moves, to the tip's slice; in
      tool-normal mode the plane is turned normal to the tool and passes
      through the tip; any other orientation moves nothing. */
  lemma FollowToolShape(view: SliceView, orientation: SliceOrientation, nd: NavigationData, userAxes: SliceAxes)
    ensures var v := FollowTool(view, orientation, nd, userAxes);
      && (orientation.SliceOrtho? ==> v.pos == nd.tipSlice && v.axes == view.axes)
      && (orientation.SliceNormalToToolTip? ==> v.pos == nd.tipSlice && v.axes == NormalToTipAxes(nd.projection, userAxes.first))
      && (orientation.UnsupportedOrientation? ==> v == view)
  {
  }

  /** The first-update bookkeeping at the head of every update. */
  function BeginUpdate(s: FilterState): FilterState
  {
    if s.firstUpdate then Save(s.(firstUpdate := false)) else s
  }

  /** The enter/exit state machine driven by the primary sample. */
  function Track(s: FilterState, orientation: SliceOrientation, volumeSet: bool, nd: NavigationData): FilterState
  {
    if !nd.dataValid then s
    else if Tracking(volumeSet, nd) then
      var t := if !s.justExceeded then Save(s.(justExceeded := true)) else s;
      t.(view := FollowTool(t.view, orientation, nd, t.saved.axes), updateRequests := t.updateRequests + 1)
    else if s.justExceeded then Restore(s.(justExceeded := false))
    else s
  }

  /** One update of the filter with primary sample `nd` (renderer set). */
  function Step(s: FilterState, orientation: SliceOrientation, volumeSet: bool, nd: NavigationData): FilterState
  {
    Track(BeginUpdate(s), orientation, volumeSet, nd)
  }

  /** Updates with the primary samples `samples`, in that order. */
  function Run(s: FilterState, orientation: SliceOrientation, volumeSet: bool, samples: seq<NavigationData>): FilterState
    decreases |samples|
  {
    if samples == [] then s
    else Run(Step(s, orientation, volumeSet, samples[0]), orientation, volumeSet, samples[1..])
  }

  /** Every update leaves the first-update flag down. A first update saves
      the slice the user was looking at, whatever the sample and the
      just-exceeded flag; any later update changes the saved slice only on
      entering. */
  lemma FirstUpdateSavesUserSlice(s: FilterState, orientation: SliceOrientation, volumeSet: bool, nd: NavigationData)
    ensures var r := Step(s, orientation, volumeSet, nd);
      && !r.firstUpdate
      && (s.firstUpdate ==> r.saved == s.view)
      && (!s.firstUpdate && !(nd.dataValid && Tracking(volumeSet, nd) && !s.justExceeded) ==> r.saved == s.saved)
  {
  }

  /** An invalid primary sample moves no slice, flips no flag and asks for
      no redraw. */
  lemma InvalidPrimaryKeepsView(s: FilterState, orientation: SliceOrientation, volumeSet: bool, nd: NavigationData)
    requires !nd.dataValid
    ensures var r := Step(s, orientation, volumeSet, nd);
      && r.view == s.view && r.justExceeded == s.justExceeded && r.updateRequests == s.updateRequests
  {
  }

  /** A valid sample inside the volume (or with none) after the tool was
      outside raises the flag and saves the slice the user had. */
  lemma EnteringSavesSlice(s: FilterState, orientation: SliceOrientation, volumeSet: bool, nd: NavigationData)
    requires nd.dataValid && Tracking(volumeSet, nd) && !s.justExceeded
    ensures var r := Step(s, orientation, volumeSet, nd);
      r.justExceeded && r.saved == s.view
  {
  }

  /** Every valid sample inside the volume (or with none) moves the
      controller after the tool, leaves the flag raised and asks for exactly
      one redraw; while the flag was already up and the first update is past,
      the saved slice stays put. */
  lemma InsideFollowsTool(s: FilterState, orientation: SliceOrientation, volumeSet: bool, nd: NavigationData)
    requires nd.dataValid && Tracking(volumeSet, nd)
    ensures var r := Step(s, orientation, volumeSet, nd);
      && r.justExceeded
      && r.updateRequests == s.updateRequests + 1
      && r.view == FollowTool(s.view, orientation, nd, r.saved.axes)
      && (s.justExceeded && !s.firstUpdate ==> r.saved == s.saved)
  {
  }

  /** The first valid sample outside the volume lowers the flag, puts the
      saved slice back on the controller and asks for one redraw. */
  lemma LeavingRestoresSlice(s: FilterState, orientation: SliceOrientation, volumeSet: bool, nd: NavigationData)
    requires nd.dataValid && !Tracking(volumeSet, nd) && s.justExceeded
    ensures var r := Step(s, orientation, volumeSet, nd);
      && !r.justExceeded
      && r.view == r.saved
      && r.saved == (if s.firstUpdate then s.view else s.saved)
      && r.updateRequests == s.updateRequests + 1
  {
  }

  /** Further valid samples outside the volume change nothing (beyond the
      first-update save). */
  lemma OutsideIdle(s: FilterState, orientation: SliceOrientation, volumeSet: bool, nd: NavigationData)
    requires nd.dataValid && !Tracking(volumeSet, nd) && !s.justExceeded
    ensures var r := Step(s, orientation, volumeSet, nd);
      && r.view == s.view && !r.justExceeded && r.updateRequests == s.updateRequests
      && (!s.firstUpdate ==> r == s)
  {
  }

  /** Restoring right after saving gives the controller back the slice it
      showed, and touches neither flag. */
  lemma SaveRestoreRoundTrip(s: FilterState)
    ensures var r := Restore(Save(s));
      && r.view == s.view && r.saved == s.view
      && r.firstUpdate == s.firstUpdate && r.justExceeded == s.justExceeded
  {
  }

  /** A fresh filter whose first valid sample is outside the volume saves
      and at once restores the user's slice: the view does not move. */
  lemma FirstUpdateOutsideKeepsView(view: SliceView, orientation: SliceOrientation, nd: NavigationData)
    requires nd.dataValid && !Tracking(true, nd)
    ensures var r := Step(Initial(view), orientation, true, nd);
      r.view == view && r.saved == view && !r.justExceeded && !r.firstUpdate
  {
  }

  lemma {:induction false} RunSnoc(s: FilterState, orientation: SliceOrientation, volumeSet: bool,
                                   samples: seq<NavigationData>, last: NavigationData)
    ensures Run(s, orientation, volumeSet, samples + [last])
         == Step(Run(s, orientation, volumeSet, samples), orientation, volumeSet, last)
    decreases |samples|
  {
    if samples == [] {
      assert [] + [last] == [last];
    } else {
      assert (samples + [last])[1..] == samples[1..] + [last];
      RunSnoc(Step(s, orientation, volumeSet, samples[0]), orientation, volumeSet, samples[1..], last);
    }
  }

  /** While every sample is invalid or inside, a filter past its first
      update with the flag raised keeps the flag and the saved slice. */
  lemma {:induction false} InsideRunKeepsSaved(s: FilterState, orientation: SliceOrientation, volumeSet: bool,
                                              samples: seq<NavigationData>)
    requires !s.firstUpdate && s.justExceeded
    requires forall j :: 0 <= j < |samples| ==> !samples[j].dataValid || Tracking(volumeSet, samples[j])
    ensures var r := Run(s, orientation, volumeSet, samples);
      !r.firstUpdate && r.justExceeded && r.saved == s.saved && r.updateRequests >= s.updateRequests
    decreases |samples|
  {
    if samples != [] {
      var t := Step(s, orientation, volumeSet, samples[0]);
      assert t.saved == s.saved && t.justExceeded && !t.firstUpdate;
      InsideRunKeepsSaved(t, orientation, volumeSet, samples[1..]);
    }
  }

  /** A full excursion: the tool enters the volume, is followed for a while
      (samples inside or invalid), then leaves. Afterwards the controller
      shows exactly the slice the user had before the tool came in, and the
      filter is back in its idle state. */
  lemma {:induction false} ExcursionRestoresView(s: FilterState, orientation: SliceOrientation, volumeSet: bool,
                                                enter: NavigationData, middle: seq<NavigationData>, leave: NavigationData)
    requires !s.firstUpdate && !s.justExceeded
    requires enter.dataValid && Tracking(volumeSet, enter)
    requires forall j :: 0 <= j < |middle| ==> !middle[j].dataValid || Tracking(volumeSet, middle[j])
    requires leave.dataValid && !Tracking(volumeSet, leave)
    ensures var r := Run(s, orientation, volumeSet, [enter] + middle + [leave]);
      && r.view == s.view && r.saved == s.view
      && !r.justExceeded && !r.firstUpdate
      && r.updateRequests >= s.updateRequests + 2
  {
    var t := Step(s, orientation, volumeSet, enter);
    assert t.saved == s.view && t.justExceeded && !t.firstUpdate && t.updateRequests == s.updateRequests + 1;
    assert ([enter] + middle + [leave])[1..] == middle + [leave];
    RunSnoc(t, orientation, volumeSet, middle, leave);
    InsideRunKeepsSaved(t, orientation, volumeSet, middle);
  }

  /** The outputs after the graft loop: each valid input copied onto its
      output, the outputs of invalid inputs left as they were. */
  method GraftValid(inputs: seq<NavigationData>, outputs: seq<NavigationData>) returns (r: seq<NavigationData>)
    requires |outputs| == |inputs|
    ensures |r| == |inputs|
    ensures forall i :: 0 <= i < |inputs| ==> r[i] == (if inputs[i].dataValid then inputs[i] else outputs[i])
  {
    r := outputs;
    var i := 0;
    while i < |inputs|
      invariant 0 <= i <= |inputs| && |r| == |inputs|
      invariant forall j :: 0 <= j < i ==> r[j] == (if inputs[j].dataValid then inputs[j] else outputs[j])
      invariant forall j :: i <= j < |inputs| ==> r[j] == outputs[j]
    {
      if inputs[i].dataValid {
        r := r[i := inputs[i]];
      }
      i := i + 1;
    }
  }

  class NavigationDataSliceVisualization {
    var rendererSet: bool
    var sliceOrientation: SliceOrientation
    var trackingVolumeSet: bool
    var justExceededTrackingVolume: bool
    var firstUpdate: bool
    var lastUserSelectedSlice: nat
    var lastUserSelectedSliceAxes: SliceAxes
    /** The renderer's slice navigation controller. */
    var view: SliceView
    /** RequestUpdate calls made on the renderer. */
    var updateRequests: nat
    var outputs: seq<NavigationData>

    /** The save/restore state and the controller, as one value. */
    ghost function State(): FilterState
      reads this
    {
      FilterState(firstUpdate, justExceededTrackingVolume,
                  SliceView(lastUserSelectedSlice, lastUserSelectedSliceAxes), view, updateRequests)
    }

    /** Renderer, orientation, tracking volume and outputs are as before. */
    twostate predicate SetupUnchanged()
      reads this
    {
      && rendererSet == old(rendererSet)
      && sliceOrientation == old(sliceOrientation)
      && trackingVolumeSet == old(trackingVolumeSet)
      && outputs == old(outputs)
    }

    /** No renderer, orthogonal slicing, no tracking volume, both flags up,
        slice 0 with the standard x and y axes saved. */
    constructor()
      ensures !rendererSet && sliceOrientation == SliceOrtho && !trackingVolumeSet && outputs == []
      ensures State() == Initial(view)
    {
      rendererSet := false;
      sliceOrientation := SliceOrtho;
      trackingVolumeSet := false;
      justExceededTrackingVolume := true;
      firstUpdate := true;
      lastUserSelectedSlice := 0;
      lastUserSelectedSliceAxes := DefaultAxes;
      view := SliceView(0, DefaultAxes);
      updateRequests := 0;
      outputs := [];
    }

    /** Attach a renderer whose slice navigation controller shows the given
        view, or detach it with None (a null renderer). */
    method SetRenderer(renderer: Option<SliceView>)
      modifies this
      ensures rendererSet == renderer.Some?
      ensures sliceOrientation == old(sliceOrientation) && trackingVolumeSet == old(trackingVolumeSet)
      ensures outputs == old(outputs)
      ensures renderer.Some? ==> State() == old(State()).(view := renderer.value)
      ensures renderer.None? ==> State() == old(State())
    {
      rendererSet := renderer.Some?;
      if renderer.Some? {
        view := renderer.value;
      }
    }

    /** Set (true) or clear (false) the tracking volume. */
    method SetTrackingVolume(present: bool)
      modifies this
      ensures trackingVolumeSet == present
      ensures rendererSet == old(rendererSet) && sliceOrientation == old(sliceOrientation) && outputs == old(outputs)
      ensures State() == old(State())
    {
      trackingVolumeSet := present;
    }

    method SetSliceOrientation(orientation: SliceOrientation)
      modifies this
      ensures sliceOrientation == orientation
      ensures rendererSet == old(rendererSet) && trackingVolumeSet == old(trackingVolumeSet) && outputs == old(outputs)
      ensures State() == old(State())
    {
      sliceOrientation := orientation;
    }

    /** Record the controller's slice index and axes as the user's. */
    method SaveLastUserSelectedSlice()
      requires rendererSet
      modifies this
      ensures lastUserSelectedSlice == view.pos && lastUserSelectedSliceAxes == view.axes
      ensures State() == Save(old(State()))
      ensures SetupUnchanged()
    {
      lastUserSelectedSlice := view.pos;
      lastUserSelectedSliceAxes := view.axes;
    }

    /** Turn the controller back to the saved axes and slice index, and ask
        the renderer for a redraw. */
    method RestoreLastUserSelectedSlice()
      requires rendererSet
      modifies this
      ensures view == SliceView(lastUserSelectedSlice, lastUserSelectedSliceAxes)
      ensures State() == Restore(old(State()))
      ensures SetupUnchanged()
    {
      view := SliceView(lastUserSelectedSlice, lastUserSelectedSliceAxes);
      updateRequests := updateRequests + 1;
    }

    /** Make one output per input, as the filter base class does when the
        inputs are set: outputs that already exist are kept, new ones start
        as invalid navigation data, and surplus ones are dropped. */
    method CreateOutputsForAllInputs(numberOfInputs: nat)
      modifies this`outputs
      ensures |outputs| == numberOfInputs
      ensures forall i :: 0 <= i < numberOfInputs ==>
        outputs[i] == (if i < |old(outputs)| then old(outputs)[i] else EmptyOutput)
    {
      if numberOfInputs <= |outputs| {
        outputs := outputs[..numberOfInputs];
      } else {
        outputs := outputs + seq(numberOfInputs - |outputs|, _ => EmptyOutput);
      }
    }

    /** One pipeline update with the current inputs. Without a renderer it
        fails and changes nothing. Otherwise it does the first-update save,
        copies every valid input to its output and, driven by the primary
        input, steps the enter/exit state machine; with no input at all it
        fails after the save, where the source reads a null primary input. */
    method GenerateData(inputs: seq<NavigationData>) returns (r: Outcome<FilterError>)
      requires |outputs| == |inputs|
      modifies this
      ensures !old(rendererSet) ==> r == Fail(RendererNotSet) && unchanged(this)
      ensures old(rendererSet) && inputs == [] ==> r == Fail(MissingPrimaryInput) && State() == BeginUpdate(old(State()))
      ensures old(rendererSet) && inputs != [] ==> r == Pass
      ensures old(rendererSet) && inputs != [] ==> State() == Step(old(State()), sliceOrientation, trackingVolumeSet, inputs[0])
      ensures old(rendererSet) ==> |outputs| == |inputs| && forall i :: 0 <= i < |inputs| ==>
        outputs[i] == (if inputs[i].dataValid then inputs[i] else old(outputs[i]))
      ensures rendererSet == old(rendererSet) && sliceOrientation == old(sliceOrientation)
      ensures trackingVolumeSet == old(trackingVolumeSet)
    {
      if !rendererSet {
        return Fail(RendererNotSet);
      }
      if firstUpdate {
        firstUpdate := false;
        SaveLastUserSelectedSlice();
      }
      outputs := GraftValid(inputs, outputs);
      if inputs == [] {
        return Fail(MissingPrimaryInput);
      }
      r := Pass;
      var primary := inputs[0];
      if !primary.dataValid {
        return;
      }
      if !trackingVolumeSet || primary.inside {
        if !justExceededTrackingVolume {
          justExceededTrackingVolume := true;
          SaveLastUserSelectedSlice();
        }
        // An unsupported orientation is only logged: the controller stays.
        view := FollowTool(view, sliceOrientation, primary, lastUserSelectedSliceAxes);
        updateRequests := updateRequests + 1;
      } else if justExceededTrackingVolume {
        justExceededTrackingVolume := false;
        RestoreLastUserSelectedSlice();
      }
    }
  }

  /** A fresh filter on a renderer showing `userView`, with a tracking
      volume set: one sample inside the volume, then one outside. Both
      updates go through, and afterwards the renderer shows the user's
      slice again. */
  method InsideThenOutside(userView: SliceView, inside: NavigationData, outside: NavigationData)
    returns (first: Outcome<FilterError>, second: Outcome<FilterError>, shown: SliceView, redraws: nat)
    requires inside.dataValid && inside.inside
    requires outside.dataValid && !outside.inside
    ensures first == Pass && second == Pass
    ensures shown == userView
    ensures redraws == 2
  {
    var f := new NavigationDataSliceVisualization();
    f.SetRenderer(Some(userView));
    f.SetTrackingVolume(true);
    f.CreateOutputsForAllInputs(1);
    first := f.GenerateData([inside]);
    second := f.GenerateData([outside]);
    shown, redraws := f.view, f.updateRequests;
  }
}
