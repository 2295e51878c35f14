/** The recorder's letterbox: the captured window is fitted into the canvas by one uniform scale
    and centred.  The fit is computed again only when the size of the picture changes. */
module Letterbox {
  import opened Ratios
  import opened Wrappers

  datatype Size = Size(w: int, h: int) {
    predicate Empty() {
      w < 1 || h < 1
    }
  }

  datatype Rect = Rect(left: int, top: int, w: int, h: int) {
    predicate Empty() {
      w < 1 || h < 1
    }

    function Extent(): Size {
      Size(w, h)
    }
  }

  /** Scale and position of a scene item; dividing by a zero size can leave them infinite or
      undefined. */
  datatype Transform = Placed(scale: real, x: real, y: real) | NonFinite

  /** A new scene item: not scaled, at the origin. */
  const UNSCALED := Placed(1.0, 0.0, 0.0)

  function Fit(base: Size, org: Size): Transform
    requires !base.Empty()
  {
    var bw, bh := base.w as real, base.h as real;
    var ow, oh := org.w as real, org.h as real;
    if org.h == 0 then
      if org.w > 0 then Placed(bw / ow, 0.0, bh / 2.0) else NonFinite
    else if bw / bh >= ow / oh then
      Placed(bh / oh, (bw - bh * (ow / oh)) / 2.0, 0.0)
    else
      RatioNotZero(base, org);
      Placed(bw / ow, 0.0, (bh - bw / (ow / oh)) / 2.0)
  }

  lemma RatioNotZero(base: Size, org: Size)
    requires !base.Empty() && org.h != 0
    requires (base.w as real) / (base.h as real) < (org.w as real) / (org.h as real)
    ensures org.w != 0 && (org.w as real) / (org.h as real) != 0.0
  {
    Positive(base.w as real, base.h as real);
  }

  // ---------------------------------------------------------------- what a fit is

  /** The picture lies inside the canvas, touches it on two opposite sides and is centred. */
  predicate IsLetterbox(base: Size, org: Size, t: Transform) {
    && t.Placed? && t.scale > 0.0
    && t.scale * org.w as real <= base.w as real
    && t.scale * org.h as real <= base.h as real
    && (t.scale * org.w as real == base.w as real || t.scale * org.h as real == base.h as real)
    && t.x == (base.w as real - t.scale * org.w as real) / 2.0
    && t.y == (base.h as real - t.scale * org.h as real) / 2.0
  }

  lemma FitByHeight(base: Size, org: Size)
    requires !base.Empty() && !org.Empty()
    requires base.w as real / base.h as real >= org.w as real / org.h as real
    ensures IsLetterbox(base, org, Fit(base, org))
  {
    var bw, bh := base.w as real, base.h as real;
    var ow, oh := org.w as real, org.h as real;
    CompareRatios(bw, bh, ow, oh);
    Scaled(oh, ow, bh);
    Positive(bh, oh);
    Cancel((bh / oh) * ow, bw, oh);
  }

  lemma FitByWidth(base: Size, org: Size)
    requires !base.Empty() && !org.Empty()
    requires base.w as real / base.h as real < org.w as real / org.h as real
    ensures IsLetterbox(base, org, Fit(base, org))
  {
    var bw, bh := base.w as real, base.h as real;
    var ow, oh := org.w as real, org.h as real;
    CompareRatios(bw, bh, ow, oh);
    Scaled(ow, oh, bw);
    Positive(bw, ow);
    DividedByRatio(bw, ow, oh);
    Cancel((bw / ow) * oh, bh, ow);
  }

  lemma FitIsLetterbox(base: Size, org: Size)
    requires !base.Empty() && !org.Empty()
    ensures IsLetterbox(base, org, Fit(base, org))
  {
    if base.w as real / base.h as real >= org.w as real / org.h as real {
      FitByHeight(base, org);
    } else {
      FitByWidth(base, org);
    }
  }

  /** No larger scale fits. */
  lemma LetterboxIsLargest(base: Size, org: Size, t: Transform, scale: real)
    requires !base.Empty() && !org.Empty() && IsLetterbox(base, org, t)
    requires scale * org.w as real <= base.w as real && scale * org.h as real <= base.h as real
    ensures scale <= t.scale
  {
    if scale > t.scale {
      MulOrder(t.scale, scale, org.w as real);
      MulOrder(t.scale, scale, org.h as real);
    }
  }

  lemma LetterboxIsUnique(base: Size, org: Size, t: Transform, u: Transform)
    requires !base.Empty() && !org.Empty() && IsLetterbox(base, org, t) && IsLetterbox(base, org, u)
    ensures t == u && t.x >= 0.0 && t.y >= 0.0
  {
    LetterboxIsLargest(base, org, t, u.scale);
    LetterboxIsLargest(base, org, u, t.scale);
  }

  /** The transform is the only letterbox of the picture in the canvas, and its margins are not
      negative. */
  lemma FitIsTheLetterbox(base: Size, org: Size, t: Transform)
    requires !base.Empty() && !org.Empty()
    ensures t == Fit(base, org) <==> IsLetterbox(base, org, t)
    ensures IsLetterbox(base, org, t) ==> t.x >= 0.0 && t.y >= 0.0
  {
    FitIsLetterbox(base, org);
    if IsLetterbox(base, org, t) {
      LetterboxIsUnique(base, org, t, Fit(base, org));
    }
  }

  // ---------------------------------------------------------------- the recorder

  /** How far initializing gets after it has taken over the sizes. */
  datatype Outcome =
    | FailsEarly
    | NoScene
    | NoSource
    | NoWindow(hasFilter: bool)
    | Ready(hasFilter: bool)

  /** The scene with the transforms of its items, the capture source with its crop filter, and the
      crop the filter was last given. */
  datatype State = State(
    base: Size,
    org: Size,
    scene: Option<seq<Transform>>,
    hasSource: bool,
    hasFilter: bool,
    crop: Option<Rect>)

  datatype Step =
    | Initialize(named: bool, screen: Size, region: Rect, outcome: Outcome)
    | Crop(rect: Rect)
    | Scale(size: Size)

  predicate Accepted(named: bool, screen: Size, region: Rect) {
    named && !screen.Empty() && !region.Empty()
  }

  predicate Valid(s: State) {
    s.scene.Some? ==> !s.base.Empty()
  }

  function Fitted(s: State): (r: State)
    requires Valid(s)
    ensures Valid(r)
  {
    if s.scene.None? then s
    else s.(scene := Some(seq(|s.scene.value|, _ => Fit(s.base, s.org))))
  }

  function Scaling(s: State, size: Size): (r: State)
    requires Valid(s)
    ensures Valid(r)
  {
    if s.org == size then s else Fitted(s.(org := size))
  }

  function Cropped(s: State, rect: Rect): (r: State)
    requires Valid(s)
    ensures Valid(r)
  {
    if !s.hasSource || rect.Empty() || !s.hasFilter then s
    else Scaling(s.(crop := Some(rect)), rect.Extent())
  }

  function Initialized(s: State, screen: Size, region: Rect, outcome: Outcome): (r: State)
    requires Valid(s) && !screen.Empty()
    ensures Valid(r)
  {
    var t := s.(base := screen, org := region.Extent());
    match outcome
    case FailsEarly => t
    case NoScene => t.(scene := None)
    case NoSource => t.(scene := Some([]), hasSource := false, crop := None)
    case NoWindow(filter) => t.(scene := Some([UNSCALED]), hasSource := true, hasFilter := filter, crop := None)
    case Ready(filter) =>
      Fitted(Cropped(t.(scene := Some([UNSCALED]), hasSource := true, hasFilter := filter, crop := None), region))
  }

  function Next(s: State, step: Step): (r: State)
    requires Valid(s)
    ensures Valid(r)
  {
    match step
    case Initialize(named, screen, region, outcome) =>
      if Accepted(named, screen, region) then Initialized(s, screen, region, outcome) else s
    case Crop(rect) => Cropped(s, rect)
    case Scale(size) => Scaling(s, size)
  }

  function Run(s: State, steps: seq<Step>): (r: State)
    requires Valid(s)
    ensures Valid(r)
  {
    if steps == [] then s else Next(Run(s, steps[..|steps| - 1]), steps[|steps| - 1])
  }

  class ZDTalkOBSContext {
    var base: Size
    var org: Size
    var scene: Option<seq<Transform>>
    var hasSource: bool
    var hasFilter: bool
    var crop: Option<Rect>

    function View(): State
      reads this
    {
      State(base, org, scene, hasSource, hasFilter, crop)
    }

    /** The sizes are not set before the first initialize. */
    constructor (base: Size, org: Size)
      ensures View() == State(base, org, None, false, false, None) && Valid(View())
    {
      this.base, this.org := base, org;
      scene, hasSource, hasFilter, crop := None, false, false, None;
    }

    method Initialize(named: bool, screen: Size, region: Rect, outcome: Outcome) returns (ok: bool)
      requires Valid(View())
      modifies this
      ensures View() == Next(old(View()), Step.Initialize(named, screen, region, outcome))
      ensures ok <==> Accepted(named, screen, region) && outcome.Ready?
    {
      if !named || screen.Empty() || region.Empty() {
        return false;
      }
      base, org := screen, region.Extent();
      if outcome.FailsEarly? {
        return false;
      }
      if outcome.NoScene? {
        scene := None;
        return false;
      }
      scene := Some([]);
      hasSource := !outcome.NoSource?;
      crop := None;
      if !hasSource {
        return false;
      }
      scene := Some([UNSCALED]);
      hasFilter := outcome.hasFilter;
      if outcome.NoWindow? {
        return false;
      }
      CropVideo(region);
      EnumItems();
      ok := true;
    }

    method CropVideo(rect: Rect)
      requires Valid(View())
      modifies this
      ensures View() == Cropped(old(View()), rect)
    {
      if !hasSource || rect.Empty() || !hasFilter {
        return;
      }
      crop := Some(rect);
      ScaleVideo(rect.Extent());
    }

    method ScaleVideo(size: Size)
      requires Valid(View())
      modifies this
      ensures View() == Scaling(old(View()), size)
    {
      if org == size {
        return;
      }
      org := size;
      EnumItems();
    }

    method EnumItems()
      requires Valid(View())
      modifies this
      ensures View() == Fitted(old(View()))
    {
      if scene.Some? {
        var items := scene.value;
        for n := 0 to |items|
          invariant View() == old(View()) && |items| == |scene.value|
          invariant forall i :: 0 <= i < n ==> items[i] == Fit(base, org)
        {
          var t := FindSceneItemAndScale(base, org);
          items := items[n := t];
        }
        assert items == Fitted(View()).scene.value;
        scene := Some(items);
      }
    }

    static method FindSceneItemAndScale(base: Size, org: Size) returns (t: Transform)
      requires !base.Empty()
      ensures t == Fit(base, org)
    {
      if org.h == 0 && org.w <= 0 {
        return NonFinite;
      }
      var width, height := base.w as real, base.h as real;
      if org.h == 0 {
        // The ratio is infinite, so the fitted height is zero.
        return Placed(width / org.w as real, 0.0, height / 2.0);
      }
      var sratio := height / org.h as real;
      var alignWidth := false;
      var originalRatio := org.w as real / org.h as real;
      if width / height >= originalRatio {
        width := height * originalRatio;
      } else {
        RatioNotZero(base, org);
        height := width / originalRatio;
        sratio := width / org.w as real;
        alignWidth := true;
      }
      if alignWidth {
        t := Placed(sratio, 0.0, (base.h as real - height) / 2.0);
      } else {
        t := Placed(sratio, (base.w as real - width) / 2.0, 0.0);
      }
    }
  }

  // ---------------------------------------------------------------- skipping loses nothing

  /** Every item of the scene is placed as the current sizes ask for. */
  ghost predicate InSync(s: State)
    requires Valid(s)
  {
    s.scene.Some? ==> AllPlaced(s.scene.value, Fit(s.base, s.org))
  }

  ghost predicate AllPlaced(items: seq<Transform>, t: Transform) {
    forall i :: 0 <= i < |items| ==> items[i] == t
  }

  /** A scale command leaves the items in place exactly if they were before or the size changes;
      it always takes over the size. */
  lemma ScalingSyncs(s: State, size: Size)
    requires Valid(s)
    ensures InSync(Scaling(s, size)) <==> InSync(s) || size != s.org
    ensures Scaling(s, size).org == size && Scaling(s, size).base == s.base
  {
  }

  /** An accepted crop gives the picture's new size to the filter and to the scale; a crop without a
      captured window or filter, or of an empty region, changes nothing. */
  lemma CroppingSyncs(s: State, rect: Rect)
    requires Valid(s)
    ensures s.hasSource && s.hasFilter && rect.w >= 1 && rect.h >= 1 ==>
              && Cropped(s, rect).crop == Some(rect)
              && Cropped(s, rect).org == Size(rect.w, rect.h) && Cropped(s, rect).base == s.base
              && (InSync(Cropped(s, rect)) <==> InSync(s) || Size(rect.w, rect.h) != s.org)
    ensures !(s.hasSource && s.hasFilter && rect.w >= 1 && rect.h >= 1) ==> Cropped(s, rect) == s
  {
    if s.hasSource && s.hasFilter && !rect.Empty() {
      ScalingSyncs(s.(crop := Some(rect)), Size(rect.w, rect.h));
    }
  }

  /** Initializing leaves the items in place exactly if it succeeds, there is no item, or the item
      it leaves behind happens to lie where the new sizes want it. */
  lemma InitializingSyncs(s: State, screen: Size, region: Rect, outcome: Outcome)
    requires Valid(s) && !screen.Empty() && !region.Empty()
    ensures InSync(Initialized(s, screen, region, outcome)) <==>
              match outcome
              case FailsEarly => s.scene.Some? ==> AllPlaced(s.scene.value, Fit(screen, Size(region.w, region.h)))
              case NoWindow(_) => UNSCALED == Fit(screen, Size(region.w, region.h))
              case _ => true
  {
    match outcome
    case NoWindow(_) =>
      assert [UNSCALED][0] == UNSCALED;
    case Ready(filter) =>
      ReadyState(s, screen, region, filter);
    case _ =>
  }

  lemma ReadyState(s: State, screen: Size, region: Rect, filter: bool)
    requires Valid(s) && !screen.Empty() && !region.Empty()
    ensures Initialized(s, screen, region, Ready(filter)) ==
            State(screen, Size(region.w, region.h), Some([Fit(screen, Size(region.w, region.h))]), true, filter,
                  if filter then Some(region) else None)
  {
    var fit := Fit(screen, Size(region.w, region.h));
    assert seq(1, _ => fit) == [fit];
  }

  /** Initializing is refused without a window title or with a size below one; otherwise the sizes
      are taken over first, and what follows depends on how far it gets. */
  lemma InitializingLaws(s: State, named: bool, screen: Size, region: Rect, outcome: Outcome)
    requires Valid(s)
    ensures var t := Next(s, Initialize(named, screen, region, outcome));
            if !named || screen.w < 1 || screen.h < 1 || region.w < 1 || region.h < 1 then t == s
            else (
              && t.base == screen && t.org == Size(region.w, region.h)
              && match outcome
                 case FailsEarly =>
                   t.scene == s.scene && t.hasSource == s.hasSource && t.hasFilter == s.hasFilter && t.crop == s.crop
                 case NoScene =>
                   t.scene == None && t.hasSource == s.hasSource && t.hasFilter == s.hasFilter && t.crop == s.crop
                 case NoSource => t.scene == Some([]) && !t.hasSource && t.hasFilter == s.hasFilter && t.crop == None
                 case NoWindow(filter) =>
                   t.scene == Some([Placed(1.0, 0.0, 0.0)]) && t.hasSource && t.hasFilter == filter && t.crop == None
                 case Ready(filter) =>
                   && t.scene == Some([Fit(screen, Size(region.w, region.h))]) && t.hasSource && t.hasFilter == filter
                   && t.crop == if filter then Some(region) else None)
  {
    if Accepted(named, screen, region) && outcome.Ready? {
      ReadyState(s, screen, region, outcome.hasFilter);
    }
  }

  /** A picture without a width or height has no letterbox: without a height it is scaled by the
      widths and its upper edge put in the middle, without a width scaled by the heights and its left
      edge put in the middle, and without both there is no transform. */
  lemma EmptyPicture(base: Size, org: Size)
    requires !base.Empty() && org.w >= 0 && org.h >= 0 && (org.w == 0 || org.h == 0)
    ensures Fit(base, org) ==
            if org.w > 0 then Placed(base.w as real / org.w as real, 0.0, base.h as real / 2.0)
            else if org.h > 0 then Placed(base.h as real / org.h as real, base.w as real / 2.0, 0.0)
            else NonFinite
  {
    if org.h > 0 {
      Positive(base.w as real, base.h as real);
      assert org.w as real / org.h as real == 0.0;
    }
  }

  /** A scale command may name a negative size; the formulas are the same, whatever they mean then. */
  lemma NegativePicture(base: Size, org: Size)
    requires !base.Empty() && (org.w < 0 || org.h < 0)
    ensures org.h == 0 ==> Fit(base, org) == NonFinite
    ensures org.h != 0 ==>
              var ratio, wide := org.w as real / org.h as real, base.w as real / base.h as real;
              if wide >= ratio then
                Fit(base, org) == Placed(base.h as real / org.h as real, (base.w as real - base.h as real * ratio) / 2.0, 0.0)
              else
                org.w != 0 && ratio != 0.0 &&
                Fit(base, org) == Placed(base.w as real / org.w as real, 0.0, (base.h as real - base.w as real / ratio) / 2.0)
  {
    if org.h != 0 && base.w as real / base.h as real < org.w as real / org.h as real {
      RatioNotZero(base, org);
    }
  }

  /** Steps that cannot leave an item where old sizes wanted it. */
  predicate Harmless(step: Step) {
    step.Initialize? ==> !Accepted(step.named, step.screen, step.region) || step.outcome.Ready?
  }

  lemma StepKeepsSync(s: State, step: Step)
    requires Valid(s) && InSync(s) && Harmless(step)
    ensures InSync(Next(s, step))
  {
    match step
    case Initialize(named, screen, region, outcome) =>
      if Accepted(named, screen, region) {
        InitializingSyncs(s, screen, region, outcome);
      }
    case Crop(rect) => CroppingSyncs(s, rect);
    case Scale(size) => ScalingSyncs(s, size);
  }

  lemma {:induction false} RunKeepsSync(s: State, steps: seq<Step>)
    requires Valid(s) && InSync(s) && forall i :: 0 <= i < |steps| ==> Harmless(steps[i])
    ensures InSync(Run(s, steps))
  {
    if steps != [] {
      RunKeepsSync(s, steps[..|steps| - 1]);
      StepKeepsSync(Run(s, steps[..|steps| - 1]), steps[|steps| - 1]);
    }
  }

  lemma {:induction false} ItemStays(s: State, steps: seq<Step>)
    requires Valid(s) && s.scene.Some? && |s.scene.value| == 1
    requires forall i :: 0 <= i < |steps| ==> !steps[i].Initialize?
    ensures var t := Run(s, steps);
            t.scene.Some? && |t.scene.value| == 1 && t.base == s.base
  {
    if steps != [] {
      ItemStays(s, steps[..|steps| - 1]);
      StepKeepsItem(Run(s, steps[..|steps| - 1]), steps[|steps| - 1]);
    }
  }

  lemma StepKeepsItem(s: State, step: Step)
    requires Valid(s) && s.scene.Some? && |s.scene.value| == 1 && !step.Initialize?
    ensures var t := Next(s, step);
            t.scene.Some? && |t.scene.value| == 1 && t.base == s.base
  {
  }

  lemma OneItemInSync(t: State)
    requires Valid(t) && InSync(t) && t.scene.Some? && |t.scene.value| == 1
    ensures t.scene == Some([Fit(t.base, t.org)])
    ensures !t.org.Empty() ==> IsLetterbox(t.base, t.org, t.scene.value[0])
  {
    assert t.scene.value == [Fit(t.base, t.org)];
    if !t.org.Empty() {
      FitIsLetterbox(t.base, t.org);
    }
  }

  /** The width and height of the last accepted crop or scale command, or else of the region. */
  function LastSize(region: Rect, filter: bool, steps: seq<Step>): Size {
    if steps == [] then Size(region.w, region.h)
    else
      match steps[|steps| - 1]
      case Scale(size) => size
      case Crop(rect) =>
        if filter && rect.w >= 1 && rect.h >= 1 then Size(rect.w, rect.h)
        else LastSize(region, filter, steps[..|steps| - 1])
      case _ => LastSize(region, filter, steps[..|steps| - 1])
  }

  lemma {:induction false} SizeFollows(s: State, region: Rect, steps: seq<Step>)
    requires Valid(s) && s.hasSource && s.org == Size(region.w, region.h)
    requires forall i :: 0 <= i < |steps| ==> !steps[i].Initialize?
    ensures var t := Run(s, steps);
            t.org == LastSize(region, s.hasFilter, steps) && t.hasSource && t.hasFilter == s.hasFilter
  {
    if steps != [] {
      SizeFollows(s, region, steps[..|steps| - 1]);
      StepSize(Run(s, steps[..|steps| - 1]), steps[|steps| - 1]);
    }
  }

  lemma StepSize(s: State, step: Step)
    requires Valid(s) && !step.Initialize?
    ensures var t := Next(s, step);
            && t.hasSource == s.hasSource && t.hasFilter == s.hasFilter
            && t.org == match step
                        case Scale(size) => size
                        case Crop(rect) =>
                          if s.hasSource && s.hasFilter && rect.w >= 1 && rect.h >= 1 then Size(rect.w, rect.h) else s.org
                        case _ => s.org
  {
    match step
    case Crop(rect) => CroppingSyncs(s, rect);
    case Scale(size) => ScalingSyncs(s, size);
    case _ =>
  }

  /** After a successful initialize and any crop and scale commands the captured window sits where
      the transform computed afresh puts a picture of the size last given; unless that is empty, this
      is its letterbox in the screen. */
  lemma CapturedWindowIsFitted(s: State, screen: Size, region: Rect, filter: bool, steps: seq<Step>)
    requires Valid(s) && !screen.Empty() && !region.Empty()
    requires forall i :: 0 <= i < |steps| ==> !steps[i].Initialize?
    ensures var t, size := Run(Initialized(s, screen, region, Ready(filter)), steps), LastSize(region, filter, steps);
            && t.base == screen && t.org == size && t.scene == Some([Fit(screen, size)])
            && (!size.Empty() ==> IsLetterbox(screen, size, t.scene.value[0]))
  {
    ReadyState(s, screen, region, filter);
    FittedStaysFitted(Initialized(s, screen, region, Ready(filter)), steps);
    SizeFollows(Initialized(s, screen, region, Ready(filter)), region, steps);
  }

  lemma FittedStaysFitted(s: State, steps: seq<Step>)
    requires Valid(s) && !s.base.Empty() && s.scene == Some([Fit(s.base, s.org)])
    requires forall i :: 0 <= i < |steps| ==> !steps[i].Initialize?
    ensures var t := Run(s, steps);
            && t.base == s.base && t.scene == Some([Fit(t.base, t.org)])
            && (!t.org.Empty() ==> IsLetterbox(t.base, t.org, t.scene.value[0]))
  {
    RunKeepsSync(s, steps);
    ItemStays(s, steps);
    OneItemInSync(Run(s, steps));
  }

  /** When initializing again fails after the sizes were taken over, the crop command for the very
      region that was asked for is skipped as unchanged, and the window stays where it was. */
  lemma FailedInitializeLeavesStale(s: State)
    requires Valid(s)
    ensures var region := Rect(0, 0, 100, 100);
            var ready := Next(s, Initialize(true, Size(100, 100), region, Ready(true)));
            var failed := Next(ready, Initialize(true, Size(200, 100), region, FailsEarly));
            var t := Next(failed, Crop(region));
            t.scene == Some([UNSCALED]) && Fit(t.base, t.org) == Placed(1.0, 50.0, 0.0) && !InSync(t)
  {
    var region := Rect(0, 0, 100, 100);
    ReadyState(s, Size(100, 100), region, true);
    assert [UNSCALED][0] == UNSCALED;
  }
}
