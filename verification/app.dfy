/** The carousel of src/App.tsx: the room list, the focus index `index.current`, the
    previous focus `prev.current`, the viewing flag and the fetch and drag state, with
    the per-index spring updates derived from them. */
module App {
  import opened Rooms

  /** SCALE_FACTOR, SCALED_R and SNAP_DIVISOR, imported from ./templates/constants, which
      is not part of this model; they are parameters here. */
  datatype Theme = Theme(scaleFactor: real, scaledR: real, snapDivisor: real)

  /** LAP_FACTOR: how far neighbouring images reach into the side margins. */
  const LapFactor: real := 1.5

  /** CSS `display`: 'block' or 'none'. */
  datatype Display = Block | Hidden

  /** A numeric spring target. `Interpolated` stands for the floating-point interpolations
      that follow the drag distance, which this model does not compute. */
  datatype Level = At(v: real) | Interpolated

  /** One spring update. A transform sets only some keys; an absent key is `None` and
      leaves the spring's current value alone. `blur` is the pixel radius of `filter`. */
  datatype Props = Props(
    x: Option<real>,
    scale: Option<Level>,
    borderRadius: Option<real>,
    display: Option<Display>,
    blur: Option<Level>,
    panelOpacity: Option<Level>,
    favouriteScale: Option<real>,
    deleteScale: Option<real>)

  const NoProps: Props := Props(None, None, None, None, None, None, None, None)

  function Override<T>(a: Option<T>, b: Option<T>): Option<T> {
    if b.Some? then b else a
  }

  /** `{ ...a, ...b }`: every key `b` sets wins, the others come from `a`. Spreading an
      empty object on either side changes nothing, and an update that sets every key
      replaces what it is spread over. */
  function Merge(a: Props, b: Props): (m: Props)
    ensures b == NoProps ==> m == a
    ensures a == NoProps ==> m == b
    ensures Full(b) ==> m == b
    ensures Full(a) ==> Full(m)
  {
    Props(Override(a.x, b.x), Override(a.scale, b.scale), Override(a.borderRadius, b.borderRadius),
          Override(a.display, b.display), Override(a.blur, b.blur), Override(a.panelOpacity, b.panelOpacity),
          Override(a.favouriteScale, b.favouriteScale), Override(a.deleteScale, b.deleteScale))
  }

  /** Every key of the update is set. */
  predicate Full(p: Props) {
    && p.x.Some? && p.scale.Some? && p.borderRadius.Some? && p.display.Some?
    && p.blur.Some? && p.panelOpacity.Some? && p.favouriteScale.Some? && p.deleteScale.Some?
  }

  /** Spreads nest freely: `{ ...{ ...a, ...b }, ...c }` is `{ ...a, ...{ ...b, ...c } }`. */
  lemma MergeAssociative(a: Props, b: Props, c: Props)
    ensures Merge(Merge(a, b), c) == Merge(a, Merge(b, c))
  {
  }

  /** SCALED_MARGIN_X: the free space on each side of a scaled image. The two margins and
      the scaled image fill the width, and for a scale factor in [0, 1] a margin is at most
      half the width. */
  function ScaledMarginX(width: real, t: Theme): (m: real)
    ensures 2.0 * m + width * t.scaleFactor == width
    ensures width >= 0.0 && 0.0 <= t.scaleFactor <= 1.0 ==> 0.0 <= m <= width * 0.5
  {
    if width >= 0.0 && 0.0 <= t.scaleFactor <= 1.0 then
      MulMono(width, 0.0, t.scaleFactor);
      MulMono(width, t.scaleFactor, 1.0);
      (width - width * t.scaleFactor) * 0.5
    else
      (width - width * t.scaleFactor) * 0.5
  }

  /** The distance between neighbouring images in viewing mode. When the viewport is the
      measured width, it is a quarter of the width plus three quarters of the scaled width. */
  function Stride(viewport: real, width: real, t: Theme): (s: real)
    ensures s == viewport - 1.5 * ScaledMarginX(width, t)
    ensures viewport == width ==> s == 0.25 * width + 0.75 * (width * t.scaleFactor)
  {
    viewport - ScaledMarginX(width, t) * LapFactor
  }

  /** The resting x of an image `offset` places from the focus in viewing mode. */
  function SlideX(offset: int, viewport: real, width: real, t: Theme): (x: real)
    ensures offset == 0 ==> x == 0.0
  {
    offset as real * Stride(viewport, width, t)
  }

  /** For a scale factor strictly between 0 and 1 the viewing stride is positive and shorter
      than the viewport: neighbours reach into the side margins. */
  lemma StrideBounds(width: real, t: Theme)
    requires width > 0.0 && 0.0 < t.scaleFactor < 1.0
    ensures 0.0 < Stride(width, width, t) < width
  {
    var ws := width * t.scaleFactor;
    MulStrict(width, t.scaleFactor, 1.0);
    assert width * 1.0 == width;
    assert ws < width;
    MulStrict(width, 0.0, t.scaleFactor);
    assert 0.0 < ws;
    assert Stride(width, width, t) == 0.25 * width + 0.75 * ws;
  }

  lemma MulMono(x: real, a: real, b: real)
    requires x >= 0.0 && a <= b
    ensures x * a <= x * b
  {
    assert x * b - x * a == x * (b - a);
  }

  lemma MulStrict(x: real, a: real, b: real)
    requires x > 0.0 && a < b
    ensures x * a < x * b
  {
    assert x * b - x * a == x * (b - a);
  }

  /** Viewing-mode positions are evenly spaced, one stride apart, so for a scale factor
      strictly between 0 and 1 the images keep their order on screen. */
  lemma SlideSpacing(a: int, b: int, width: real, t: Theme)
    ensures SlideX(a, width, width, t) - SlideX(b, width, width, t) == (a - b) as real * Stride(width, width, t)
    ensures width > 0.0 && 0.0 < t.scaleFactor < 1.0 && a < b ==> SlideX(a, width, width, t) < SlideX(b, width, width, t)
  {
    var d := Stride(width, width, t);
    assert a as real * d - b as real * d == (a - b) as real * d;
    if width > 0.0 && 0.0 < t.scaleFactor < 1.0 && a < b {
      StrideBounds(width, t);
      assert (b - a) as real * d > 0.0;
    }
  }

  function PanelLevel(offset: int): (l: Level)
    ensures l == At(1.0) <==> offset == 0
    ensures l == At(0.0) <==> offset != 0
  {
    At(if offset == 0 then 1.0 else 0.0)
  }

  function FavouriteScale(room: Room, t: Theme): (s: real)
    ensures t.scaleFactor != 0.0 ==> (s != 0.0 <==> IsFavourite(room))
  {
    if IsFavourite(room) then t.scaleFactor else 0.0
  }

  /** `setToInitial(i)`: the browsing transform, every key set. (Its `setViewing(false)`
      is a state change, made by `Gallery.InitSprings`.) */
  function SetToInitial(rooms: seq<Room>, index: int, i: int, innerWidth: real, t: Theme): (p: Props)
    requires 0 <= i < |rooms|
    ensures p.x.Some? && p.display.Some? && p.panelOpacity.Some? && p.favouriteScale.Some?
    ensures p.scale == Some(At(1.0)) && p.borderRadius == Some(0.0) && p.blur == Some(At(0.0))
    ensures p.deleteScale == Some(0.0)
    ensures p.x == Some(innerWidth * (i - index) as real)
    ensures i == index ==> p.x == Some(0.0)
    ensures p.display == Some(Hidden) <==> !InWindow(i - index)
    ensures p.panelOpacity == Some(PanelLevel(i - index))
    ensures p.panelOpacity == Some(At(1.0)) <==> i == index
    ensures p.favouriteScale == Some(FavouriteScale(rooms[i], t))
    ensures t.scaleFactor != 0.0 ==> (p.favouriteScale != Some(0.0) <==> IsFavourite(rooms[i]))
  {
    var offset := i - index;
    Props(Some(innerWidth * (i - index) as real), Some(At(1.0)), Some(0.0),
          Some(if Abs(offset) > 2 then Hidden else Block), Some(At(0.0)),
          Some(PanelLevel(offset)), Some(FavouriteScale(rooms[i], t)), Some(0.0))
  }

  /** Browsing positions are evenly spaced, one window width apart, so for a positive
      window width the images keep their order on screen. */
  lemma BrowsingSpacing(rooms: seq<Room>, index: int, a: int, b: int, innerWidth: real, t: Theme)
    requires 0 <= a < |rooms| && 0 <= b < |rooms|
    ensures SetToInitial(rooms, index, a, innerWidth, t).x.value - SetToInitial(rooms, index, b, innerWidth, t).x.value
            == (a - b) as real * innerWidth
    ensures innerWidth > 0.0 && a < b ==>
      SetToInitial(rooms, index, a, innerWidth, t).x.value < SetToInitial(rooms, index, b, innerWidth, t).x.value
  {
    var xa := innerWidth * (a - index) as real;
    var xb := innerWidth * (b - index) as real;
    assert xa - xb == (a - b) as real * innerWidth;
    if innerWidth > 0.0 && a < b {
      assert (b - a) as real * innerWidth > 0.0;
    }
  }

  /** `zoomOut(i)`: the viewing transform; it leaves `display` and `filter` alone. */
  function ZoomOut(rooms: seq<Room>, index: int, i: int, innerWidth: real, width: real, t: Theme): (p: Props)
    requires 0 <= i < |rooms|
    ensures p.x == Some(SlideX(i - index, innerWidth, width, t))
    ensures p.scale == Some(At(t.scaleFactor)) && p.deleteScale == Some(t.scaleFactor)
    ensures p.borderRadius == Some(t.scaledR)
    ensures p.display == None && p.blur == None
    ensures p.favouriteScale == Some(FavouriteScale(rooms[i], t))
    ensures p.panelOpacity == Some(PanelLevel(i - index))
    ensures p.panelOpacity == Some(At(1.0)) <==> i == index
    ensures t.scaleFactor != 0.0 ==> (p.favouriteScale != Some(0.0) <==> IsFavourite(rooms[i]))
  {
    var offset := i - index;
    Props(Some(SlideX(offset, innerWidth, width, t)), Some(At(t.scaleFactor)), Some(t.scaledR), None, None,
          Some(PanelLevel(offset)), Some(FavouriteScale(rooms[i], t)), Some(t.scaleFactor))
  }

  /** `scaleUpNew(i).from`, the values a spring starts from when the list is not a single
      room; every such spring then heads for scale SCALE_FACTOR (`to`). Only the focused
      image grows from nothing. */
  function ScaleUpNew(rooms: seq<Room>, index: int, i: int, innerWidth: real, width: real, t: Theme): (p: Props)
    requires 0 <= i < |rooms|
    ensures p.scale == Some(At(if i == index then 0.0 else t.scaleFactor))
    ensures p.(scale := None) == ZoomOut(rooms, index, i, innerWidth, width, t).(scale := None)
  {
    ZoomOut(rooms, index, i, innerWidth, width, t).(scale := Some(At(if i - index == 0 then 0.0 else t.scaleFactor)))
  }

  /** `animateSlide(i)`: after a list change every image slides to its viewing position;
      images more than one place left of the previous focus are hidden. */
  function AnimateSlide(index: int, prev: int, i: int, innerWidth: real, width: real, t: Theme): (p: Props)
    ensures p.x == Some(SlideX(i - index, innerWidth, width, t))
    ensures p.display == Some(Hidden) <==> i < prev - 1
    ensures p.display.Some?
    ensures p.panelOpacity == Some(PanelLevel(i - index))
    ensures p.panelOpacity == Some(At(1.0)) <==> i == index
    ensures p.scale == Some(At(t.scaleFactor)) && p.blur == Some(At(0.0))
    ensures p.borderRadius == None && p.favouriteScale == None && p.deleteScale == None
  {
    var offset := i - index;
    Props(Some(SlideX(offset, innerWidth, width, t)), Some(At(t.scaleFactor)), None,
          Some(if i >= prev - 1 then Block else Hidden), Some(At(0.0)), Some(PanelLevel(offset)), None, None)
  }

  /** `updateFavourites(i)`: the heart shows only on a favourite while viewing. */
  function UpdateFavourites(rooms: seq<Room>, viewing: bool, i: int, t: Theme): (p: Props)
    requires 0 <= i < |rooms|
    ensures p.favouriteScale.Some? && p.(favouriteScale := None) == NoProps
    ensures t.scaleFactor != 0.0 ==> (p.favouriteScale != Some(0.0) <==> viewing && IsFavourite(rooms[i]))
  {
    NoProps.(favouriteScale := Some(if viewing && IsFavourite(rooms[i]) then t.scaleFactor else 0.0))
  }

  /** `animateDrag(i, active, mx, distance)`. Every image, shown or not, gets the same x:
      its viewing position plus the live drag offset, never a clamped value. Outside the
      window only `display` and `x` are set. */
  function AnimateDrag(index: int, i: int, active: bool, mx: real, width: real, t: Theme): (p: Props)
    ensures p.x == Some(SlideX(i - index, width, width, t) + (if active then mx else 0.0))
    ensures p.display == Some(if InWindow(i - index) then Block else Hidden)
    ensures !InWindow(i - index) ==> p == NoProps.(x := p.x, display := p.display)
    ensures p.borderRadius == None && p.favouriteScale == None && p.deleteScale == None
    ensures InWindow(i - index) && !active ==>
      p.scale == Some(At(t.scaleFactor)) && p.blur == Some(At(0.0)) && p.panelOpacity == Some(PanelLevel(i - index))
    ensures InWindow(i - index) && active ==>
      p.scale == Some(Interpolated) && p.blur == Some(Interpolated)
      && p.panelOpacity == Some(if i == index then Interpolated else At(0.0))
  {
    var offset := i - index;
    var dragOffset := if active then mx else 0.0;
    var x := SlideX(offset, width, width, t) + dragOffset;
    if Abs(offset) > 2 then NoProps.(x := Some(x), display := Some(Hidden))
    else
      Props(Some(x), Some(if active then Interpolated else At(t.scaleFactor)), None, Some(Block),
            Some(if active then Interpolated else At(0.0)),
            Some(if active && offset == 0 then Interpolated else PanelLevel(offset)), None, None)
  }

  /** When the pointer is released every image comes to rest where `zoomOut` puts it
      (for a viewport whose measured and window widths agree). */
  lemma DragRestsAtZoomOut(rooms: seq<Room>, index: int, i: int, mx: real, width: real, t: Theme)
    requires 0 <= i < |rooms|
    ensures AnimateDrag(index, i, false, mx, width, t).x == ZoomOut(rooms, index, i, width, width, t).x
  {
  }

  /** `api.start(i => animateDrag(i, active, mx, distance))` over `n` springs. */
  function DragFrames(n: nat, index: int, active: bool, mx: real, width: real, t: Theme): (ps: seq<Props>)
    ensures |ps| == n
    ensures forall i :: 0 <= i < n ==> ps[i] == AnimateDrag(index, i, active, mx, width, t)
  {
    seq(n, i => AnimateDrag(index, i, active, mx, width, t))
  }

  /** `scaleUpNew` for every spring. */
  function ScaleUpFrames(rooms: seq<Room>, index: int, innerWidth: real, width: real, t: Theme): (ps: seq<Props>)
    ensures |ps| == |rooms|
    ensures forall i :: 0 <= i < |rooms| ==> ps[i] == ScaleUpNew(rooms, index, i, innerWidth, width, t)
  {
    seq(|rooms|, i requires 0 <= i < |rooms| => ScaleUpNew(rooms, index, i, innerWidth, width, t))
  }

  /** The updates started for every spring when the list changes: `updateFavourites`
      merged with `animateSlide`. */
  function RoomsEffect(rooms: seq<Room>, index: int, prev: int, viewing: bool, innerWidth: real, width: real, t: Theme): (ps: seq<Props>)
    ensures |ps| == |rooms|
    ensures forall i :: 0 <= i < |rooms| ==>
      ps[i] == Merge(UpdateFavourites(rooms, viewing, i, t), AnimateSlide(index, prev, i, innerWidth, width, t))
  {
    seq(|rooms|, i requires 0 <= i < |rooms| =>
      Merge(UpdateFavourites(rooms, viewing, i, t), AnimateSlide(index, prev, i, innerWidth, width, t)))
  }

  /** The updates started for every spring when viewing is toggled: `zoomOut` or
      `setToInitial`, each followed by `updateFavourites`. */
  function ViewingEffect(rooms: seq<Room>, index: int, viewing: bool, innerWidth: real, width: real, t: Theme): (ps: seq<Props>)
    ensures |ps| == |rooms|
    ensures viewing ==> forall i :: 0 <= i < |rooms| ==>
      ps[i] == Merge(ZoomOut(rooms, index, i, innerWidth, width, t), UpdateFavourites(rooms, viewing, i, t))
    ensures !viewing ==> forall i :: 0 <= i < |rooms| ==>
      ps[i] == Merge(SetToInitial(rooms, index, i, innerWidth, t), UpdateFavourites(rooms, viewing, i, t))
  {
    seq(|rooms|, i requires 0 <= i < |rooms| =>
      if viewing then Merge(ZoomOut(rooms, index, i, innerWidth, width, t), UpdateFavourites(rooms, viewing, i, t))
      else Merge(SetToInitial(rooms, index, i, innerWidth, t), UpdateFavourites(rooms, viewing, i, t)))
  }

  /** After either effect, a heart is shown exactly on the favourites, and only while
      viewing: `updateFavourites` overrides the favourite scale `setToInitial` and `zoomOut`
      set, and `animateSlide` does not touch it. */
  lemma EffectsShowHeartsOnlyWhileViewing(rooms: seq<Room>, index: int, prev: int, viewing: bool,
                                          innerWidth: real, width: real, t: Theme, i: int)
    requires 0 <= i < |rooms| && t.scaleFactor != 0.0
    ensures ViewingEffect(rooms, index, viewing, innerWidth, width, t)[i].favouriteScale != Some(0.0)
            <==> viewing && IsFavourite(rooms[i])
    ensures RoomsEffect(rooms, index, prev, viewing, innerWidth, width, t)[i].favouriteScale != Some(0.0)
            <==> viewing && IsFavourite(rooms[i])
  {
    var u := UpdateFavourites(rooms, viewing, i, t);
    assert ViewingEffect(rooms, index, viewing, innerWidth, width, t)[i].favouriteScale == u.favouriteScale;
    assert RoomsEffect(rooms, index, prev, viewing, innerWidth, width, t)[i].favouriteScale == u.favouriteScale;
  }

  /** Leaving viewing mode puts every image back in the browsing layout: full size, square
      corners, no delete button, the info panel only on the focus, and hidden outside the
      window. */
  lemma LeavingViewingSettles(rooms: seq<Room>, index: int, innerWidth: real, width: real, t: Theme, i: int)
    requires 0 <= i < |rooms|
    ensures var p := ViewingEffect(rooms, index, false, innerWidth, width, t)[i];
      && p.scale == Some(At(1.0)) && p.borderRadius == Some(0.0) && p.deleteScale == Some(0.0)
      && p.favouriteScale == Some(0.0)
      && (p.panelOpacity == Some(At(1.0)) <==> i == index)
      && (p.display == Some(Hidden) <==> !InWindow(i - index))
  {
    var p := ViewingEffect(rooms, index, false, innerWidth, width, t)[i];
    assert p == Merge(SetToInitial(rooms, index, i, innerWidth, t), UpdateFavourites(rooms, false, i, t));
  }

  /** Whether a drag event commits a move: the gesture is active and has travelled more
      than SCALED_WIDTH / SNAP_DIVISOR. */
  predicate Commits(active: bool, distance: real, width: real, t: Theme)
    requires t.snapDivisor != 0.0
    ensures Commits(active, distance, width, t) ==> active && distance > width * t.scaleFactor / t.snapDivisor
  {
    active && distance > width * t.scaleFactor / t.snapDivisor
  }

  /** A drag that travels further than one that commits also commits. */
  lemma CommitsMonotone(active: bool, d1: real, d2: real, width: real, t: Theme)
    requires t.snapDivisor != 0.0 && d1 <= d2
    ensures Commits(active, d1, width, t) ==> Commits(active, d2, width, t)
  {
  }

  /** The focus after a committed drag: one step back for a rightward drag (`xDir > 0`),
      one step forward otherwise, clamped to the list. */
  function DragTarget(index: int, len: int, xDir: real): (r: int)
    ensures FocusInRange(r, len)
    ensures FocusInRange(index, len) && len > 0 ==> Abs(r - index) <= 1
    ensures 0 <= index < len && xDir > 0.0 ==> r == (if index > 0 then index - 1 else 0)
    ensures 0 <= index < len && xDir <= 0.0 ==> r == (if index < len - 1 then index + 1 else index)
  {
    Clamp(index + (if xDir > 0.0 then -1 else 1), 0, len - 1)
  }

  /** The fields of an Unsplash random-photo response that the gallery reads. */
  datatype Img = Img(full: string, username: string, name: string, country: Option<string>)

  /** The room built from a fetched photo; a missing or empty country reads 'No Location'. */
  function RoomOfImage(img: Img): (r: Room)
    ensures r.src == img.full && r.title == img.username && r.wall == img.name
    ensures img.country.Some? && img.country.value != "" ==> r.floor == img.country.value
    ensures img.country == None || img.country == Some("") ==> r.floor == "No Location"
    ensures r.floor != ""
    ensures r.id == None && !IsFavourite(r)
  {
    var floor := if img.country.Some? && img.country.value != "" then img.country.value else "No Location";
    Room(None, img.full, img.username, floor, img.name, None)
  }

  /** The focused room after `deleteRoom(p)`, which keeps the focus at the same position
      (clamped): a deletion after the focus keeps the focused room; a deletion at or before
      it hands the focus to the room that moved into its place, or to the new last room. */
  lemma DeleteRoomFocus(s: seq<Room>, p: int, k: int)
    requires 0 <= p < |s| && 0 <= k < |s| && |s| > 1
    ensures var r := RemoveAt(s, p); var k' := Clamp(k, 0, |r| - 1);
      && 0 <= k' < |r|
      && (p > k ==> r[k'] == s[k])
      && (p <= k && k < |s| - 1 ==> r[k'] == s[k + 1])
      && (p < k && k == |s| - 1 ==> r[k'] == s[k])
      && (p == k && k == |s| - 1 ==> r[k'] == s[k - 1])
  {
    var r := RemoveAt(s, p);
    var k' := Clamp(k, 0, |r| - 1);
    if k < |s| - 1 {
      RemoveAtShifts(s, p, k);
    } else {
      RemoveAtShifts(s, p, k - 1);
    }
  }

  /** The gallery state of src/App.tsx. `gestureLive` says whether the current drag gesture
      still delivers events; `releasePending` says that a commit has called `cancel()`, so
      the gesture library still owes the handler its final, inactive event; `commits`
      counts the moves the gesture has committed. */
  class Gallery {
    var rooms: seq<Room>
    var index: int
    var prev: int
    var viewing: bool
    var pending: bool
    var gestureLive: bool
    var releasePending: bool
    ghost var commits: nat

    /** The focus fits the list, and a gesture that has committed is over. */
    ghost predicate Valid()
      reads this
    {
      && FocusInRange(index, |rooms|)
      && 0 <= prev
      && commits <= 1
      && (commits == 1 ==> !gestureLive)
      && (releasePending ==> !gestureLive)
    }

    /** `useState(initialRooms || [])`, both refs at 0, not viewing, nothing pending. */
    constructor (initialRooms: Option<seq<Room>>)
      ensures Valid()
      ensures rooms == (if initialRooms.Some? then initialRooms.value else [])
      ensures index == 0 && prev == 0 && !viewing && !pending && !gestureLive && !releasePending
    {
      rooms := if initialRooms.Some? then initialRooms.value else [];
      index := 0;
      prev := 0;
      viewing := false;
      pending := false;
      gestureLive := false;
      releasePending := false;
      commits := 0;
    }

    /** `deleteRoom(i)`: drop the room at position `i`, remember the old focus and clamp
      the focus to the shorter list. */
    method DeleteRoom(i: int)
      requires Valid()
      modifies this
      ensures Valid()
      ensures rooms == RemoveAt(old(rooms), i)
      ensures prev == old(index) && index == Clamp(old(index), 0, |rooms| - 1)
      ensures rooms == [] ==> index == 0
      ensures viewing == old(viewing) && pending == old(pending)
      ensures gestureLive == old(gestureLive) && releasePending == old(releasePending) && commits == old(commits)
    {
      rooms := RemoveAt(rooms, i);
      prev := index;
      index := Clamp(index, 0, |rooms| - 1);
    }

    /** The FAVOURITE button of item `i`: flip that room's flag, nothing else. */
    method ToggleFavourite(i: int)
      requires Valid()
      modifies this
      ensures Valid()
      ensures rooms == ToggleAt(old(rooms), i)
      ensures index == old(index) && prev == old(prev) && viewing == old(viewing) && pending == old(pending)
      ensures gestureLive == old(gestureLive) && releasePending == old(releasePending) && commits == old(commits)
    {
      rooms := ToggleAt(rooms, i);
    }

    /** The DUPLICATE button of item `i`: append the same room at the end and focus it. */
    method Duplicate(i: int)
      requires Valid() && 0 <= i < |rooms|
      modifies this
      ensures Valid()
      ensures rooms == old(rooms) + [old(rooms)[i]]
      ensures prev == old(index) && index == |old(rooms)| == |rooms| - 1
      ensures rooms[index] == old(rooms)[i]
      ensures viewing == old(viewing) && pending == old(pending)
      ensures gestureLive == old(gestureLive) && releasePending == old(releasePending) && commits == old(commits)
    {
      var copy := rooms[i];
      prev := index;
      index := |rooms|;
      rooms := rooms + [copy];
    }

    /** `toggleView`: switch between browsing and viewing. */
    method ToggleView()
      requires Valid()
      modifies this
      ensures Valid()
      ensures viewing == !old(viewing)
      ensures rooms == old(rooms) && index == old(index) && prev == old(prev) && pending == old(pending)
      ensures gestureLive == old(gestureLive) && releasePending == old(releasePending) && commits == old(commits)
    {
      viewing := !viewing;
    }

    /** The start of `getImage`: ignored while a request is pending, else marks one pending. */
    method BeginFetch() returns (started: bool)
      requires Valid()
      modifies this
      ensures Valid()
      ensures started == !old(pending) && pending
      ensures rooms == old(rooms) && index == old(index) && prev == old(prev) && viewing == old(viewing)
      ensures gestureLive == old(gestureLive) && releasePending == old(releasePending) && commits == old(commits)
    {
      if pending {
        started := false;
        return;
      }
      pending := true;
      started := true;
    }

    /** The request settles: on success the new room is built (and handed to the image
      loader); either way the `finally` clause clears `pending`, before the image loads. */
    method FetchSettled(response: Option<Img>) returns (toLoad: Option<Room>)
      requires Valid()
      modifies this
      ensures Valid()
      ensures toLoad == (if response.Some? then Some(RoomOfImage(response.value)) else None)
      ensures !pending
      ensures rooms == old(rooms) && index == old(index) && prev == old(prev) && viewing == old(viewing)
      ensures gestureLive == old(gestureLive) && releasePending == old(releasePending) && commits == old(commits)
    {
      toLoad := if response.Some? then Some(RoomOfImage(response.value)) else None;
      pending := false;
    }

    /** The loader's continuation: append the room, remember the old focus and focus the
      new last room. */
    method AppendLoaded(newRoom: Room)
      requires Valid()
      modifies this
      ensures Valid()
      ensures rooms == old(rooms) + [newRoom]
      ensures prev == old(index) && index == |rooms| - 1 && rooms[index] == newRoom
      ensures !pending && viewing == old(viewing)
      ensures gestureLive == old(gestureLive) && releasePending == old(releasePending) && commits == old(commits)
    {
      rooms := rooms + [newRoom];
      prev := index;
      index := |rooms| - 1;
      pending := false;
    }

    /** A pointer goes down: a new drag gesture begins. */
    method StartGesture()
      requires Valid()
      modifies this
      ensures Valid()
      ensures gestureLive && !releasePending && commits == 0
      ensures rooms == old(rooms) && index == old(index) && prev == old(prev)
      ensures viewing == old(viewing) && pending == old(pending)
    {
      gestureLive := true;
      releasePending := false;
      commits := 0;
    }

    /** One event of the drag handler `bind`. Events arrive only while the gesture is live.
      Outside viewing mode the handler does nothing; otherwise a commit moves the focus one
      step and cancels the gesture, and every spring is sent `animateDrag`. The gesture
      ends on release (`active` false) or on a commit, so it commits at most once; after a
      commit only the final event of `SettleAfterCancel` is still delivered. */
    method OnDrag(active: bool, mx: real, xDir: real, distance: real, width: real, t: Theme)
      returns (frames: seq<Props>)
      requires Valid() && t.snapDivisor != 0.0
      modifies this
      ensures Valid()
      ensures var handled := old(gestureLive) && viewing;
              var commit := handled && Commits(active, distance, width, t);
              && index == (if commit then DragTarget(old(index), |rooms|, xDir) else old(index))
              && commits == old(commits) + (if commit then 1 else 0)
              && gestureLive == (old(gestureLive) && active && !commit)
              && releasePending == (old(releasePending) || commit)
              && frames == (if handled then DragFrames(|rooms|, index, active, mx, width, t) else [])
      ensures rooms == old(rooms) && prev == old(prev) && viewing == old(viewing) && pending == old(pending)
    {
      frames := [];
      if !gestureLive {
        return;
      }
      if !active {
        gestureLive := false;
      }
      if !viewing {
        return;
      }
      if Commits(active, distance, width, t) {
        index := DragTarget(index, |rooms|, xDir);
        commits := commits + 1;
        gestureLive := false;
        releasePending := true;
      }
      frames := DragFrames(|rooms|, index, active, mx, width, t);
    }

    /** The last call of the drag handler after `cancel()`: the gesture library delivers it
      as inactive, so it cannot commit again, and in viewing mode it sends every spring
      `animateDrag` at rest, settling the images around the new focus. Without a pending
      release nothing happens. */
    method SettleAfterCancel(mx: real, width: real, t: Theme) returns (frames: seq<Props>)
      requires Valid()
      modifies this
      ensures Valid()
      ensures !releasePending && gestureLive == old(gestureLive)
      ensures frames == (if old(releasePending) && viewing then DragFrames(|rooms|, index, false, mx, width, t) else [])
      ensures old(releasePending) && viewing ==> forall i :: 0 <= i < |rooms| ==>
        frames[i].x == ZoomOut(rooms, index, i, width, width, t).x
      ensures rooms == old(rooms) && index == old(index) && prev == old(prev)
      ensures viewing == old(viewing) && pending == old(pending) && commits == old(commits)
    {
      frames := [];
      if !releasePending {
        return;
      }
      releasePending := false;
      if viewing {
        frames := DragFrames(|rooms|, index, false, mx, width, t);
        forall i | 0 <= i < |rooms|
          ensures frames[i].x == ZoomOut(rooms, index, i, width, width, t).x
        {
          DragRestsAtZoomOut(rooms, index, i, mx, width, t);
        }
      }
    }

    /** The `useSprings` initialiser over the whole list. It runs for every spring on mount
      and when the width changes, and for each spring created when the list grows; an
      appended room is focused, so it is the image that grows from scale 0. With a single
      room that room takes `setToInitial`, whose `setViewing(false)` leaves viewing mode;
      otherwise every image starts from `scaleUpNew`. */
    method InitSprings(innerWidth: real, width: real, t: Theme) returns (start: seq<Props>)
      requires Valid()
      modifies this
      ensures Valid()
      ensures |start| == |rooms|
      ensures |rooms| == 1 ==> start == [SetToInitial(rooms, index, 0, innerWidth, t)] && !viewing
      ensures |rooms| != 1 ==> viewing == old(viewing) && start == ScaleUpFrames(rooms, index, innerWidth, width, t)
      ensures rooms == old(rooms) && index == old(index) && prev == old(prev) && pending == old(pending)
      ensures gestureLive == old(gestureLive) && releasePending == old(releasePending) && commits == old(commits)
    {
      if |rooms| != 1 {
        start := ScaleUpFrames(rooms, index, innerWidth, width, t);
      } else {
        start := [SetToInitial(rooms, index, 0, innerWidth, t)];
        viewing := false;
      }
    }
  }
}
