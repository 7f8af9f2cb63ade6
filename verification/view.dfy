/** The image view of src/components/View.tsx. Each view renders room `i` of the shared
    state held by src/components/RoomsContext.tsx (the room list, the focus `imgIndex` and
    the viewing flag): its geometry, which controls it shows, and the list updates its
    buttons make. */
module View {
  import opened Rooms
  import Constants

  /** `marginX`: the free space at each side of an image in viewing mode. */
  function MarginX(width: real): (m: real)
    ensures m == width / 10.0
  {
    width * (1.0 - Constants.ViewScale) * 0.5
  }

  /** `viewingX`: the x of image `i` in viewing mode. */
  function ViewingX(i: int, imgIndex: int, width: real): (x: real)
    ensures i == imgIndex ==> x == 0.0
  {
    (i - imgIndex) as real * (width - MarginX(width) * 1.5)
  }

  /** `regularX`: the x of image `i` in browsing mode, one viewport width per place. */
  function RegularX(i: int, imgIndex: int, width: real): (x: real)
    ensures i == imgIndex ==> x == 0.0
  {
    (i - imgIndex) as real * width
  }

  /** Both layouts are linear in the offset: browsing puts neighbours one width apart,
      viewing 0.85 of a width apart, so the focus sits at 0 in both, the images keep their
      order, and viewing pulls every other image towards the focus. */
  lemma Geometry(i: int, j: int, imgIndex: int, width: real)
    ensures ViewingX(j, imgIndex, width) - ViewingX(i, imgIndex, width) == (j - i) as real * (0.85 * width)
    ensures RegularX(j, imgIndex, width) - RegularX(i, imgIndex, width) == (j - i) as real * width
    ensures width > 0.0 && i < j ==> ViewingX(i, imgIndex, width) < ViewingX(j, imgIndex, width)
    ensures width > 0.0 && i > imgIndex ==> 0.0 < ViewingX(i, imgIndex, width) < RegularX(i, imgIndex, width)
    ensures width > 0.0 && i < imgIndex ==> RegularX(i, imgIndex, width) < ViewingX(i, imgIndex, width) < 0.0
  {
    var stride := width - MarginX(width) * 1.5;
    assert stride == 0.85 * width;
    assert ViewingX(j, imgIndex, width) - ViewingX(i, imgIndex, width) == (j - i) as real * stride;
    assert RegularX(j, imgIndex, width) - RegularX(i, imgIndex, width) == (j - i) as real * width;
    if width > 0.0 {
      var o := (i - imgIndex) as real;
      if i < j {
        assert (j - i) as real * stride > 0.0;
      }
      if i > imgIndex {
        assert o * width - o * stride == o * (0.15 * width);
        assert o * (0.15 * width) > 0.0;
        assert o * stride > 0.0;
      }
      if i < imgIndex {
        assert o * stride - o * width == (-o) * (0.15 * width);
        assert (-o) * (0.15 * width) > 0.0;
        assert (-o) * stride > 0.0;
      }
    }
  }

  /** The scale target of an offset animation: the [1, IMAGE_JUMP, 1] jump keyframes or 1. */
  datatype ScaleAnim = Jump | Unit

  /** What a view sends its offset controls: an x target and, for the first effect, a scale. */
  datatype OffsetAnim = OffsetAnim(x: real, scale: Option<ScaleAnim>)

  /** The effect run when the list length or the focus changes. It targets the viewing x
      even in browsing mode, and jumps only in viewing mode. */
  function ListEffect(i: int, imgIndex: int, viewing: bool, width: real): (a: Option<OffsetAnim>)
    ensures a.None? <==> !InWindow(i - imgIndex)
    ensures a.Some? ==> a.value.x == ViewingX(i, imgIndex, width)
    ensures a.Some? ==> (a.value.scale == Some(Jump) <==> viewing) && a.value.scale.Some?
  {
    if Abs(i - imgIndex) > 2 then None
    else Some(OffsetAnim(ViewingX(i, imgIndex, width), Some(if viewing then Jump else Unit)))
  }

  /** The effect run when the viewing flag or the width changes: the x of the current mode. */
  function ModeEffect(i: int, imgIndex: int, viewing: bool, width: real): (a: Option<OffsetAnim>)
    ensures a.None? <==> !InWindow(i - imgIndex)
    ensures a.Some? ==> a.value.scale == None
    ensures a.Some? && viewing ==> a.value.x == ViewingX(i, imgIndex, width)
    ensures a.Some? && !viewing ==> a.value.x == RegularX(i, imgIndex, width)
  {
    if Abs(i - imgIndex) > 2 then None
    else Some(OffsetAnim(if viewing then ViewingX(i, imgIndex, width) else RegularX(i, imgIndex, width), None))
  }

  /** What a rendered view shows: the heart and delete buttons, the opacity of the info
      panel, the add button, the image's target scale and corner radius, and whether it
      is stacked on top. */
  datatype Controls = Controls(
    heart: bool,
    delete: bool,
    panelOpacity: real,
    addButton: bool,
    scale: real,
    radius: string,
    onTop: bool)

  /** The view of room `i`; `None` when it renders nothing. */
  function ControlsOf(rooms: seq<Room>, imgIndex: int, viewing: bool, i: int): (c: Option<Controls>)
    requires 0 <= i < |rooms|
    ensures c.None? <==> !InWindow(i - imgIndex)
    ensures c.Some? ==> (c.value.heart <==> viewing && IsFavourite(rooms[i]))
    ensures c.Some? ==> (c.value.delete <==> viewing)
    ensures c.Some? ==> (c.value.panelOpacity == 1.0 <==> viewing && i == imgIndex)
    ensures c.Some? ==> (c.value.panelOpacity == 0.0 <==> !(viewing && i == imgIndex))
    ensures c.Some? ==> (c.value.addButton <==> viewing && i == |rooms| - 1)
    ensures c.Some? ==> c.value.scale == (if viewing then Constants.ViewScale else 1.0)
    ensures c.Some? ==> c.value.radius == (if viewing then Constants.ViewRadius else "0px")
    ensures c.Some? ==> (c.value.onTop <==> i == imgIndex)
  {
    if Abs(i - imgIndex) > 2 then None
    else Some(Controls(
      viewing && IsFavourite(rooms[i]),
      viewing,
      if viewing && imgIndex == i then 1.0 else 0.0,
      i == |rooms| - 1 && viewing,
      if viewing then Constants.ViewScale else 1.0,
      if !viewing then "0px" else Constants.ViewRadius,
      i - imgIndex == 0))
  }

  /** Across the whole list: in browsing mode no view shows a control; in viewing mode the
      info panel is visible on at most one view, the focused one, and the add button on at
      most one, the last. */
  lemma ControlsAcrossViews(rooms: seq<Room>, imgIndex: int, viewing: bool, i: int, j: int)
    requires 0 <= i < |rooms| && 0 <= j < |rooms|
    requires ControlsOf(rooms, imgIndex, viewing, i).Some? && ControlsOf(rooms, imgIndex, viewing, j).Some?
    ensures var ci := ControlsOf(rooms, imgIndex, viewing, i).value;
      !viewing ==> !ci.heart && !ci.delete && ci.panelOpacity == 0.0 && !ci.addButton
    ensures var ci := ControlsOf(rooms, imgIndex, viewing, i).value;
            var cj := ControlsOf(rooms, imgIndex, viewing, j).value;
      && (ci.panelOpacity == 1.0 && cj.panelOpacity == 1.0 ==> i == j == imgIndex)
      && (ci.addButton && cj.addButton ==> i == j == |rooms| - 1)
      && (ci.heart ==> ci.delete)
  {
  }

  /** The state of src/components/RoomsContext.tsx that the views read and update. */
  class RoomsContext {
    var rooms: seq<Room>
    var imgIndex: int
    var viewing: bool

    /** The focus fits the list and no two rooms share an identifier. */
    ghost predicate Valid()
      reads this
    {
      FocusInRange(imgIndex, |rooms|) && UniqueIds(rooms)
    }

    /** The six demo rooms, focus 0, not viewing. */
    constructor (ids: seq<Id>)
      requires |ids| == 6 && forall j, k :: 0 <= j < k < 6 ==> ids[j] != ids[k]
      ensures Valid()
      ensures rooms == Constants.Pages(ids) && imgIndex == 0 && !viewing
    {
      rooms := Constants.Pages(ids);
      imgIndex := 0;
      viewing := false;
    }

    /** `setViewing`, exposed by the context. */
    method SetViewing(v: bool)
      requires Valid()
      modifies this
      ensures Valid()
      ensures viewing == v && rooms == old(rooms) && imgIndex == old(imgIndex)
    {
      viewing := v;
    }

    /** `onExitComplete` of the view of room `i`, once its exit animation ends: the focus
      steps back by one (floored at 0, capped by the length before the removal) whichever
      room was deleted, and every room with the deleted room's identifier is dropped. */
    method ExitComplete(i: int)
      requires Valid() && 0 <= i < |rooms|
      modifies this
      ensures Valid()
      ensures rooms == RemoveId(old(rooms), old(rooms)[i].id)
      ensures rooms == old(rooms)[..i] + old(rooms)[i + 1..]
      ensures imgIndex == Clamp(old(imgIndex) - 1, 0, |old(rooms)| - 1)
      ensures viewing == old(viewing)
    {
      imgIndex := Clamp(imgIndex - 1, 0, |rooms| - 1);
      var id := rooms[i].id;
      RemoveIdUnique(rooms, i);
      RemoveAtSplices(rooms, i);
      RemoveAtKeepsUnique(rooms, i);
      rooms := RemoveId(rooms, id);
    }

    /** The FAVOURITE button (and the heart) of the view of room `i`: rebuild the list
      with that room's flag flipped; the focus does not move. */
    method ToggleFavourite(i: int)
      requires Valid() && 0 <= i < |rooms|
      modifies this
      ensures Valid()
      ensures rooms == SpliceToggle(old(rooms), i)
      ensures imgIndex == old(imgIndex) && viewing == old(viewing)
    {
      rooms := SpliceToggle(rooms, i);
      assert forall k :: 0 <= k < |rooms| ==> rooms[k].id == old(rooms)[k].id;
    }

    /** The DUPLICATE button of the view of room `i`: insert a copy with the fresh identifier
      `freshId` (from `uuid()`) right after it, and move the focus one place right. */
    method Duplicate(i: int, freshId: Id)
      requires Valid() && 0 <= i < |rooms| && FreshId(rooms, freshId)
      modifies this
      ensures Valid()
      ensures rooms == InsertAfter(old(rooms), i, old(rooms)[i].(id := Some(freshId)))
      ensures imgIndex == old(imgIndex) + 1
      ensures RemoveId(rooms, Some(freshId)) == old(rooms)
      ensures viewing == old(viewing)
    {
      var copy := rooms[i].(id := Some(freshId));
      InsertFreshKeepsUnique(rooms, i, copy, freshId);
      rooms := InsertAfter(rooms, i, copy);
      imgIndex := imgIndex + 1;
    }
  }

  /** Removing one room keeps the identifiers unique. */
  lemma RemoveAtKeepsUnique(s: seq<Room>, p: int)
    requires UniqueIds(s) && 0 <= p < |s|
    ensures UniqueIds(RemoveAt(s, p))
  {
    var r := RemoveAt(s, p);
    forall j, k | 0 <= j < k < |r| ensures r[j].id != r[k].id {
      RemoveAtShifts(s, p, j);
      RemoveAtShifts(s, p, k);
    }
  }

  /** The focused room after a deletion completes. Because the focus always steps back,
      it stays on the same room exactly when the deleted room was before it, or when the
      focus was on the first room and another room was deleted. */
  lemma {:induction false} ExitCompleteFocus(s: seq<Room>, p: int, k: int)
    requires UniqueIds(s) && 0 <= p < |s| && 0 <= k < |s|
    ensures var r := RemoveId(s, s[p].id); var k' := Clamp(k - 1, 0, |s| - 1);
      && FocusInRange(k', |r|)
      && ((|r| > 0 && r[k'] == s[k]) <==> (p < k || (k == 0 && p > 0)))
  {
    var r := RemoveId(s, s[p].id);
    var k' := Clamp(k - 1, 0, |s| - 1);
    RemoveIdUnique(s, p);
    RemoveAtSplices(s, p);
    if p < k {
      RemoveAtShifts(s, p, k - 1);
    } else if k == 0 && p > 0 {
      RemoveAtShifts(s, p, 0);
    } else if |r| > 0 {
      if k > 0 {
        RemoveAtShifts(s, p, k - 1);
        assert r[k'] == s[k - 1];
        assert s[k - 1].id != s[k].id;
      } else {
        RemoveAtShifts(s, p, 0);
        assert r[k'] == s[1];
        assert s[1].id != s[0].id;
      }
    }
  }

  /** The focused room after a duplicate: the copy when the focused room was duplicated,
      the same room when an earlier one was, and the next room when a later one was. */
  lemma DuplicateFocus(s: seq<Room>, i: int, k: int, copy: Room)
    requires 0 <= i < |s| && 0 <= k < |s|
    ensures var r := InsertAfter(s, i, copy);
      && 0 <= k + 1 < |r|
      && r[k + 1] == (if i == k then copy else if i < k then s[k] else s[k + 1])
  {
  }
}
