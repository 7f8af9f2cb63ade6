/** The application constants and the demo rooms of src/constants.ts. */
module Constants {
  import opened Rooms

  /** VIEW_SCALE: the scale of an image in viewing mode. */
  const ViewScale: real := 0.8

  /** VIEW_RADIUS: the corner radius of an image in viewing mode, a CSS length. */
  const ViewRadius: string := "18px"

  /** The six demo rooms. Their identifiers come from `uuid()`, a foreign call, so they are
      a parameter here; `uuid()` is assumed to return six different values. */
  function Pages(ids: seq<Id>): (pages: seq<Room>)
    requires |ids| == 6
    ensures |pages| == 6
    ensures forall k :: 0 <= k < 6 ==> pages[k].id == Some(ids[k]) && !IsFavourite(pages[k])
    ensures forall k :: 0 <= k < 6 ==> pages[k].favourited.Some?
    ensures (forall j, k :: 0 <= j < k < 6 ==> ids[j] != ids[k]) ==> UniqueIds(pages)
  {
    [ Room(Some(ids[0]), "./assets/img1.png", "Living Room", "Dark forest hardwood", "Pearl white", Some(false)),
      Room(Some(ids[1]), "./assets/img2.png", "Cozy Bedroom", "Hawk maple hardwood", "Deep night blue", Some(false)),
      Room(Some(ids[2]), "./assets/img3.jpeg", "Minimalistic Living Space", "Light oak wood", "Soft ivory", Some(false)),
      Room(Some(ids[3]), "./assets/img4.jpeg", "Rustic Café", "Stone tile", "Weathered limestone", Some(false)),
      Room(Some(ids[4]), "./assets/img5.jpeg", "Sky-high Urban Spa", "Polished grey stone", "Neutral taupe", Some(false)),
      Room(Some(ids[5]), "./assets/img6.jpeg", "Sunlit Modern Retreat", "Bleached ash wood", "Matte eggshell white", Some(false)) ]
  }
}
