# Room carousel: state machine and per-image transforms

This project models the core of a full-screen image carousel of "rooms". The gallery keeps
an ordered list of rooms, a focus index, the previous focus and a viewing flag. Rooms can be
deleted, duplicated, favourited and appended after a fetch. In viewing mode a drag gesture
moves the focus one place. For every image the carousel derives its resting position, its
scale and corner radius, whether it is displayed, and which controls it shows.

The repository holds two divergent drafts of this feature. They are modelled side by side,
not reconciled:

- `App` (app.dfy) models src/App.tsx. Class `Gallery` holds the `rooms` state, the refs
  `index.current` and `prev.current`, the `viewing` and `pending` flags and the drag
  gesture's state. The pure functions are the per-index spring updates (`setToInitial`,
  `zoomOut`, `scaleUpNew`, `animateSlide`, `animateDrag`, `updateFavourites`). A spring
  update sets only some keys, so it is a record of `Option` fields, and `Merge` is the object
  spread `{ ...a, ...b }`.
- `View` (view.dfy) models src/components/View.tsx. Class `RoomsContext` holds the shared
  state of src/components/RoomsContext.tsx (`rooms`, `imgIndex`, `viewing`), and the view's
  button handlers are its methods. Pure functions give the geometry, the render window, the
  two effects and the control visibility.
- `Rooms` (rooms.dfy) holds what both drafts share: the `Room` record, lodash's `clamp`, and
  the list rebuilds as pure sequence functions. These are the positional filter, the id
  filter, the `map` toggle, the slice-and-spread toggle and the insert-after.
- `Constants` (constants.dfy) models src/constants.ts: `VIEW_SCALE`, `VIEW_RADIUS` and the
  six demo rooms.

The invariant proved for both classes is `FocusInRange`: the focus is never negative, and it
is a position of the list whenever the list is non-empty (0 when it is empty). Both classes
keep it through every operation. `Clamp` applies the upper bound first and the lower bound
last, as lodash does, so clamping into an empty list yields 0. The `View` state also keeps
room identifiers unique.

Each draft moves the focus differently when a room is deleted. `Gallery.DeleteRoom` keeps
the focus position, clamped. The focused room survives when a later room is deleted, or
when the focus is on the last room and an earlier room is deleted (`DeleteRoomFocus`). `RoomsContext.ExitComplete` always steps the focus back by one, floored
at 0 and capped by the length before the removal. The focused room survives exactly when an
earlier room is deleted, or when the first room is focused and another room is deleted
(`ExitCompleteFocus`, proved in both directions).

Geometry uses Dafny's `real` numbers as an idealisation of the source's floating point. Only
the linear x formulas are modelled.

Some behaviours of the code differ from what a reader of the feature might expect; the
model follows the code:

- In src/App.tsx a duplicate is appended at the end of the list and focused
  (`Gallery.Duplicate`). Only View.tsx inserts the copy right after its source.
- Removing the last room does not switch back to browsing mode in either draft. Apart from
  the user's own toggle, the one-room `useSprings` initialiser is the only thing that leaves
  viewing mode on its own (`Gallery.InitSprings`).
- `pending` does not cover the whole fetch. In src/App.tsx the `finally` clause clears it as
  soon as the request settles, before the image has loaded and the room is appended
  (`Gallery.FetchSettled`).
- A failed fetch adds no room: there is no fallback sequence, and src/App.tsx only logs.
- In View.tsx, the effect that runs on a length or focus change targets the viewing x even
  in browsing mode (`ListEffect`).

## Model

| member | source | states |
|---|---|---|
| Rooms.Clamp | src/App.tsx:187 | lodash `clamp` applies the upper bound and then the lower bound, so the result is never below `lower`; it stays within `[lower, upper]` when that range is non-empty and leaves values inside the range unchanged |
| Rooms.ClampIsInRange | src/App.tsx:187 | clamping to `[0, len-1]` always gives a focus in range, and 0 for an empty list |
| Rooms.Flip | src/App.tsx:263 | `{...room, favourited: !room.favourited}` inverts the favourite state, always defines the flag and changes no other field |
| Rooms.FlipTwice | src/components/View.tsx:88 | flipping twice restores the favourite state, and restores the record exactly when its optional flag was defined |
| Rooms.RemoveAt | src/App.tsx:184 | the positional `filter` shortens the list by one exactly when `i` is a position of it |
| Rooms.RemoveAtSplices | src/App.tsx:184 | `deleteRoom`'s filter removes exactly the room at `i` and keeps the others in order; an `i` outside the list changes nothing |
| Rooms.RemoveAtShifts | src/App.tsx:184 | after the removal, rooms before `i` keep their positions and later rooms move one place left |
| Rooms.RemoveAtUndoesAppend | src/App.tsx:269 | deleting the last position undoes an append, so a duplicate or fetch append is removable again |
| Rooms.RemoveId | src/components/View.tsx:56 | the id filter keeps no room with the deleted id, adds nothing and never grows the list |
| Rooms.RemoveIdAbsent | src/components/View.tsx:56 | filtering an id that no room carries leaves the list unchanged |
| Rooms.RemoveIdUnique | src/components/View.tsx:56 | with unique ids, the id filter removes exactly the deleted room and preserves the order of the rest |
| Rooms.ToggleAt | src/App.tsx:263 | the favourite `map` keeps the length and every other room, flips only room `i`, and changes nothing else in that room |
| Rooms.ToggleAtTwice | src/App.tsx:263 | toggling the same position twice restores every room's favourite state; it restores the list exactly when `i` is outside it or that room's flag was defined |
| Rooms.SpliceToggle | src/components/View.tsx:128 | the slice-and-spread rebuild equals the positional `map` toggle, so it has the same length, order and involution properties |
| Rooms.InsertAfter | src/components/View.tsx:131 | inserting after `i` grows the list by one; positions up to `i` are unchanged, the copy is at `i+1` and later rooms shift right by one |
| Rooms.RemoveAtUndoesInsertAfter | src/components/View.tsx:131 | deleting position `i+1` undoes the insertion |
| Rooms.InsertFreshKeepsUnique | src/components/View.tsx:131 | a copy with a fresh `uuid()` keeps ids unique, and filtering out that id restores the list |
| Constants.Pages | src/constants.ts:27-75 | six demo rooms, none favourited; their ids are unique when `uuid()` returns distinct values |
| App.Merge | src/App.tsx:140 | the object spread `{ ...a, ...b }`: spreading an empty object on either side changes nothing, an update that sets every key replaces what it is spread over, and a full update stays full |
| App.MergeAssociative | src/App.tsx:77 | nested spreads can be regrouped, so the order of the spreads alone decides which key wins |
| App.ScaledMarginX | src/App.tsx:43 | `SCALED_MARGIN_X`: the two margins and the scaled image fill the width exactly, and for a scale factor in [0, 1] a margin is between 0 and half the width |
| App.Stride | src/App.tsx:64 | the viewing stride is the viewport minus `LAP_FACTOR` (1.5) margins; at the measured width it is a quarter of the width plus three quarters of the scaled width |
| App.SlideX | src/App.tsx:64 | in viewing mode the focused image rests at x = 0 |
| App.StrideBounds | src/App.tsx:103 | for a scale factor strictly between 0 and 1, the stride `width - SCALED_MARGIN_X * LAP_FACTOR` is positive and shorter than the width, so neighbours reach into the margins |
| App.SlideSpacing | src/App.tsx:103-104 | viewing positions are linear in the offset, one stride apart, and keep the images in order |
| App.PanelLevel | src/App.tsx:56 | the info panel opacity is 1 exactly for offset 0 and 0 otherwise |
| App.FavouriteScale | src/App.tsx:57 | the heart scale is non-zero exactly for a favourite, given a non-zero `SCALE_FACTOR` |
| App.SetToInitial | src/App.tsx:47-60 | browsing transform: every key is set; scale 1, radius 0, no blur, delete button scale 0; x is the window width times the offset, so the focus sits at x = 0; the panel level is `PanelLevel` of the offset; hidden exactly outside the window of two places; panel opaque exactly on the focus; the heart key is always set, to `SCALE_FACTOR` for a favourite and 0 otherwise |
| App.BrowsingSpacing | src/App.tsx:49-51 | browsing positions are linear in the offset, one window width apart, and keep the images in order for a positive width |
| App.ZoomOut | src/App.tsx:61-71 | viewing transform: viewing x; scale and delete scale `SCALE_FACTOR`; radius `SCALED_R`; `display` and `filter` untouched; the panel level is `PanelLevel` of the offset, so opaque exactly on the focus and 0 on every other image; the heart key is always set, to `SCALE_FACTOR` for a favourite and 0 otherwise |
| App.ScaleUpNew | src/App.tsx:73-84 | a spring's starting values equal `zoomOut`'s except that only the focused image starts at scale 0 |
| App.AnimateSlide | src/App.tsx:86-96 | after a list change each image goes to its viewing x; it is hidden exactly when it lies more than one place left of the previous focus; the panel level is `PanelLevel` of the offset, opaque exactly on the focus and 0 elsewhere; favourite and delete scales are untouched |
| App.UpdateFavourites | src/App.tsx:98 | sets only the favourite scale, which is non-zero exactly while viewing a favourite |
| App.AnimateDrag | src/App.tsx:100-118 | every image, hidden or not, gets its viewing x plus the live drag offset, never a clamped value; outside the window only `display: none` and `x` are set; at rest the scale is `SCALE_FACTOR`, there is no blur and the panel is opaque only on the focus; a drag never sets the corner radius, the heart or the delete button |
| App.DragRestsAtZoomOut | src/App.tsx:100-104 | on release each image's x coincides with `zoomOut`'s when the window and measured widths agree |
| App.DragFrames | src/App.tsx:127 | the drag handler sends `animateDrag` to every spring, one per room |
| App.ScaleUpFrames | src/App.tsx:130-133 | the springs initialiser gives every spring its `scaleUpNew` start |
| App.RoomsEffect | src/App.tsx:139-141 | on a list change each spring `i` receives `updateFavourites(i)` overridden by `animateSlide(i)`, one update per room |
| App.ViewingEffect | src/App.tsx:143-146 | on a viewing toggle each spring `i` receives `zoomOut(i)` (when viewing) or `setToInitial(i)` (otherwise), overridden by `updateFavourites(i)`, one update per room |
| App.EffectsShowHeartsOnlyWhileViewing | src/App.tsx:139-146 | after either effect the heart is shown exactly on favourites while viewing: `updateFavourites` overrides the other transforms' favourite scale |
| App.LeavingViewingSettles | src/App.tsx:143-146 | leaving viewing mode restores the browsing layout: full scale, square corners, no heart, no delete button, panel only on the focus, hidden outside the window |
| App.Commits | src/App.tsx:123 | the commit test: only an active gesture commits, once it has travelled beyond `SCALED_WIDTH / SNAP_DIVISOR` |
| App.CommitsMonotone | src/App.tsx:123 | a drag that travels further than one that commits also commits |
| App.DragTarget | src/App.tsx:124 | a committed drag moves the focus one step back for `xDir > 0` and one step forward otherwise, clamped; the result is in range and never more than one place away |
| App.RoomOfImage | src/App.tsx:154-159 | a fetched room copies the url, username and name; a missing or empty country becomes 'No Location'; the floor is never empty; the room has no id and is not favourited |
| App.DeleteRoomFocus | src/App.tsx:184-187 | after `deleteRoom` the focus stays on its room when a later room was deleted; otherwise it moves to the room that slid into its place, or to the new last room |
| App.Gallery.constructor | src/App.tsx:34-41 | the initial state is `initialRooms`, or an empty list; both refs are 0; not viewing; nothing pending |
| App.Gallery.DeleteRoom | src/App.tsx:183-188 | the rooms become the positional filter, `prev` takes the old focus and the focus is clamped to the new length; the focus stays in range and is 0 on an empty list |
| App.Gallery.ToggleFavourite | src/App.tsx:263 | the rooms become the `map` toggle; the focus, `prev` and flags are unchanged |
| App.Gallery.Duplicate | src/App.tsx:267-272 | the same room is appended at the end; `prev` takes the old focus and the focus moves to the old length, the new last position, which holds the copy |
| App.Gallery.ToggleView | src/App.tsx:194 | viewing flips and nothing else changes |
| App.Gallery.BeginFetch | src/App.tsx:148-151 | a fetch starts only when none is pending, and afterwards one is pending |
| App.Gallery.FetchSettled | src/App.tsx:153-180 | a response yields the room to preload (an error yields none); the `finally` clause clears `pending` either way |
| App.Gallery.AppendLoaded | src/App.tsx:162-168 | the loaded room is appended; `prev` takes the old focus, the focus moves to the new last room, and `pending` is cleared |
| App.Gallery.StartGesture | src/App.tsx:121 | a new drag gesture starts with no commits |
| App.Gallery.OnDrag | src/App.tsx:121-128 | no-op outside viewing mode or after the gesture ended; commits only when active beyond `SCALED_WIDTH / SNAP_DIVISOR`, moving to `DragTarget` and ending the gesture; the invariant keeps at most one commit per gesture; while viewing every spring receives `animateDrag` at the new focus; a commit leaves the final release event owed |
| App.Gallery.SettleAfterCancel | src/App.tsx:121-127 | the handler's last, inactive call after `cancel()`: it cannot commit, and while viewing every spring is sent `animateDrag` at rest, which puts each image where `zoomOut` does around the new focus; without a pending release nothing changes |
| App.Gallery.InitSprings | src/App.tsx:130-136 | with exactly one room, that room gets `setToInitial` and viewing mode is left; otherwise every spring starts from `scaleUpNew` |
| View.MarginX | src/components/View.tsx:27 | the side margin is a tenth of the width, since `VIEW_SCALE` is 0.8 |
| View.ViewingX | src/components/View.tsx:29 | the focused image rests at x = 0 in viewing mode |
| View.RegularX | src/components/View.tsx:30 | the focused image rests at x = 0 in browsing mode |
| View.Geometry | src/components/View.tsx:26-30 | both layouts are linear in the offset, one width or 0.85 width apart; they keep the images in order, and viewing pulls every other image towards the focus |
| View.ListEffect | src/components/View.tsx:32-41 | no animation outside the window; inside it, the x target is the viewing x in both modes, with a scale jump exactly in viewing mode |
| View.ModeEffect | src/components/View.tsx:43-48 | no animation outside the window; inside it, the x target is the viewing x when viewing and the regular x otherwise |
| View.ControlsOf | src/components/View.tsx:50-143 | nothing is rendered outside the window; the heart shows exactly while viewing a favourite; delete shows exactly while viewing; the panel is opaque exactly while viewing the focus; the add button shows exactly on the last room while viewing; scale and radius are `VIEW_SCALE` and `VIEW_RADIUS` when viewing, 1 and '0px' otherwise |
| View.ControlsAcrossViews | src/components/View.tsx:84-143 | browsing shows no controls; in viewing mode at most one view (the focus) has an opaque panel and at most one (the last) has the add button; a heart implies a delete button |
| View.RoomsContext.constructor | src/components/RoomsContext.tsx:8-10 | the initial state is the six demo rooms, focus 0, not viewing, with unique ids |
| View.RoomsContext.SetViewing | src/components/RoomsContext.tsx:9 | only the viewing flag changes |
| View.RoomsContext.ExitComplete | src/components/View.tsx:54-57 | the rooms with the deleted room's id are removed, which is exactly that room, and the others keep their order; the focus becomes `clamp(imgIndex - 1, 0, oldLength - 1)` and stays in range |
| View.RoomsContext.ToggleFavourite | src/components/View.tsx:128 | the slice-and-spread toggle flips only room `i`; the focus is unchanged and ids stay unique |
| View.RoomsContext.Duplicate | src/components/View.tsx:129-133 | a copy with a fresh id is inserted after `i` and the focus moves right by one, staying in range; filtering the new id restores the old list |
| View.RemoveAtKeepsUnique | src/components/View.tsx:56 | removing one room keeps the ids unique |
| View.ExitCompleteFocus | src/components/View.tsx:55-56 | after a delete completes, the focus stays in range; it stays on the same room exactly when the deleted room came before it, or when the focus was on the first room and another room was deleted |
| View.DuplicateFocus | src/components/View.tsx:131-132 | after a duplicate the focus lands on the copy when the focused room was duplicated, stays on its room when an earlier room was, and moves to the next room when a later room was |

## Left out

- Rendering and animation are not modelled: React, `animated`/`motion` components, springs,
  easing, `SPRING_OPTIONS`, the `IMAGE_JUMP` keyframes (kept only as the `Jump` marker), the
  backdrop opacity `[0, 1, 0]` and `AnimatePresence` timing. A deletion is the single step
  `RoomsContext.ExitComplete`; the `deleted` flag that starts the exit animation is not
  modelled.
- The drag interpolations of `animateDrag` are not computed: the scale, blur and panel
  opacity that follow the drag distance (src/App.tsx:108-110) use `BLUR_FACTOR` and floating
  point, so they appear only as `Interpolated`. Blur is a pixel value here, not a CSS string.
- ./templates/constants is not part of this model. `SCALE_FACTOR`, `SCALED_R` and
  `SNAP_DIVISOR` are the parameter `Theme`. `App.Gallery.OnDrag` requires a non-zero
  `SNAP_DIVISOR`, because real division by zero is undefined.
- The network and timers are not modelled: the Unsplash request, the image preload, the
  600 ms delay and the 300 ms debounce. The response is a parameter of
  `App.Gallery.FetchSettled`, and error logging is left out.
- Clipboard writes and the `copied` timeout are browser I/O and are not modelled.
- `uuid()` is a foreign call. Fresh ids are parameters, assumed not already in the list.
- `View` reads its own `room` prop; the model reads `rooms[i]` instead, assuming the parent
  renders each view with the room at its position. That parent is not part of this model.
- The presentational components, src/main.tsx and the context guard in
  src/hooks/useRoomsContext.ts are not modelled. `noEnvIndex` is stored in the context but
  never read by the modelled code.
- The window width and height that the context stores (and their setters) are parameters.
- Handlers that read `rooms` captured at render time are modelled as atomic steps on the
  current state, so stale closures are not captured.
- The gesture library is reduced to two flags: events arrive only while the gesture is
  live, a gesture ends on release or on `cancel()`, and after `cancel()` exactly one final
  inactive event follows (`Gallery.SettleAfterCancel`).
- App.ScaleUpNew: only the `from` values of `scaleUpNew` are modelled; its `to` target (scale
  `SCALE_FACTOR`, src/App.tsx:80-82) is left to the spring library and appears in no contract.
- The rest of src/App.tsx's markup is not modelled: panel offsets, `SCALED_MARGIN_Y`, z-index
  and its own add button.
