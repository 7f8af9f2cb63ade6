/** The room record shared by both carousel drafts, lodash's `clamp`, and the list
    rebuilds (filter, map, slice and spread) that the event handlers perform. */
module Rooms {

  datatype Option<+T> = None | Some(value: T)

  type Id = string

  /** One room of the gallery. `id` is absent on rooms built by src/App.tsx, whose
      `Room` type has no id; `favourited` is an optional field, and absent reads as false. */
  datatype Room = Room(
    id: Option<Id>,
    src: string,
    title: string,
    floor: string,
    wall: string,
    favourited: Option<bool>)

  /** JavaScript truthiness of `room.favourited`. */
  predicate IsFavourite(r: Room) {
    r.favourited == Some(true)
  }

  /** `{ ...room, favourited: !room.favourited }` */
  function Flip(r: Room): (f: Room)
    ensures IsFavourite(f) <==> !IsFavourite(r)
    ensures f.favourited.Some?
    ensures f.(favourited := r.favourited) == r
  {
    r.(favourited := Some(!IsFavourite(r)))
  }

  /** Flipping twice restores whether the room is favourited, and restores the record
      itself exactly when its flag was defined. */
  lemma FlipTwice(r: Room)
    ensures IsFavourite(Flip(Flip(r))) == IsFavourite(r)
    ensures Flip(Flip(r)) == r <==> r.favourited.Some?
  {
    if r.favourited.Some? {
      assert IsFavourite(r) == r.favourited.value;
      assert Flip(Flip(r)).favourited == Some(IsFavourite(r));
    }
  }

  function Abs(n: int): (m: nat)
    ensures m == n || m == -n
  {
    if n < 0 then -n else n
  }

  /** Inside the rendering window: at most two places from the focus. Both drafts neither
      render nor animate an image outside it. */
  predicate InWindow(offset: int) {
    Abs(offset) <= 2
  }

  /** `clamp(x, lower, upper)` of lodash: the upper bound is applied first and the lower
      bound last, so when `upper < lower` the result is `lower`. */
  function Clamp(x: int, lower: int, upper: int): (r: int)
    ensures r >= lower
    ensures lower <= upper ==> r <= upper
    ensures lower <= x <= upper ==> r == x
    ensures x > upper ==> r == (if upper >= lower then upper else lower)
    ensures x < lower ==> r == lower
  {
    var capped := if x <= upper then x else upper;
    if capped >= lower then capped else lower
  }

  /** `s.filter((_, j) => i !== j)`: drop the element at position `i`, if there is one. */
  function RemoveAt<T>(s: seq<T>, i: int): (r: seq<T>)
    ensures |r| == if 0 <= i < |s| then |s| - 1 else |s|
    decreases |s|
  {
    if s == [] then []
    else (if i == 0 then [] else [s[0]]) + RemoveAt(s[1..], i - 1)
  }

  /** The positional filter keeps every other element, in order. */
  lemma {:induction false} RemoveAtSplices<T>(s: seq<T>, i: int)
    ensures 0 <= i < |s| ==> RemoveAt(s, i) == s[..i] + s[i + 1..]
    ensures !(0 <= i < |s|) ==> RemoveAt(s, i) == s
    decreases |s|
  {
    if s == [] {
    } else if i == 0 {
      RemoveAtSplices(s[1..], -1);
    } else {
      var t := s[1..];
      RemoveAtSplices(t, i - 1);
      assert RemoveAt(s, i) == [s[0]] + RemoveAt(t, i - 1);
      if 0 < i < |s| {
        assert t[..i - 1] == s[1..i];
        assert t[i - 1 + 1..] == s[i + 1..];
        assert [s[0]] + (s[1..i] + s[i + 1..]) == s[..i] + s[i + 1..];
      } else {
        assert [s[0]] + t == s;
      }
    }
  }

  /** Position by position: before `i` nothing moves, from `i` on everything moves left by one. */
  lemma RemoveAtShifts<T>(s: seq<T>, i: int, k: int)
    requires 0 <= i < |s| && 0 <= k < |s| - 1
    ensures k < i ==> RemoveAt(s, i)[k] == s[k]
    ensures k >= i ==> RemoveAt(s, i)[k] == s[k + 1]
  {
    RemoveAtSplices(s, i);
  }

  /** Deleting the last element by position undoes an append. */
  lemma RemoveAtUndoesAppend<T>(s: seq<T>, x: T)
    ensures RemoveAt(s + [x], |s|) == s
  {
    RemoveAtSplices(s + [x], |s|);
    assert (s + [x])[..|s|] == s;
  }

  /** A focus index that fits a list of length `len`: a position of the list, or 0 when the
      list is empty. */
  predicate FocusInRange(index: int, len: int) {
    0 <= index && (index < len || index == 0)
  }

  /** Clamping to `[0, len - 1]`, as both drafts do, always yields an index in range. */
  lemma ClampIsInRange(x: int, len: nat)
    ensures FocusInRange(Clamp(x, 0, len - 1), len)
  {
  }

  /** No two rooms share an identifier. */
  predicate UniqueIds(s: seq<Room>) {
    forall j, k :: 0 <= j < k < |s| ==> s[j].id != s[k].id
  }

  /** `id` is not used by any room of `s`. */
  predicate FreshId(s: seq<Room>, id: Id) {
    forall k :: 0 <= k < |s| ==> s[k].id != Some(id)
  }

  /** `s.filter(r => r.id !== id)` */
  function RemoveId(s: seq<Room>, id: Option<Id>): (r: seq<Room>)
    ensures |r| <= |s|
    ensures forall k :: 0 <= k < |r| ==> r[k].id != id
    ensures forall k :: 0 <= k < |r| ==> r[k] in s
    decreases |s|
  {
    if s == [] then []
    else (if s[0].id == id then [] else [s[0]]) + RemoveId(s[1..], id)
  }

  /** Filtering out an identifier that no room carries changes nothing. */
  lemma {:induction false} RemoveIdAbsent(s: seq<Room>, id: Option<Id>)
    requires forall k :: 0 <= k < |s| ==> s[k].id != id
    ensures RemoveId(s, id) == s
    decreases |s|
  {
    if s != [] {
      RemoveIdAbsent(s[1..], id);
      assert [s[0]] + s[1..] == s;
    }
  }

  /** With unique identifiers, filtering out the identifier of the room at `p` removes
      exactly that room and keeps the others in their order. */
  lemma {:induction false} RemoveIdUnique(s: seq<Room>, p: int)
    requires UniqueIds(s) && 0 <= p < |s|
    ensures RemoveId(s, s[p].id) == s[..p] + s[p + 1..]
    decreases |s|
  {
    var id := s[p].id;
    if p == 0 {
      RemoveIdAbsent(s[1..], id);
    } else {
      var t := s[1..];
      UniqueTail(s);
      assert t[p - 1] == s[p];
      RemoveIdUnique(t, p - 1);
      assert s[0].id != id;
      assert RemoveId(s, id) == [s[0]] + (t[..p - 1] + t[p..]);
      assert t[..p - 1] == s[1..p] && t[p..] == s[p + 1..];
      assert [s[0]] + s[1..p] == s[..p];
    }
  }

  /** Dropping the first room keeps the identifiers unique. */
  lemma UniqueTail(s: seq<Room>)
    requires UniqueIds(s) && s != []
    ensures UniqueIds(s[1..])
  {
    forall j, k | 0 <= j < k < |s| - 1 ensures s[1..][j].id != s[1..][k].id {
      assert s[1..][j] == s[j + 1] && s[1..][k] == s[k + 1];
    }
  }

  /** `rooms.map((room, j) => i === j ? { ...room, favourited: !room.favourited } : room)` */
  function ToggleAt(s: seq<Room>, i: int): (r: seq<Room>)
    ensures |r| == |s|
    ensures forall j :: 0 <= j < |s| && j != i ==> r[j] == s[j]
    ensures 0 <= i < |s| ==> IsFavourite(r[i]) != IsFavourite(s[i])
    ensures 0 <= i < |s| ==> r[i].(favourited := s[i].favourited) == s[i]
  {
    seq(|s|, j requires 0 <= j < |s| => if j == i then Flip(s[j]) else s[j])
  }

  /** Toggling the same position twice restores every room's favourite state, and
      restores the list itself exactly when that room's flag was defined. */
  lemma ToggleAtTwice(s: seq<Room>, i: int)
    ensures |ToggleAt(ToggleAt(s, i), i)| == |s|
    ensures forall j :: 0 <= j < |s| ==> IsFavourite(ToggleAt(ToggleAt(s, i), i)[j]) == IsFavourite(s[j])
    ensures ToggleAt(ToggleAt(s, i), i) == s <==> !(0 <= i < |s|) || s[i].favourited.Some?
  {
    var t := ToggleAt(ToggleAt(s, i), i);
    if 0 <= i < |s| {
      FlipTwice(s[i]);
      assert t[i] == Flip(Flip(s[i]));
      if s[i].favourited.Some? {
        assert t == s;
      }
    } else {
      assert t == s;
    }
  }

  /** `[...s.slice(0, i), { ...s[i], favourited: !s[i].favourited }, ...s.slice(i + 1)]` */
  function SpliceToggle(s: seq<Room>, i: int): (r: seq<Room>)
    requires 0 <= i < |s|
    ensures r == ToggleAt(s, i)
  {
    var r := s[..i] + [Flip(s[i])] + s[i + 1..];
    assert forall j :: 0 <= j < |s| ==> r[j] == ToggleAt(s, i)[j];
    r
  }

  /** `[...s.slice(0, i + 1), x, ...s.slice(i + 1)]`: insert `x` right after position `i`. */
  function InsertAfter<T>(s: seq<T>, i: int, x: T): (r: seq<T>)
    requires 0 <= i < |s|
    ensures |r| == |s| + 1 && r[i + 1] == x
    ensures forall k :: 0 <= k <= i ==> r[k] == s[k]
    ensures forall k :: i < k < |s| ==> r[k + 1] == s[k]
  {
    s[..i + 1] + [x] + s[i + 1..]
  }

  /** Deleting the inserted element by position undoes the insertion. */
  lemma RemoveAtUndoesInsertAfter<T>(s: seq<T>, i: int, x: T)
    requires 0 <= i < |s|
    ensures RemoveAt(InsertAfter(s, i, x), i + 1) == s
  {
    var r := InsertAfter(s, i, x);
    RemoveAtSplices(r, i + 1);
    assert r[..i + 1] + r[i + 2..] == s;
  }

  /** Inserting a room with a fresh identifier keeps the identifiers unique, and
      filtering that identifier out again restores the list. */
  lemma InsertFreshKeepsUnique(s: seq<Room>, i: int, x: Room, id: Id)
    requires UniqueIds(s) && 0 <= i < |s| && FreshId(s, id) && x.id == Some(id)
    ensures UniqueIds(InsertAfter(s, i, x))
    ensures RemoveId(InsertAfter(s, i, x), Some(id)) == s
  {
    var r := InsertAfter(s, i, x);
    InsertFreshUnique(s, i, x, id);
    RemoveIdUnique(r, i + 1);
    assert r[..i + 1] + r[i + 2..] == s;
  }

  /** The uniqueness half of `InsertFreshKeepsUnique`, pair by pair. */
  lemma InsertFreshUnique(s: seq<Room>, i: int, x: Room, id: Id)
    requires UniqueIds(s) && 0 <= i < |s| && FreshId(s, id) && x.id == Some(id)
    ensures UniqueIds(InsertAfter(s, i, x))
  {
    var r := InsertAfter(s, i, x);
    forall j, k | 0 <= j < k < |r| ensures r[j].id != r[k].id {
      var sj := if j <= i then j else j - 1;
      var sk := if k <= i then k else k - 1;
      if j != i + 1 && k != i + 1 {
        assert r[j] == s[sj] && r[k] == s[sk];
      } else if j == i + 1 {
        assert r[k] == s[sk];
      } else {
        assert r[j] == s[sj];
      }
    }
  }
}
