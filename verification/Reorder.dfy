/**
 Reordering by drag and drop on the portfolio page (frontend/src/pages/Stocks.tsx): while an
 item is dragged, every item it passes over triggers a preview that moves and renumbers the
 list; dropping it sends the new order to the server.
 */
module Reorder {
  import opened Wrappers
  import opened Sorting

  /** A stock or a position: its id, its place, and whatever else it holds. */
  datatype Ranked<T> = Ranked(id: int, sortOrder: Option<int>, data: T)

  predicate DistinctIds<T>(list: seq<Ranked<T>>) {
    forall i, j | 0 <= i < j < |list| :: list[i].id != list[j].id
  }

  function Ids<T>(list: seq<Ranked<T>>): seq<int> {
    seq(|list|, i requires 0 <= i < |list| => list[i].id)
  }

  // ---- Moving one item ---------------------------------------------------------------------------

  /** The index of the first item with this id, or the length of the list. */
  function IndexOf<T>(list: seq<Ranked<T>>, id: int): nat {
    if list == [] || list[0].id == id then 0 else 1 + IndexOf(list[1..], id)
  }

  lemma {:induction false} IndexOfIsFirst<T>(list: seq<Ranked<T>>, id: int)
    ensures var k := IndexOf(list, id);
            && k <= |list| && (k < |list| ==> list[k].id == id)
            && (forall i | 0 <= i < k :: list[i].id != id)
  {
    if list == [] || list[0].id == id {
    } else {
      IndexOfIsFirst(list[1..], id);
    }
  }

  function RemoveAt<T>(list: seq<T>, k: nat): seq<T>
    requires k < |list|
  {
    list[..k] + list[k + 1..]
  }

  function MoveTo<T>(list: seq<T>, from: nat, to: nat): seq<T>
    requires from < |list| && to < |list|
  {
    var rest := RemoveAt(list, from);
    rest[..to] + [list[from]] + rest[to..]
  }

  lemma {:induction false} RemoveAtDropsOne<T>(list: seq<T>, k: nat)
    requires k < |list|
    ensures multiset(list) == multiset(RemoveAt(list, k)) + multiset{list[k]}
    ensures multiset(RemoveAt(list, k)) == multiset(list) - multiset{list[k]}
  {
    assert list == list[..k] + [list[k]] + list[k + 1..];
  }

  lemma {:induction false} MoveBack<T>(list: seq<T>, from: nat, to: nat)
    requires from < |list| && to < |list|
    ensures var moved := MoveTo(list, from, to);
            && |moved| == |list| && moved[to] == list[from]
            && RemoveAt(moved, to) == RemoveAt(list, from)
            && MoveTo(moved, to, from) == list
  {}

  /** The moved item arrives at `to`, the others keep their order, and moving back undoes it. */
  lemma {:induction false} MoveToSpec<T>(list: seq<T>, from: nat, to: nat)
    requires from < |list| && to < |list|
    ensures var moved := MoveTo(list, from, to);
            && |moved| == |list|
            && moved[to] == list[from]
            && RemoveAt(moved, to) == RemoveAt(list, from)
            && multiset(moved) == multiset(list)
            && MoveTo(moved, to, from) == list
  {
    MoveBack(list, from, to);
    RemoveAtDropsOne(list, from);
    RemoveAtDropsOne(MoveTo(list, from, to), to);
  }

  predicate Movable<T>(list: seq<Ranked<T>>, fromId: int, toId: int) {
    IndexOf(list, fromId) < |list| && IndexOf(list, toId) < |list|
  }

  function Moved<T>(list: seq<Ranked<T>>, fromId: int, toId: int): seq<Ranked<T>> {
    if Movable(list, fromId, toId) then MoveTo(list, IndexOf(list, fromId), IndexOf(list, toId)) else list
  }

  /** list.findIndex(x => x.id === id), with -1 for "not found" */
  method FindIndex<T>(list: seq<Ranked<T>>, id: int) returns (k: int)
    ensures k == if IndexOf(list, id) < |list| then IndexOf(list, id) else -1
  {
    IndexOfIsFirst(list, id);
    for i := 0 to |list|
      invariant forall j | 0 <= j < i :: list[j].id != id
    {
      if list[i].id == id {
        return i;
      }
    }
    assert IndexOf(list, id) == |list|;
    return -1;
  }

  /** moveById: two splices on a copy of the list. */
  method MoveById<T>(list: seq<Ranked<T>>, fromId: int, toId: int) returns (next: seq<Ranked<T>>)
    ensures next == Moved(list, fromId, toId)
    ensures multiset(next) == multiset(list)
  {
    var fromIdx := FindIndex(list, fromId);
    var toIdx := FindIndex(list, toId);
    if fromIdx >= 0 && toIdx >= 0 {
      MoveToSpec(list, fromIdx, toIdx);
    }
    if fromIdx < 0 || toIdx < 0 || fromIdx == toIdx {
      assert fromIdx >= 0 && toIdx >= 0 ==> MoveTo(list, fromIdx, toIdx) == list;
      return list;
    }
    next := list;
    var moved := next[fromIdx];
    next := next[..fromIdx] + next[fromIdx + 1..];
    next := next[..toIdx] + [moved] + next[toIdx..];
  }

  // ---- One preview --------------------------------------------------------------------------------

  function Renumber<T>(list: seq<Ranked<T>>): seq<Ranked<T>> {
    seq(|list|, i requires 0 <= i < |list| => list[i].(sortOrder := Some(i + 1)))
  }

  predicate Numbered<T>(list: seq<Ranked<T>>) {
    forall i | 0 <= i < |list| :: list[i].sortOrder == Some(i + 1)
  }

  /** (a.sort_order || 0) - (b.sort_order || 0) || a.id - b.id < 0 */
  predicate Before<T>(a: Ranked<T>, b: Ranked<T>) {
    var x, y := a.sortOrder.GetOr(0), b.sortOrder.GetOr(0);
    x < y || (x == y && a.id < b.id)
  }

  /** The order in which the watchlist is displayed. */
  function Displayed<T>(list: seq<Ranked<T>>): seq<Ranked<T>> {
    Sort((a: Ranked<T>, b: Ranked<T>) => Before(a, b), list)
  }

  predicate InOrder<T>(list: seq<Ranked<T>>) {
    forall i, j | 0 <= i < j < |list| :: !Before(list[j], list[i])
  }

  lemma {:induction false} DisplayedFacts<T(!new)>(list: seq<Ranked<T>>)
    ensures multiset(Displayed(list)) == multiset(list) && |Displayed(list)| == |list|
    ensures InOrder(Displayed(list))
    ensures InOrder(list) ==> Displayed(list) == list
  {
    var less := (a: Ranked<T>, b: Ranked<T>) => Before(a, b);
    SortPermutes(less, list);
    SortSorts(less, list);
    if InOrder(list) {
      SortOfSorted(less, list);
    }
    assert forall i, j | 0 <= i < j < |list| :: less(Displayed(list)[j], Displayed(list)[i]) == Before(Displayed(list)[j], Displayed(list)[i]);
  }

  lemma {:induction false} NumberedIsInOrder<T(!new)>(list: seq<Ranked<T>>)
    requires Numbered(list)
    ensures InOrder(list) && Displayed(list) == list
  {
    DisplayedFacts(list);
  }

  /** previewWatchlistReorder on the list of stocks */
  function Preview<T>(list: seq<Ranked<T>>, fromId: int, toId: int): seq<Ranked<T>> {
    if fromId == toId then list else Renumber(Moved(Displayed(list), fromId, toId))
  }

  /** A list with its places forgotten: what a preview must not touch. */
  function Contents<T>(list: seq<Ranked<T>>): seq<Ranked<T>> {
    seq(|list|, i requires 0 <= i < |list| => list[i].(sortOrder := None))
  }

  lemma {:induction false} ContentsDropOne<T>(list: seq<Ranked<T>>, k: nat)
    requires k < |list|
    ensures multiset(Contents(list)) == multiset(Contents(RemoveAt(list, k))) + multiset{list[k].(sortOrder := None)}
  {
    assert Contents(RemoveAt(list, k)) == RemoveAt(Contents(list), k);
    RemoveAtDropsOne(Contents(list), k);
  }

  lemma {:induction false} ContentsOfPermutation<T>(s: seq<Ranked<T>>, t: seq<Ranked<T>>)
    requires multiset(s) == multiset(t)
    ensures multiset(Contents(s)) == multiset(Contents(t)) && |s| == |t|
  {
    assert |s| == |multiset(s)| == |multiset(t)| == |t|;
    if s == [] {
    } else {
      assert s[0] in multiset(t);
      var k :| 0 <= k < |t| && t[k] == s[0];
      RemoveAtDropsOne(s, 0);
      RemoveAtDropsOne(t, k);
      ContentsDropOne(s, 0);
      ContentsDropOne(t, k);
      hide Contents, RemoveAt;
      ContentsOfPermutation(RemoveAt(s, 0), RemoveAt(t, k));
    }
  }

  lemma {:induction false} MovedPermutes<T>(list: seq<Ranked<T>>, fromId: int, toId: int)
    ensures multiset(Moved(list, fromId, toId)) == multiset(list)
  {
    if Movable(list, fromId, toId) {
      MoveToSpec(list, IndexOf(list, fromId), IndexOf(list, toId));
    }
  }

  lemma {:induction false} MovedKeeps<T>(list: seq<Ranked<T>>, fromId: int, toId: int)
    ensures var next := Renumber(Moved(list, fromId, toId));
            Numbered(next) && multiset(Contents(next)) == multiset(Contents(list))
  {
    MovedPermutes(list, fromId, toId);
    hide Moved;
    var moved := Moved(list, fromId, toId);
    ContentsOfPermutation(moved, list);
    assert Contents(Renumber(moved)) == Contents(moved);
  }

  /** A preview permutes the list, and renumbers it so that it is displayed as it stands. */
  lemma {:induction false} PreviewKeeps<T(!new)>(list: seq<Ranked<T>>, fromId: int, toId: int)
    ensures var next := Preview(list, fromId, toId);
            && multiset(Contents(next)) == multiset(Contents(list))
            && (fromId == toId ==> next == list)
            && (fromId != toId ==> Numbered(next) && Displayed(next) == next)
  {
    if fromId != toId {
      DisplayedFacts(list);
      hide Displayed, Moved;
      ContentsOfPermutation(Displayed(list), list);
      MovedKeeps(Displayed(list), fromId, toId);
      NumberedIsInOrder(Preview(list, fromId, toId));
    }
  }

  lemma {:induction false} IdsOfMove<T>(list: seq<Ranked<T>>, from: nat, to: nat)
    requires from < |list| && to < |list|
    ensures Ids(Renumber(MoveTo(list, from, to))) == MoveTo(Ids(list), from, to)
  {
    var rest, moved := RemoveAt(list, from), MoveTo(list, from, to);
    MoveBack(list, from, to);
    MoveBack(Ids(list), from, to);
    assert Ids(rest) == RemoveAt(Ids(list), from);
    assert Ids(moved) == Ids(rest)[..to] + [list[from].id] + Ids(rest)[to..];
    assert Ids(Renumber(moved)) == Ids(moved);
  }

  /**
   In terms of what is displayed: the dragged item takes the place its target had, all others
   keep their order, and previewing the way back shows the old order again.
   */
  lemma {:induction false} PreviewMovesOneItem<T(!new)>(list: seq<Ranked<T>>, fromId: int, toId: int)
    requires fromId != toId && Movable(Displayed(list), fromId, toId)
    ensures var shown, next := Ids(Displayed(list)), Ids(Displayed(Preview(list, fromId, toId)));
            var from, to := IndexOf(Displayed(list), fromId), IndexOf(Displayed(list), toId);
            && |next| == |shown| && to < |next| && from < |shown|
            && next[to] == fromId
            && RemoveAt(next, to) == RemoveAt(shown, from)
            && MoveTo(next, to, from) == shown
  {
    var shown := Displayed(list);
    var from, to := IndexOf(shown, fromId), IndexOf(shown, toId);
    PreviewKeeps(list, fromId, toId);
    IndexOfIsFirst(shown, fromId);
    MoveToSpec(Ids(shown), from, to);
    IdsOfMove(shown, from, to);
  }

  // ---- A whole drag -----------------------------------------------------------------------------------

  /** The watchlist with its two drag refs, and the orders sent to the server so far. */
  datatype Drag<T> = Drag(stocks: seq<Ranked<T>>, dragging: Option<int>,
                          snapshot: Option<seq<Ranked<T>>>, sent: seq<seq<(int, int)>>)

  datatype DragEvent = DragStart(id: int) | DragOver(id: int) | Drop | DragEnd | SaveFailed

  /** The body persistWatchlistOrder sends: every id with its place in the array. */
  function Payload<T>(list: seq<Ranked<T>>): seq<(int, int)> {
    seq(|list|, i requires 0 <= i < |list| => (list[i].id, i + 1))
  }

  /** A save that fails is reported after the drop, which has cleared the snapshot by then. */
  function Step<T>(s: Drag<T>, e: DragEvent): Drag<T> {
    match e
    case DragStart(id) => s.(dragging := Some(id), snapshot := Some(s.stocks))
    case DragOver(id) => if s.dragging.None? then s else s.(stocks := Preview(s.stocks, s.dragging.value, id))
    case Drop =>
      var t := s.(dragging := None, snapshot := None);
      if s.dragging.None? || s.stocks == [] then t else t.(sent := s.sent + [Payload(s.stocks)])
    case DragEnd => s.(dragging := None, snapshot := None)
    case SaveFailed => if s.snapshot.Some? then s.(stocks := s.snapshot.value) else s
  }

  function Exec<T>(s: Drag<T>, events: seq<DragEvent>): Drag<T>
    decreases |events|
  {
    if events == [] then s else Exec(Step(s, events[0]), events[1..])
  }

  function Still<T>(list: seq<Ranked<T>>): Drag<T> {
    Drag(list, None, None, [])
  }

  /** What is left after removing one item are the items at the other places. */
  lemma {:induction false} OtherPlaces<T>(list: seq<T>, k: nat, x: T)
    requires k < |list|
    ensures x in multiset(RemoveAt(list, k)) <==> exists l :: 0 <= l < |list| && l != k && list[l] == x
  {}

  lemma {:induction false} DistinctPermutation<T>(s: seq<Ranked<T>>, t: seq<Ranked<T>>)
    requires multiset(s) == multiset(t) && DistinctIds(s)
    ensures DistinctIds(t)
  {
    forall i, j | 0 <= i < j < |t| ensures t[i].id != t[j].id {
      assert t[i] in multiset(s);
      var k :| 0 <= k < |s| && s[k] == t[i];
      RemoveAtDropsOne(s, k);
      RemoveAtDropsOne(t, i);
      OtherPlaces(t, i, t[j]);
      OtherPlaces(s, k, t[j]);
      hide RemoveAt;
    }
  }

  lemma {:induction false} PreviewKeepsDistinct<T(!new)>(list: seq<Ranked<T>>, fromId: int, toId: int)
    requires DistinctIds(list)
    ensures DistinctIds(Preview(list, fromId, toId))
  {
    var shown := Displayed(list);
    DisplayedFacts(list);
    DistinctPermutation(list, shown);
    MovedPermutes(shown, fromId, toId);
    hide Displayed, Moved;
    DistinctPermutation(shown, Moved(shown, fromId, toId));
  }

  /** A list that a history may have made of `start`. */
  ghost predicate Reordering<T>(start: seq<Ranked<T>>, list: seq<Ranked<T>>) {
    && multiset(Contents(list)) == multiset(Contents(start))
    && (DistinctIds(start) ==> DistinctIds(list))
    && (list == start || Numbered(list))
  }

  ghost predicate DragInv<T>(start: seq<Ranked<T>>, s: Drag<T>) {
    && Reordering(start, s.stocks)
    && (s.snapshot.Some? <==> s.dragging.Some?)
    && (s.snapshot.Some? ==> Reordering(start, s.snapshot.value))
  }

  lemma {:induction false} StepKeepsDragInv<T(!new)>(start: seq<Ranked<T>>, s: Drag<T>, e: DragEvent)
    requires DragInv(start, s)
    ensures DragInv(start, Step(s, e))
  {
    if e.DragOver? && s.dragging.Some? {
      PreviewKeeps(s.stocks, s.dragging.value, e.id);
      if DistinctIds(s.stocks) {
        PreviewKeepsDistinct(s.stocks, s.dragging.value, e.id);
      }
    }
  }

  lemma {:induction false} ExecKeepsDragInv<T(!new)>(start: seq<Ranked<T>>, s: Drag<T>, events: seq<DragEvent>)
    requires DragInv(start, s)
    ensures DragInv(start, Exec(s, events))
    decreases |events|
  {
    if events != [] {
      StepKeepsDragInv(start, s, events[0]);
      ExecKeepsDragInv(start, Step(s, events[0]), events[1..]);
    }
  }

  /** With distinct ids, what would be sent is the displayed order iff the array is in that order. */
  lemma {:induction false} PayloadIsDisplayedOrder<T(!new)>(list: seq<Ranked<T>>)
    requires DistinctIds(list)
    ensures Payload(list) == Payload(Displayed(list)) <==> InOrder(list)
  {
    DisplayedFacts(list);
    var shown := Displayed(list);
    if Payload(list) == Payload(shown) {
      forall i | 0 <= i < |list| ensures list[i] == shown[i] {
        assert Payload(list)[i].0 == Payload(shown)[i].0;
        assert shown[i] in multiset(list);
        var j :| 0 <= j < |list| && list[j] == shown[i];
      }
      assert list == shown;
    }
  }

  /**
   After any sequence of drags the watchlist is a permutation of what was loaded: either the
   loaded list itself or numbered 1..n, and then displaying it changes nothing.  What a drop
   sends at that moment is the displayed order iff the list is in order, so the only way to
   send another order is to drop before any preview has renumbered an unsorted loaded list.
   */
  lemma {:induction false} DragsPermute<T(!new)>(loaded: seq<Ranked<T>>, events: seq<DragEvent>)
    requires DistinctIds(loaded)
    ensures var list := Exec(Still(loaded), events).stocks;
            && multiset(Contents(list)) == multiset(Contents(loaded)) && DistinctIds(list)
            && (list != loaded ==> Numbered(list) && Displayed(list) == list)
            && (Payload(list) == Payload(Displayed(list)) <==> InOrder(list))
            && (list != loaded || InOrder(loaded) ==> Payload(list) == Payload(Displayed(list)))
  {
    ExecKeepsDragInv(loaded, Still(loaded), events);
    var list := Exec(Still(loaded), events).stocks;
    PayloadIsDisplayedOrder(list);
    if list != loaded {
      NumberedIsInOrder(list);
    }
  }

  // ---- What each event of a drag does -------------------------------------------------------------------

  /** The index of an id, in terms of the ids. */
  lemma {:induction false} IndexOfIds<T>(list: seq<Ranked<T>>, id: int)
    ensures var k := IndexOf(list, id);
            && k <= |list| && (k < |list| <==> id in Ids(list))
            && (k < |list| ==> Ids(list)[k] == id)
            && (forall i | 0 <= i < k :: Ids(list)[i] != id)
  {
    IndexOfIsFirst(list, id);
    var k := IndexOf(list, id);
    assert forall i | 0 <= i < |list| :: Ids(list)[i] == list[i].id;
    assert k < |list| ==> Ids(list)[k] in Ids(list);
  }

  lemma {:induction false} SameIds<T>(s: seq<Ranked<T>>, t: seq<Ranked<T>>, id: int)
    requires multiset(s) == multiset(t) && id in Ids(s)
    ensures id in Ids(t)
  {
    var i :| 0 <= i < |s| && s[i].id == id;
    assert s[i] in multiset(t);
    var j :| 0 <= j < |t| && t[j] == s[i];
    assert Ids(t)[j] == id;
  }

  lemma {:induction false} ListedIsDisplayed<T(!new)>(list: seq<Ranked<T>>, id: int)
    ensures id in Ids(list) <==> id in Ids(Displayed(list))
  {
    DisplayedFacts(list);
    if id in Ids(list) {
      SameIds(list, Displayed(list), id);
    } else if id in Ids(Displayed(list)) {
      SameIds(Displayed(list), list, id);
    }
  }

  /** In what is displayed, item d goes from its place to the place of `id`; all others keep their order. */
  predicate MovesTo(shown: seq<int>, next: seq<int>, d: int, id: int, from: nat, to: nat) {
    && from < |shown| && to < |shown| && |next| == |shown|
    && shown[from] == d && (forall i | 0 <= i < from :: shown[i] != d)
    && shown[to] == id && (forall i | 0 <= i < to :: shown[i] != id)
    && next[to] == d
    && RemoveAt(next, to) == RemoveAt(shown, from)
  }

  lemma {:induction false} PreviewMovesTo<T(!new)>(list: seq<Ranked<T>>, d: int, id: int) returns (from: nat, to: nat)
    requires d != id && d in Ids(list) && id in Ids(list)
    ensures MovesTo(Ids(Displayed(list)), Ids(Displayed(Preview(list, d, id))), d, id, from, to)
  {
    var shown := Displayed(list);
    from, to := IndexOf(shown, d), IndexOf(shown, id);
    ListedIsDisplayed(list, d);
    ListedIsDisplayed(list, id);
    IndexOfIds(shown, d);
    IndexOfIds(shown, id);
    assert |Ids(shown)| == |shown|;
    PreviewMovesOneItem(list, d, id);
    hide Preview, Displayed, IndexOf, Ids, RemoveAt, MoveTo, InOrder, Sort;
  }

  /** Dragging d over another listed item moves d to that item's place, and does nothing else. */
  lemma {:induction false} DragOverMoves<T(!new)>(s: Drag<T>, d: int, id: int) returns (from: nat, to: nat)
    requires s.dragging == Some(d) && d != id && d in Ids(s.stocks) && id in Ids(s.stocks)
    ensures var t := Step(s, DragOver(id));
            && MovesTo(Ids(Displayed(s.stocks)), Ids(Displayed(t.stocks)), d, id, from, to)
            && t == s.(stocks := t.stocks)
  {
    hide Preview, Displayed, Ids, MovesTo;
    from, to := PreviewMovesTo(s.stocks, d, id);
  }

  /** Dragging over itself, or over or with an item that is not listed, changes no order. */
  lemma {:induction false} DragOverRests<T(!new)>(s: Drag<T>, d: int, id: int)
    requires s.dragging == Some(d) && (d == id || d !in Ids(s.stocks) || id !in Ids(s.stocks))
    ensures var t := Step(s, DragOver(id));
            Ids(Displayed(t.stocks)) == Ids(Displayed(s.stocks)) && t == s.(stocks := t.stocks)
  {
    var shown := Displayed(s.stocks);
    ListedIsDisplayed(s.stocks, d);
    ListedIsDisplayed(s.stocks, id);
    IndexOfIds(shown, d);
    IndexOfIds(shown, id);
    PreviewKeeps(s.stocks, d, id);
    assert Ids(Renumber(shown)) == Ids(shown);
    hide Displayed, IndexOf;
  }

  lemma {:induction false} FirstToLastOfThree(next: seq<int>, from: nat, to: nat)
    requires MovesTo([1, 2, 3], next, 1, 3, from, to)
    ensures next == [2, 3, 1]
  {
    assert RemoveAt([1, 2, 3], 0) == [2, 3];
    assert next == RemoveAt(next, 2) + [next[2]];
  }

  /** Three items, the first dragged over the last. */
  lemma {:induction false} FirstOverLast()
    ensures var list := [Ranked(1, Some(1), ()), Ranked(2, Some(2), ()), Ranked(3, Some(3), ())];
            Ids(Displayed(Step(Step(Still(list), DragStart(1)), DragOver(3)).stocks)) == [2, 3, 1]
  {
    var list := [Ranked(1, Some(1), ()), Ranked(2, Some(2), ()), Ranked(3, Some(3), ())];
    var s := Step(Still(list), DragStart(1));
    NumberedIsInOrder(list);
    assert Ids(list) == [1, 2, 3] && s.stocks == list && s.dragging == Some(1);
    assert 1 in [1, 2, 3] && 3 in [1, 2, 3];
    hide Displayed, Step, Ids, MovesTo, Numbered, InOrder;
    var from, to := DragOverMoves(s, 1, 3);
    FirstToLastOfThree(Ids(Displayed(Step(s, DragOver(3)).stocks)), from, to);
  }

  /** The place of the last drag start that no drop and no drag end has followed. */
  function OpenDrag(events: seq<DragEvent>): Option<nat> {
    if events == [] then None
    else
      match events[|events| - 1]
      case DragStart(_) => Some(|events| - 1)
      case Drop => None
      case DragEnd => None
      case _ => OpenDrag(events[..|events| - 1])
  }

  lemma {:induction false} ExecSnoc<T>(s: Drag<T>, events: seq<DragEvent>, e: DragEvent)
    ensures Exec(s, events + [e]) == Step(Exec(s, events), e)
    decreases |events|
  {
    if events == [] {
      assert Exec(s, [e]) == Exec(Step(s, e), []);
    } else {
      ExecSnoc(Step(s, events[0]), events[1..], e);
      assert (events + [e])[1..] == events[1..] + [e];
    }
  }

  /** What is being dragged is what the last open drag took up, and the snapshot is the list as it was then. */
  lemma {:induction false} DraggedSince<T(!new)>(loaded: seq<Ranked<T>>, events: seq<DragEvent>)
    ensures var s, open := Exec(Still(loaded), events), OpenDrag(events);
            && (open.None? ==> s.dragging == None && s.snapshot == None)
            && (open.Some? ==>
                  && open.value < |events| && events[open.value].DragStart?
                  && s.dragging == Some(events[open.value].id)
                  && s.snapshot == Some(Exec(Still(loaded), events[..open.value]).stocks))
    decreases |events|
  {
    if events == [] {
    } else {
      var init, e := events[..|events| - 1], events[|events| - 1];
      DraggedSince(loaded, init);
      ExecSnoc(Still(loaded), init, e);
      assert events == init + [e];
      if OpenDrag(init).Some? {
        assert events[..OpenDrag(init).value] == init[..OpenDrag(init).value];
      }
      hide Preview, Payload, Exec;
    }
  }

  /** Only dragging over an item, and a failed save, change the list; only a drop sends something. */
  lemma {:induction false} NothingElseMoves<T(!new)>(s: Drag<T>, e: DragEvent)
    ensures !e.DragOver? && !e.SaveFailed? ==> Step(s, e).stocks == s.stocks
    ensures s.dragging.None? && e.DragOver? ==> Step(s, e) == s
    ensures !e.Drop? ==> Step(s, e).sent == s.sent
  {
    hide Preview;
  }

  // ---- Lists as the server orders them ----------------------------------------------------------------

  /** ORDER BY sort_order, id: missing places first. */
  predicate StoredBefore<T>(a: Ranked<T>, b: Ranked<T>) {
    if a.sortOrder.None? then b.sortOrder.Some? || a.id < b.id
    else b.sortOrder.Some?
         && (a.sortOrder.value < b.sortOrder.value || (a.sortOrder == b.sortOrder && a.id < b.id))
  }

  predicate Stored<T>(rows: seq<Ranked<T>>) {
    forall i, j | 0 <= i < j < |rows| :: StoredBefore(rows[i], rows[j])
  }

  /** The answer to GET /stocks, in which a missing place is 0. */
  function Answered<T>(rows: seq<Ranked<T>>): seq<Ranked<T>> {
    seq(|rows|, i requires 0 <= i < |rows| => rows[i].(sortOrder := Some(rows[i].sortOrder.GetOr(0))))
  }

  function Filter<T>(keep: T -> bool, list: seq<T>): seq<T> {
    if list == [] then []
    else Filter(keep, list[..|list| - 1]) + if keep(list[|list| - 1]) then [list[|list| - 1]] else []
  }

  /** No row without a place is answered before one that is displayed above it. */
  predicate NoneOvertaken<T>(rows: seq<Ranked<T>>) {
    forall i, j | 0 <= i < |rows| && 0 <= j < |rows| ::
      rows[i].sortOrder.None? && rows[j].sortOrder.Some? ==> !Before(rows[j], rows[i])
  }

  /** The answer is in display order iff that holds; so always when every row has a place. */
  lemma {:induction false} AnsweredInOrderIff<T>(rows: seq<Ranked<T>>)
    requires Stored(rows)
    ensures InOrder(Answered(rows)) <==> NoneOvertaken(rows)
    ensures (forall x | x in rows :: x.sortOrder.Some?) ==> NoneOvertaken(rows)
  {
    var list := Answered(rows);
    assert forall i, j | 0 <= i < |rows| && 0 <= j < |rows| :: Before(list[i], list[j]) == Before(rows[i], rows[j]);
    if InOrder(list) {
      forall i, j | 0 <= i < |rows| && 0 <= j < |rows| && rows[i].sortOrder.None? && rows[j].sortOrder.Some?
        ensures !Before(rows[j], rows[i])
      {
        assert i < j ==> StoredBefore(rows[i], rows[j]);
        assert j < i ==> StoredBefore(rows[j], rows[i]);
        assert !Before(list[j], list[i]);
      }
    }
    if NoneOvertaken(rows) {
      forall i, j | 0 <= i < j < |list| ensures !Before(list[j], list[i]) {
        assert StoredBefore(rows[i], rows[j]);
      }
    }
  }

  lemma {:induction false} FilterMembers<T>(keep: T -> bool, list: seq<T>)
    ensures forall x | x in Filter(keep, list) :: exists k :: 0 <= k < |list| && list[k] == x
  {
    if list == [] {
    } else {
      var init := list[..|list| - 1];
      FilterMembers(keep, init);
      forall x | x in Filter(keep, list) ensures exists k :: 0 <= k < |list| && list[k] == x {
        if x in Filter(keep, init) {
          var k :| 0 <= k < |init| && init[k] == x;
          assert list[k] == x;
        } else {
          assert list[|list| - 1] == x;
        }
      }
    }
  }

  lemma {:induction false} FilterKeeps<T>(keep: Ranked<T> -> bool, list: seq<Ranked<T>>)
    ensures InOrder(list) ==> InOrder(Filter(keep, list))
    ensures DistinctIds(list) ==> DistinctIds(Filter(keep, list))
  {
    if list == [] {
    } else {
      var init, last := list[..|list| - 1], list[|list| - 1];
      FilterKeeps(keep, init);
      FilterMembers(keep, init);
      var kept := Filter(keep, init);
      forall i | 0 <= i < |kept|
        ensures (InOrder(list) ==> !Before(last, kept[i])) && (DistinctIds(list) ==> kept[i].id != last.id)
      {
        assert kept[i] in kept;
        var k :| 0 <= k < |init| && init[k] == kept[i];
        assert list[k] == kept[i];
      }
    }
  }

  /**
   On the page, which keeps some of the rows the server answers in order, every drop of every
   history sends the order that is displayed at that moment.
   */
  lemma {:induction false} DropsSendWhatIsShown<T(!new)>(rows: seq<Ranked<T>>, keep: Ranked<T> -> bool,
                                                        events: seq<DragEvent>)
    requires Stored(rows) && NoneOvertaken(rows) && DistinctIds(rows)
    ensures var s := Exec(Still(Filter(keep, Answered(rows))), events);
            Step(s, Drop).sent
            == if s.dragging.Some? && s.stocks != [] then s.sent + [Payload(Displayed(s.stocks))] else s.sent
  {
    var loaded := Filter(keep, Answered(rows));
    AnsweredInOrderIff(rows);
    assert DistinctIds(Answered(rows));
    FilterKeeps(keep, Answered(rows));
    DragsPermute(loaded, events);
  }

  /**
   Were a list not in display order, dropping an item where it was picked up would send the
   array order: the sort key of the server's answer is what keeps this from happening.
   */
  lemma {:induction false} DropInPlaceSendsArrayOrder()
    ensures var list := [Ranked(1, Some(2), ()), Ranked(2, Some(1), ())];
            var s := Exec(Still(list), [DragStart(1), DragOver(1), Drop]);
            && s.sent == [[(1, 1), (2, 2)]]
            && Ids(Displayed(list)) == [2, 1]
  {
    var list := [Ranked(1, Some(2), ()), Ranked(2, Some(1), ())];
    var a := Step(Still(list), DragStart(1));
    var b := Step(a, DragOver(1));
    assert Exec(b, [Drop]) == Exec(Step(b, Drop), []);
    assert [DragOver(1), Drop][1..] == [Drop];
    assert Exec(a, [DragOver(1), Drop]) == Exec(b, [Drop]);
    assert [DragStart(1), DragOver(1), Drop][1..] == [DragOver(1), Drop];
    assert Payload(list) == [(1, 1), (2, 2)];
    var swapped := [list[1], list[0]];
    assert list[1..] == [list[1]];
    var less := (x: Ranked<()>, y: Ranked<()>) => Before(x, y);
    assert Sort(less, list[1..]) == [list[1]];
    assert Displayed(list) == swapped;
  }

  /**
   A failed save rolls the list back iff some drag is in progress when the failure arrives, and
   then to the state before that drag; the drag whose save failed has already let go.
   */
  lemma {:induction false} FailedSaveRollsBackOnlyDuringADrag<T(!new)>(loaded: seq<Ranked<T>>, events: seq<DragEvent>)
    ensures var s := Exec(Still(loaded), events);
            && (s.snapshot.Some? <==> s.dragging.Some?)
            && Step(s, SaveFailed).stocks == (if s.dragging.Some? then s.snapshot.value else s.stocks)
            && Step(Step(s, Drop), SaveFailed).stocks == s.stocks
  {
    ExecKeepsDragInv(loaded, Still(loaded), events);
  }

  lemma {:induction false} PreviewSwapsTwo()
    ensures var list, swapped := [Ranked(1, Some(1), ()), Ranked(2, Some(2), ())],
                                 [Ranked(2, Some(1), ()), Ranked(1, Some(2), ())];
            Preview(list, 1, 2) == swapped && Displayed(swapped) == swapped
  {
    var list := [Ranked(1, Some(1), ()), Ranked(2, Some(2), ())];
    NumberedIsInOrder(list);
    NumberedIsInOrder([Ranked(2, Some(1), ()), Ranked(1, Some(2), ())]);
    hide Displayed;
    assert IndexOf(list[1..], 2) == 0 && IndexOf(list, 2) == 1 && IndexOf(list, 1) == 0;
    assert RemoveAt(list, 0) == [list[1]];
    assert Moved(list, 1, 2) == [list[1], list[0]];
  }

  /** A save that fails after the drop: the order the server refused stays on the screen. */
  lemma {:induction false} RefusedOrderStays()
    ensures var list := [Ranked(1, Some(1), ()), Ranked(2, Some(2), ())];
            var s := Step(Step(Step(Step(Still(list), DragStart(1)), DragOver(2)), Drop), SaveFailed);
            s.sent == [[(2, 1), (1, 2)]] && Ids(Displayed(s.stocks)) == [2, 1]
  {
    PreviewSwapsTwo();
    hide Preview, Displayed;
    var swapped := [Ranked(2, Some(1), ()), Ranked(1, Some(2), ())];
    assert Payload(swapped) == [(2, 1), (1, 2)] && Ids(swapped) == [2, 1];
  }

  // ---- The page's own variables -------------------------------------------------------------------------

  class Watchlist<T(!new)> {
    var stocks: seq<Ranked<T>>
    var draggingWatchStockId: Option<int>
    var watchDragSnapshot: Option<seq<Ranked<T>>>
    var sent: seq<seq<(int, int)>>

    function Abs(): Drag<T>
      reads this
    {
      Drag(stocks, draggingWatchStockId, watchDragSnapshot, sent)
    }

    constructor (loaded: seq<Ranked<T>>)
      ensures Abs() == Still(loaded)
    {
      stocks, draggingWatchStockId, watchDragSnapshot, sent := loaded, None, None, [];
    }

    method OnDragStart(id: int)
      modifies this
      ensures Abs() == Step(old(Abs()), DragStart(id))
    {
      watchDragSnapshot := Some(stocks);
      draggingWatchStockId := Some(id);
    }

    /** The renumbering of a preview. */
    static method RenumberAll(list: seq<Ranked<T>>) returns (next: seq<Ranked<T>>)
      ensures next == Renumber(list)
    {
      next := [];
      for i := 0 to |list|
        invariant next == Renumber(list)[..i]
      {
        next := next + [list[i].(sortOrder := Some(i + 1))];
      }
    }

    /** previewWatchlistReorder for the item being dragged. */
    method OnDragOver(id: int)
      modifies this
      ensures Abs() == Step(old(Abs()), DragOver(id))
    {
      if draggingWatchStockId.None? || draggingWatchStockId.value == id {
        return;
      }
      hide Moved, Displayed, Renumber;
      var moved := MoveById(Displayed(stocks), draggingWatchStockId.value, id);
      stocks := RenumberAll(moved);
    }

    /** commitWatchlistReorder, and letting go. */
    method OnDrop()
      modifies this
      ensures Abs() == Step(old(Abs()), Drop)
    {
      if draggingWatchStockId.Some? && stocks != [] {
        sent := sent + [Payload(stocks)];
      }
      draggingWatchStockId := None;
      watchDragSnapshot := None;
    }

    method OnDragEnd()
      modifies this
      ensures Abs() == Step(old(Abs()), DragEnd)
    {
      draggingWatchStockId := None;
      watchDragSnapshot := None;
    }

    /** The handler of a save that the server refused. */
    method OnSaveFailed()
      modifies this
      ensures Abs() == Step(old(Abs()), SaveFailed)
    {
      if watchDragSnapshot.Some? {
        stocks := watchDragSnapshot.value;
      }
    }
  }

  // ---- Positions of one account ---------------------------------------------------------------------

  datatype Account<T> = Account(id: int, positions: seq<Ranked<T>>)

  /** previewPositionReorder: positions are moved in array order, without sorting first. */
  function PreviewPositions<T>(accounts: seq<Account<T>>, accountId: int, fromId: int, toId: int): seq<Account<T>> {
    if fromId == toId then accounts
    else
      seq(|accounts|, i requires 0 <= i < |accounts| =>
        if accounts[i].id != accountId then accounts[i]
        else accounts[i].(positions := Renumber(Moved(accounts[i].positions, fromId, toId))))
  }

  /** The account's positions are permuted and renumbered; all other accounts are left alone. */
  lemma {:induction false} PreviewPositionsKeeps<T(!new)>(accounts: seq<Account<T>>, accountId: int, fromId: int,
                                                         toId: int, k: nat)
    requires fromId != toId && k < |accounts|
    ensures var next := PreviewPositions(accounts, accountId, fromId, toId);
            && |next| == |accounts|
            && (accounts[k].id != accountId ==> next[k] == accounts[k])
            && (accounts[k].id == accountId ==>
                  && next[k].id == accountId
                  && Numbered(next[k].positions)
                  && multiset(Contents(next[k].positions)) == multiset(Contents(accounts[k].positions)))
  {
    hide Moved;
    MovedKeeps(accounts[k].positions, fromId, toId);
  }

  /**
   In the array, the dragged position takes the index its target had, all others keep their
   order, and previewing the way back restores the old order; with a missing id nothing moves.
   */
  lemma {:induction false} PreviewPositionsMovesOneItem<T(!new)>(accounts: seq<Account<T>>, accountId: int, fromId: int,
                                                                toId: int, k: nat)
    requires fromId != toId && k < |accounts| && accounts[k].id == accountId
    ensures var before := accounts[k].positions;
            var ids, next := Ids(before), Ids(PreviewPositions(accounts, accountId, fromId, toId)[k].positions);
            var from, to := IndexOf(before, fromId), IndexOf(before, toId);
            if Movable(before, fromId, toId) then
              && |next| == |ids| && from < |ids| && to < |next|
              && next[to] == fromId
              && RemoveAt(next, to) == RemoveAt(ids, from)
              && MoveTo(next, to, from) == ids
            else next == ids
  {
    var before := accounts[k].positions;
    if Movable(before, fromId, toId) {
      var from, to := IndexOf(before, fromId), IndexOf(before, toId);
      IndexOfIsFirst(before, fromId);
      MoveToSpec(Ids(before), from, to);
      IdsOfMove(before, from, to);
    } else {
      assert Ids(Renumber(before)) == Ids(before);
    }
  }
}
