/**
 Station 2, the river: six pieces of floating trash, each recyclable or
 organic, to be dragged into the bin of the same kind. A piece dropped into
 the wrong bin is rejected and stays in the river; the station is complete
 when every piece has been cleaned.
 */
module Station2 {
  import opened Collections

  datatype TrashType = Recycle | Organic

  datatype TrashItem = TrashItem(id: int, kind: TrashType, emoji: string, x: int, y: int, isCleaned: bool)

  /** The guide's messages, one per distinct text the station shows. */
  datatype Guide =
    | Polluted           // the river is polluted, help clean it
    | RecyclingHelps     // a recyclable piece went into the recycling bin
    | OrganicReturns     // an organic piece went into the organic bin
    | NotRecyclable      // wrong bin: dropped into the recycling bin
    | NotOrganic         // wrong bin: dropped into the organic bin
    | FishHappy          // every piece is cleaned

  /**
   The station's state: the trash, the guide's message and whether it is
   shown as an error, and the piece that was last rejected (it shakes).
   */
  datatype State = State(items: seq<TrashItem>, guide: Guide, guideIsError: bool, rejectedId: Option<int>)

  /** The layout the station mounts with: six uncleaned pieces, alternating recyclable and organic. */
  function Initial(): (st: State)
    ensures |st.items| == 6 && st.guide == Polluted && !st.guideIsError && st.rejectedId == None
    ensures forall i :: 0 <= i < 6 ==> st.items[i].id == i + 1 && !st.items[i].isCleaned
    ensures forall i :: 0 <= i < 6 ==> (st.items[i].kind == Recycle <==> i % 2 == 0)
  {
    State([ TrashItem(1, Recycle, "🧴", 20, 30, false),
            TrashItem(2, Organic, "🍌", 50, 40, false),
            TrashItem(3, Recycle, "🥫", 80, 25, false),
            TrashItem(4, Organic, "🍎", 30, 50, false),
            TrashItem(5, Recycle, "🥤", 70, 45, false),
            TrashItem(6, Organic, "🦴", 40, 35, false) ],
          Polluted, false, None)
  }

  /** The first piece with the given id, if any (`items.find`). */
  function FindItem(items: seq<TrashItem>, id: int): (r: Option<TrashItem>)
    ensures r.None? <==> forall i :: 0 <= i < |items| ==> items[i].id != id
    ensures r.Some? ==> r.value.id == id && r.value in items
    ensures r.Some? ==> exists k :: 0 <= k < |items| && items[k] == r.value && forall i :: 0 <= i < k ==> items[i].id != id
  {
    Find(items, (t: TrashItem) => t.id == id)
  }

  /** The trash with every piece of the given id marked as cleaned. */
  function MarkCleaned(items: seq<TrashItem>, id: int): (r: seq<TrashItem>)
    ensures |r| == |items|
    ensures forall i :: 0 <= i < |r| ==> r[i] == if items[i].id == id then items[i].(isCleaned := true) else items[i]
  {
    seq(|items|, i requires 0 <= i < |items| =>
      if items[i].id == id then items[i].(isCleaned := true) else items[i])
  }

  /** Number of pieces already cleaned. */
  function CleanedCount(items: seq<TrashItem>): (n: nat)
    ensures n <= |items|
  {
    CountWhere(items, (t: TrashItem) => t.isCleaned)
  }

  /** The station is complete when the cleaned count reaches the number of pieces. */
  function IsComplete(items: seq<TrashItem>): (b: bool)
    ensures b <==> forall i :: 0 <= i < |items| ==> items[i].isCleaned
  {
    CleanedCount(items) == |items|
  }

  /**
   A piece of trash dropped into a bin of type `targetBinType`. An unknown id
   changes nothing. A piece whose own type matches the bin is cleaned; any
   other piece is rejected: the trash stays as it is, the piece is marked as
   rejected and the guide shows an error naming the bin. When the drop
   completes the station the completion message replaces the guide's.
   */
  function HandleDrop(st: State, id: int, targetBinType: TrashType): (r: State)
    ensures FindItem(st.items, id).None? ==> r == st
    ensures FindItem(st.items, id).Some? && FindItem(st.items, id).value.kind == targetBinType ==>
      && r.items == MarkCleaned(st.items, id)
      && !r.guideIsError && r.rejectedId == st.rejectedId
      && r.guide == (if IsComplete(r.items) && !IsComplete(st.items) then FishHappy
                     else if targetBinType == Recycle then RecyclingHelps else OrganicReturns)
    ensures FindItem(st.items, id).Some? && FindItem(st.items, id).value.kind != targetBinType ==>
      && r.items == st.items
      && r.guideIsError && r.rejectedId == Some(id)
      && r.guide == (if targetBinType == Recycle then NotRecyclable else NotOrganic)
  {
    match FindItem(st.items, id)
    case None => st
    case Some(item) =>
      if item.kind == targetBinType then
        var items := MarkCleaned(st.items, id);
        var g := if item.kind == Recycle then RecyclingHelps else OrganicReturns;
        st.(items := items, guideIsError := false,
            guide := if IsComplete(items) && !IsComplete(st.items) then FishHappy else g)
      else
        st.(rejectedId := Some(id), guideIsError := true,
            guide := if targetBinType == Recycle then NotRecyclable else NotOrganic)
  }

  /**
   A bin receiving a dragged piece: it reports the piece's id together with
   the bin's own type, so the check is made against the piece as the station
   holds it, not against the type the drag carried.
   */
  function BinDrop(st: State, dragged: TrashItem, binType: TrashType): (r: State)
    ensures r.items != st.items ==>
      FindItem(st.items, dragged.id).Some? && FindItem(st.items, dragged.id).value.kind == binType
    ensures FindItem(st.items, dragged.id).Some? && FindItem(st.items, dragged.id).value.kind != binType ==>
      r.items == st.items && r.rejectedId == Some(dragged.id)
  {
    HandleDrop(st, dragged.id, binType)
  }

  /** Only the dragged piece's id reaches the station: the type the drag carries plays no part. */
  lemma BinDropIgnoresCarriedType(st: State, dragged: TrashItem, kind: TrashType, binType: TrashType)
    ensures BinDrop(st, dragged.(kind := kind), binType) == BinDrop(st, dragged, binType)
  {
  }

  /**
   Dropping a piece of the river into a bin cleans that piece, and only it,
   exactly when the bin is of the piece's type; otherwise the piece is
   rejected and the trash stays as it is.
   */
  lemma BinDropMatchesTypes(st: State, k: nat, binType: TrashType)
    requires UniqueIds(st.items) && k < |st.items|
    ensures var r := BinDrop(st, st.items[k], binType);
      && (st.items[k].kind == binType ==>
            forall i :: 0 <= i < |st.items| ==>
              r.items[i] == if i == k then st.items[i].(isCleaned := true) else st.items[i])
      && (st.items[k].kind != binType ==> r.items == st.items && r.rejectedId == Some(st.items[k].id))
  {
    FindUnique(st.items, k);
  }

  /** The pieces that are rendered, and so can be dragged: the uncleaned ones. */
  function DragSources(items: seq<TrashItem>): (r: seq<TrashItem>)
    ensures forall i :: 0 <= i < |r| ==> !r[i].isCleaned && r[i] in items
    ensures forall i :: 0 <= i < |items| && !items[i].isCleaned ==> items[i] in r
    ensures |r| == |items| - CleanedCount(items)
  {
    var r := Filter(items, (t: TrashItem) => !t.isCleaned);
    CountComplement(items);
    r
  }

  /** The uncleaned and the cleaned pieces together are all pieces. */
  lemma {:induction false} CountComplement(items: seq<TrashItem>)
    ensures CountWhere(items, (t: TrashItem) => !t.isCleaned) + CleanedCount(items) == |items|
    decreases |items|
  {
    if |items| > 0 {
      CountComplement(items[1..]);
    }
  }

  /** Whether no two pieces share an id. */
  predicate UniqueIds(items: seq<TrashItem>) {
    forall i, j :: 0 <= i < j < |items| ==> items[i].id != items[j].id
  }

  /** With unique ids, `find` returns the one piece that has the id. */
  lemma FindUnique(items: seq<TrashItem>, k: nat)
    requires UniqueIds(items) && k < |items|
    ensures FindItem(items, items[k].id) == Some(items[k])
  {
  }

  /** A cleaned piece stays cleaned, and ids, types and order never change. */
  lemma DropKeepsShape(st: State, id: int, bin: TrashType)
    ensures var r := HandleDrop(st, id, bin);
      |r.items| == |st.items|
      && forall i :: 0 <= i < |r.items| ==>
        r.items[i].id == st.items[i].id && r.items[i].kind == st.items[i].kind
        && (st.items[i].isCleaned ==> r.items[i].isCleaned)
  {
  }

  /** Cleaning is idempotent: the same drop twice leaves the trash as one drop does. */
  lemma DropIdempotent(st: State, id: int, bin: TrashType)
    ensures HandleDrop(HandleDrop(st, id, bin), id, bin).items == HandleDrop(st, id, bin).items
  {
    var found := FindItem(st.items, id);
    if found.Some? && found.value.kind == bin {
      var once := MarkCleaned(st.items, id);
      FindAfterClean(st.items, id);
      MarkCleanedTwice(st.items, id);
      assert HandleDrop(st, id, bin).items == once;
    }
  }

  /** After cleaning, `find` still meets a piece of the same type first. */
  lemma FindAfterClean(items: seq<TrashItem>, id: int)
    requires FindItem(items, id).Some?
    ensures FindItem(MarkCleaned(items, id), id).Some?
    ensures FindItem(MarkCleaned(items, id), id).value.kind == FindItem(items, id).value.kind
  {
    var p := (t: TrashItem) => t.id == id;
    var item := FindItem(items, id).value;
    var k :| 0 <= k < |items| && items[k] == item && p(item)
      && forall i :: 0 <= i < k ==> !p(items[i]);
    FindFirst(MarkCleaned(items, id), p, k);
  }

  /** Marking the same id twice marks nothing more. */
  lemma MarkCleanedTwice(items: seq<TrashItem>, id: int)
    ensures MarkCleaned(MarkCleaned(items, id), id) == MarkCleaned(items, id)
  {
  }

  /** The player drags the piece at position `piece` of the river into a bin of type `bin`. */
  datatype Drag = Drag(piece: int, bin: TrashType)

  /**
   One drag as the screen allows it: a cleaned piece is not rendered, so it
   cannot be dragged and the drag does nothing; an uncleaned piece is handed
   to the bin.
   */
  function DragToBin(st: State, d: Drag): (r: State)
    ensures !(0 <= d.piece < |st.items|) || st.items[d.piece].isCleaned ==> r == st
  {
    if 0 <= d.piece < |st.items| && !st.items[d.piece].isCleaned then BinDrop(st, st.items[d.piece], d.bin)
    else st
  }

  /** The station after a sequence of drags. */
  function Play(st: State, drags: seq<Drag>): State
    decreases |drags|
  {
    if |drags| == 0 then st else Play(DragToBin(st, drags[0]), drags[1..])
  }

  /** One drag cleans exactly the dragged piece when it goes into its own bin. */
  lemma DragEffect(st: State, d: Drag)
    requires UniqueIds(st.items)
    ensures var r := DragToBin(st, d);
      |r.items| == |st.items| && UniqueIds(r.items)
      && (forall i :: 0 <= i < |r.items| ==> r.items[i].id == st.items[i].id && r.items[i].kind == st.items[i].kind)
      && (forall i :: 0 <= i < |r.items| ==>
            (r.items[i].isCleaned <==> st.items[i].isCleaned || d == Drag(i, st.items[i].kind)))
  {
    if 0 <= d.piece < |st.items| && !st.items[d.piece].isCleaned {
      DropKeepsShape(st, st.items[d.piece].id, d.bin);
      BinDropMatchesTypes(st, d.piece, d.bin);
    }
  }

  /**
   With unique ids, a piece ends up cleaned after a sequence of drags exactly
   when it was cleaned before or one of the drags put it in its own bin; the
   order of the drags and any wrong drags in between do not matter.
   */
  lemma {:induction false} PlayCleans(st: State, drags: seq<Drag>)
    requires UniqueIds(st.items)
    ensures var r := Play(st, drags);
      |r.items| == |st.items|
      && (forall i :: 0 <= i < |r.items| ==> r.items[i].id == st.items[i].id && r.items[i].kind == st.items[i].kind)
      && forall i :: 0 <= i < |r.items| ==>
        (r.items[i].isCleaned <==> st.items[i].isCleaned || Drag(i, st.items[i].kind) in drags)
    decreases |drags|
  {
    if |drags| > 0 {
      var d := drags[0];
      var next := DragToBin(st, d);
      DragEffect(st, d);
      PlayCleans(next, drags[1..]);
      assert Play(st, drags) == Play(next, drags[1..]);
      assert forall e :: e in drags <==> e == d || e in drags[1..] by {
        assert drags == [d] + drags[1..];
      }
    }
  }

  /** Putting every piece into its own bin, in any order, cleans the whole river. */
  lemma AnyOrderCleansRiver(drags: seq<Drag>)
    requires forall i :: 0 <= i < 6 ==> Drag(i, Initial().items[i].kind) in drags
    ensures IsComplete(Play(Initial(), drags).items)
  {
    PlayCleans(Initial(), drags);
  }

  /** Once the river is clean every further drop leaves the trash as it is. */
  lemma CompletionIsStable(st: State, id: int, bin: TrashType)
    requires IsComplete(st.items)
    ensures HandleDrop(st, id, bin).items == st.items
  {
    var r := HandleDrop(st, id, bin);
    forall i | 0 <= i < |st.items| ensures r.items[i] == st.items[i] {
      assert st.items[i].isCleaned;
    }
  }
}
