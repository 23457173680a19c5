/**
 Station 4, the mountain: five caged animals to be dragged to their habitat,
 the sky or the trees. A habitat zone lets an animal in only when it is the
 animal's own habitat; otherwise nothing at all happens. The station is
 complete when every animal is rescued.
 */
module Station4 {
  import opened Collections

  datatype AnimalType = Sloth | Monkey | Bird

  datatype Habitat = Tree | Sky

  datatype Animal = Animal(id: int, kind: AnimalType, emoji: string, name: string, rescued: bool, habitat: Habitat)

  /** The guide's messages, one per distinct text the station shows. */
  datatype Guide =
    | RescueThem      // rescue the animals, drag them home
    | FreeAtLast      // well done, free at last
    | MountainSmiles  // wildlife protected, the mountain smiles

  datatype State = State(animals: seq<Animal>, guide: Guide)

  /** The layout the station mounts with: five caged animals, all at home in the trees but the condor. */
  function Initial(): (st: State)
    ensures |st.animals| == 5 && st.guide == RescueThem
    ensures forall i :: 0 <= i < 5 ==> st.animals[i].id == i + 1 && !st.animals[i].rescued
    ensures forall i :: 0 <= i < 5 ==> (st.animals[i].habitat == Sky <==> st.animals[i].id == 3)
  {
    State([ Animal(1, Sloth, "🦥", "Perezoso", false, Tree),
            Animal(2, Monkey, "🐒", "Mono", false, Tree),
            Animal(3, Bird, "🦅", "Cóndor", false, Sky),
            Animal(4, Bird, "🦜", "Loro", false, Tree),
            Animal(5, Monkey, "🦍", "Mono", false, Tree) ],
          RescueThem)
  }

  predicate AllRescued(animals: seq<Animal>) {
    forall i :: 0 <= i < |animals| ==> animals[i].rescued
  }

  /**
   An animal accepted by its habitat: every animal with its id is rescued,
   nothing else changes, and the guide cheers (or, when this was the last
   animal, announces the completion).
   */
  function HandleDrop(st: State, item: Animal): (r: State)
    ensures |r.animals| == |st.animals|
    ensures forall i :: 0 <= i < |r.animals| ==>
      r.animals[i] == if st.animals[i].id == item.id then st.animals[i].(rescued := true) else st.animals[i]
    ensures r.guide == if AllRescued(r.animals) && !AllRescued(st.animals) then MountainSmiles else FreeAtLast
  {
    var animals := seq(|st.animals|, i requires 0 <= i < |st.animals| =>
      if st.animals[i].id == item.id then st.animals[i].(rescued := true) else st.animals[i]);
    State(animals, if AllRescued(animals) && !AllRescued(st.animals) then MountainSmiles else FreeAtLast)
  }

  /**
   A habitat zone of type `zone` receiving a dragged animal: the drop reaches
   the station only when the animal lives there; a wrong habitat changes
   nothing, not even the guide.
   */
  function ZoneDrop(st: State, item: Animal, zone: Habitat): (r: State)
    ensures item.habitat != zone ==> r == st
    ensures item.habitat == zone ==> r == HandleDrop(st, item)
  {
    if item.habitat == zone then HandleDrop(st, item) else st
  }

  /** The rescued animals living in habitat `h`, in list order. */
  function RescuedIn(animals: seq<Animal>, h: Habitat): (r: seq<Animal>)
    ensures forall i :: 0 <= i < |r| ==> r[i].rescued && r[i].habitat == h && r[i] in animals
    ensures forall i :: 0 <= i < |animals| && animals[i].rescued && animals[i].habitat == h ==> animals[i] in r
  {
    Filter(animals, (a: Animal) => a.rescued && a.habitat == h)
  }

  /** The rescued animals in list order. */
  function Rescued(animals: seq<Animal>): seq<Animal> {
    Filter(animals, (a: Animal) => a.rescued)
  }

  /** The animals shown in the left tree (`left`) or the right tree: alternate rescued tree-dwellers. */
  function TreeZone(animals: seq<Animal>, left: bool): (r: seq<Animal>)
    ensures forall k :: 0 <= k < |r| ==>
      2 * k + FirstTaken(left) < |RescuedIn(animals, Tree)| && r[k] == RescuedIn(animals, Tree)[2 * k + FirstTaken(left)]
  {
    var all := RescuedIn(animals, Tree);
    AlternateAt(all, left);
    Alternate(all, left)
  }

  /** A tree shows only rescued animals of the trees, taken from the station's list. */
  lemma TreeZoneHoldsRescuedTreeAnimals(animals: seq<Animal>, left: bool)
    ensures forall k :: 0 <= k < |TreeZone(animals, left)| ==>
      var a := TreeZone(animals, left)[k]; a.rescued && a.habitat == Tree && a in animals
  {
    var all := RescuedIn(animals, Tree);
    forall k | 0 <= k < |TreeZone(animals, left)|
      ensures var a := TreeZone(animals, left)[k]; a.rescued && a.habitat == Tree && a in animals
    {
      assert TreeZone(animals, left)[k] == all[2 * k + FirstTaken(left)];
    }
  }

  /** The cages on screen: none once everyone is rescued, otherwise the animals not yet rescued. */
  function Cages(st: State): (r: seq<Animal>)
    ensures forall i :: 0 <= i < |r| ==> !r[i].rescued
    ensures forall i :: 0 <= i < |st.animals| && !st.animals[i].rescued ==> st.animals[i] in r
  {
    if AllRescued(st.animals) then [] else Filter(st.animals, (a: Animal) => !a.rescued)
  }

  /** The success button is on screen exactly when every animal is rescued. */
  function ContinueVisible(st: State): (visible: bool)
    ensures visible <==> forall i :: 0 <= i < |st.animals| ==> st.animals[i].rescued
  {
    AllRescued(st.animals)
  }

  /** The tree and sky zones together show every rescued animal exactly once. */
  lemma HabitatsPartitionRescued(animals: seq<Animal>)
    ensures multiset(RescuedIn(animals, Tree)) + multiset(RescuedIn(animals, Sky)) == multiset(Rescued(animals))
  {
    FilterSplit(animals, (a: Animal) => a.rescued,
                (a: Animal) => a.rescued && a.habitat == Tree, (a: Animal) => a.rescued && a.habitat == Sky);
  }

  /** Whether no two animals share an id. */
  predicate UniqueIds(animals: seq<Animal>) {
    forall i, j :: 0 <= i < j < |animals| ==> animals[i].id != animals[j].id
  }

  /**
   The two tree zones split the rescued tree-dwellers between them: together
   they hold each exactly once, and with unique ids no animal is in both.
   */
  lemma TreeZonesSplitRescued(animals: seq<Animal>)
    ensures multiset(TreeZone(animals, true)) + multiset(TreeZone(animals, false)) == multiset(RescuedIn(animals, Tree))
    ensures UniqueIds(animals) ==> forall a :: a in TreeZone(animals, true) ==> a !in TreeZone(animals, false)
  {
    var r := RescuedIn(animals, Tree);
    AlternatePartition(r);
    if UniqueIds(animals) {
      UniqueIdsDistinct(animals);
      FilterDistinct(animals, (a: Animal) => a.rescued && a.habitat == Tree);
      AlternateDisjoint(r);
    }
  }

  /** Animals with pairwise different ids are pairwise different. */
  lemma UniqueIdsDistinct(animals: seq<Animal>)
    requires UniqueIds(animals)
    ensures Distinct(animals)
  {
    forall i, j | 0 <= i < j < |animals| ensures animals[i] != animals[j] {
      assert animals[i].id != animals[j].id;
    }
  }

  /** The guard on the cage area changes nothing: with everyone rescued there are no unrescued animals. */
  lemma CagesAreTheUnrescued(st: State)
    ensures Cages(st) == Filter(st.animals, (a: Animal) => !a.rescued)
  {
    if AllRescued(st.animals) {
      var r := Filter(st.animals, (a: Animal) => !a.rescued);
      assert |r| == 0;
    }
  }

  /** Rescuing is idempotent: the same accepted drop twice leaves the animals as one does. */
  lemma DropIdempotent(st: State, item: Animal, zone: Habitat)
    ensures ZoneDrop(ZoneDrop(st, item, zone), item, zone).animals == ZoneDrop(st, item, zone).animals
  {
  }

  /** A rescued animal stays rescued, and the list keeps its size and order. */
  lemma RescueNeverReverts(st: State, item: Animal, zone: Habitat)
    ensures var r := ZoneDrop(st, item, zone);
      |r.animals| == |st.animals|
      && forall i :: 0 <= i < |r.animals| ==>
        r.animals[i].id == st.animals[i].id && r.animals[i].habitat == st.animals[i].habitat
        && (st.animals[i].rescued ==> r.animals[i].rescued)
  {
  }

  /** The player drags the caged animal at position `animal` to a habitat zone of type `zone`. */
  datatype Drag = Drag(animal: int, zone: Habitat)

  /**
   One drag as the screen allows it: only a caged animal can be dragged, and
   the cages are gone once everyone is rescued.
   */
  function DragToZone(st: State, d: Drag): (r: State)
    ensures !(0 <= d.animal < |st.animals|) || st.animals[d.animal].rescued ==> r == st
  {
    if 0 <= d.animal < |st.animals| && !st.animals[d.animal].rescued && !AllRescued(st.animals) then
      ZoneDrop(st, st.animals[d.animal], d.zone)
    else st
  }

  /** The station after a sequence of drags. */
  function Play(st: State, drags: seq<Drag>): State
    decreases |drags|
  {
    if |drags| == 0 then st else Play(DragToZone(st, drags[0]), drags[1..])
  }

  /** One drag rescues exactly the dragged animal when it goes to its own habitat. */
  lemma DragEffect(st: State, d: Drag)
    requires UniqueIds(st.animals)
    ensures var r := DragToZone(st, d);
      |r.animals| == |st.animals| && UniqueIds(r.animals)
      && (forall i :: 0 <= i < |r.animals| ==> r.animals[i].id == st.animals[i].id && r.animals[i].habitat == st.animals[i].habitat)
      && (forall i :: 0 <= i < |r.animals| ==>
            (r.animals[i].rescued <==> st.animals[i].rescued || d == Drag(i, st.animals[i].habitat)))
  {
    var r := DragToZone(st, d);
    if 0 <= d.animal < |st.animals| && !st.animals[d.animal].rescued && !AllRescued(st.animals) {
      forall i | 0 <= i < |st.animals|
        ensures r.animals[i].rescued <==> st.animals[i].rescued || d == Drag(i, st.animals[i].habitat)
      {
        if i != d.animal {
          assert st.animals[i].id != st.animals[d.animal].id;
        }
      }
    }
  }

  /**
   With unique ids, an animal is rescued after a sequence of drags exactly
   when it was rescued before or one of the drags took it to its own
   habitat; order and wrong drags in between do not matter.
   */
  lemma {:induction false} PlayRescues(st: State, drags: seq<Drag>)
    requires UniqueIds(st.animals)
    ensures var r := Play(st, drags);
      |r.animals| == |st.animals|
      && (forall i :: 0 <= i < |r.animals| ==> r.animals[i].id == st.animals[i].id && r.animals[i].habitat == st.animals[i].habitat)
      && forall i :: 0 <= i < |r.animals| ==>
        (r.animals[i].rescued <==> st.animals[i].rescued || Drag(i, st.animals[i].habitat) in drags)
    decreases |drags|
  {
    if |drags| > 0 {
      var d := drags[0];
      DragEffect(st, d);
      PlayRescues(DragToZone(st, d), drags[1..]);
      assert forall e :: e in drags <==> e == d || e in drags[1..] by {
        assert drags == [d] + drags[1..];
      }
    }
  }

  /** Taking every animal to its own habitat, in any order, rescues them all. */
  lemma AnyOrderRescuesAll(st: State, drags: seq<Drag>)
    requires UniqueIds(st.animals)
    requires forall i :: 0 <= i < |st.animals| ==> Drag(i, st.animals[i].habitat) in drags
    ensures AllRescued(Play(st, drags).animals)
  {
    PlayRescues(st, drags);
  }
}
