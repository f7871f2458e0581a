/** The organisms during a tick: a list in which the dead keep their places until the tick ends, and the
    per-cell index of the living (Scratch::occ and Scratch::members of core/src/sim.rs). */
module Herd {
  import opened WorldState

  // ---- Counting the living ----

  function Count(os: seq<Organism>, alive: seq<bool>, key: Key): nat
    requires |os| == |alive|
  {
    if os == [] then 0
    else
      var n := |os| - 1;
      Count(os[..n], alive[..n], key) + if alive[n] && Matches(os[n], key) then 1 else 0
  }

  /** What is left when the dead are dropped. */
  function Retained(os: seq<Organism>, alive: seq<bool>): seq<Organism>
    requires |os| == |alive|
  {
    if os == [] then []
    else
      var n := |os| - 1;
      Retained(os[..n], alive[..n]) + if alive[n] then [os[n]] else []
  }

  /** How many organisms stand in each cell. */
  ghost predicate Counted(occ: seq<nat>, os: seq<Organism>, cells: nat) {
    |occ| == cells && forall c :: 0 <= c < cells ==> occ[c] == Tally(os, InCell(c))
  }

  lemma {:induction false} TallyRetained(os: seq<Organism>, alive: seq<bool>, key: Key)
    requires |os| == |alive|
    ensures Tally(Retained(os, alive), key) == Count(os, alive, key)
  {
    if os != [] {
      var n := |os| - 1;
      TallyRetained(os[..n], alive[..n], key);
      var kept := Retained(os[..n], alive[..n]);
      assert (kept + [os[n]])[..|kept|] == kept && kept + [] == kept;
    }
  }

  lemma {:induction false} CountAllAlive(os: seq<Organism>, alive: seq<bool>, key: Key)
    requires |os| == |alive| && forall i :: 0 <= i < |alive| ==> alive[i]
    ensures Count(os, alive, key) == Tally(os, key)
  {
    if os != [] {
      CountAllAlive(os[..|os| - 1], alive[..|os| - 1], key);
    }
  }

  /** One organism less. */
  lemma {:induction false} CountWithout(os: seq<Organism>, alive: seq<bool>, i: nat, key: Key)
    requires |os| == |alive| && i < |os| && alive[i]
    ensures Count(os, alive[i := false], key) == Count(os, alive, key) - (if Matches(os[i], key) then 1 else 0)
  {
    var n := |os| - 1;
    if i < n {
      assert alive[i := false][..n] == alive[..n][i := false];
      CountWithout(os[..n], alive[..n], i, key);
    } else {
      assert alive[i := false][..n] == alive[..n];
    }
  }

  /** Only the places of the living count. */
  lemma {:induction false} CountSame(os: seq<Organism>, os': seq<Organism>, alive: seq<bool>, key: Key)
    requires |os| == |os'| == |alive|
    requires forall i :: 0 <= i < |os| && alive[i] ==> (Matches(os[i], key) <==> Matches(os'[i], key))
    ensures Count(os, alive, key) == Count(os', alive, key)
  {
    if os != [] {
      var n := |os| - 1;
      CountSame(os[..n], os'[..n], alive[..n], key);
    }
  }

  lemma CountPush(os: seq<Organism>, alive: seq<bool>, o: Organism, live: bool, key: Key)
    requires |os| == |alive|
    ensures Count(os + [o], alive + [live], key) == Count(os, alive, key) + if live && Matches(o, key) then 1 else 0
  {
    assert (os + [o])[..|os|] == os && (alive + [live])[..|os|] == alive;
  }

  lemma {:induction false} CountNone(os: seq<Organism>, alive: seq<bool>, key: Key)
    requires |os| == |alive| && forall i :: 0 <= i < |os| && alive[i] ==> !Matches(os[i], key)
    ensures Count(os, alive, key) == 0
  {
    if os != [] {
      CountNone(os[..|os| - 1], alive[..|os| - 1], key);
    }
  }

  lemma CountSome(os: seq<Organism>, alive: seq<bool>, i: nat, key: Key)
    requires |os| == |alive| && i < |os| && alive[i] && Matches(os[i], key)
    ensures Count(os, alive, key) >= 1
  {
    CountWithout(os, alive, i, key);
  }

  // ---- The index of the living by cell ----

  const EMPTY: nat := 0xFFFF_FFFF

  type Slots = t: seq<nat> | |t| == 4 witness [0, 0, 0, 0]

  /** Organisms per cell, and the places of the organisms in each cell in arrival order. */
  datatype Index = Index(occ: seq<nat>, members: seq<Slots>)

  predicate Shaped(ix: Index, cells: nat) {
    |ix.occ| == |ix.members| == cells && forall c :: 0 <= c < cells ==> ix.occ[c] <= 4
  }

  /** The places listed in a cell. */
  function Listed(ix: Index, c: nat): seq<nat>
    requires c < |ix.occ| == |ix.members| && ix.occ[c] <= 4
  {
    ix.members[c][..ix.occ[c]]
  }

  predicate Distinct(list: seq<nat>) {
    forall j, k :: 0 <= j < k < |list| ==> list[j] != list[k]
  }

  predicate Here(os: seq<Organism>, alive: seq<bool>, c: nat, i: int)
    requires |os| == |alive|
  {
    0 <= i < |os| && alive[i] && os[i].cell == c
  }

  /** A list names the living organisms of a cell, each once. */
  ghost predicate Lists(list: seq<nat>, os: seq<Organism>, alive: seq<bool>, c: nat)
    requires |os| == |alive|
  {
    && (forall i :: i in list <==> Here(os, alive, c, i))
    && Distinct(list)
    && |list| == Count(os, alive, InCell(c))
  }

  /** The index agrees with the organisms in every cell. */
  ghost predicate Crowd(ix: Index, cells: nat, limit: nat, os: seq<Organism>, alive: seq<bool>) {
    && |os| == |alive| && Shaped(ix, cells)
    && (forall c :: 0 <= c < cells ==> ix.occ[c] <= limit && Lists(Listed(ix, c), os, alive, c))
  }

  /** Where a place is listed. */
  function Position(list: seq<nat>, i: nat): (p: nat)
    requires i in list
    ensures p < |list| && list[p] == i
  {
    if list[0] == i then 0 else 1 + Position(list[1..], i)
  }

  function Entered(ix: Index, c: nat, i: nat): Index
    requires c < |ix.occ| == |ix.members| && ix.occ[c] < 4
  {
    Index(ix.occ[c := ix.occ[c] + 1], ix.members[c := ix.members[c][ix.occ[c] := i]])
  }

  /** The later slots move up by one and the last becomes empty. */
  function ClosedUp(slots: Slots, p: nat, n: nat): Slots
    requires p < n <= 4
  {
    slots[..p] + slots[p + 1..n] + [EMPTY] + slots[n..]
  }

  function Left(ix: Index, c: nat, i: nat): Index
    requires c < |ix.occ| == |ix.members| && ix.occ[c] <= 4 && i in Listed(ix, c)
  {
    Index(ix.occ[c := ix.occ[c] - 1],
      ix.members[c := ClosedUp(ix.members[c], Position(Listed(ix, c), i), ix.occ[c])])
  }

  lemma ListWithout(list: seq<nat>, p: nat, os: seq<Organism>, alive: seq<bool>, i: nat, c: nat)
    requires |os| == |alive| && p < |list| && list[p] == i < |os| && Lists(list, os, alive, c)
    ensures Lists(list[..p] + list[p + 1..], os, alive[i := false], c)
  {
    var rest := list[..p] + list[p + 1..];
    assert i in list;
    CountWithout(os, alive, i, InCell(c));
    forall j
      ensures j in rest <==> Here(os, alive[i := false], c, j)
    {
      if j in rest {
        var k :| 0 <= k < |rest| && rest[k] == j;
        assert list[if k < p then k else k + 1] == j;
        assert j in list;
      }
      if Here(os, alive[i := false], c, j) {
        assert Here(os, alive, c, j);
        var k :| 0 <= k < |list| && list[k] == j;
        assert rest[if k < p then k else k - 1] == j;
      }
    }
  }

  /** Other cells do not notice. */
  lemma ListOther(list: seq<nat>, os: seq<Organism>, alive: seq<bool>, i: nat, c: nat)
    requires |os| == |alive| && i < |os| && alive[i] && os[i].cell != c && Lists(list, os, alive, c)
    ensures Lists(list, os, alive[i := false], c)
  {
    CountWithout(os, alive, i, InCell(c));
    assert forall j :: Here(os, alive[i := false], c, j) <==> Here(os, alive, c, j);
  }

  /** Taking organism i out of its cell's list is what its death, or its leaving, needs. */
  lemma LeaveKeeps(ix: Index, cells: nat, limit: nat, os: seq<Organism>, alive: seq<bool>, i: nat)
    requires Crowd(ix, cells, limit, os, alive) && i < |os| && alive[i] && os[i].cell < cells
    ensures Shaped(ix, cells)
    ensures i in Listed(ix, os[i].cell)
    ensures Crowd(Left(ix, os[i].cell, i), cells, limit, os, alive[i := false])
  {
    var at := os[i].cell;
    assert Here(os, alive, at, i);
    var list := Listed(ix, at);
    var p, ix' := Position(list, i), Left(ix, at, i);
    forall c | 0 <= c < cells
      ensures ix'.occ[c] <= limit && Lists(Listed(ix', c), os, alive[i := false], c)
    {
      if c == at {
        ListWithout(list, p, os, alive, i, c);
        assert Listed(ix', c) == list[..p] + list[p + 1..];
      } else {
        ListOther(Listed(ix, c), os, alive, i, c);
        assert Listed(ix', c) == Listed(ix, c);
      }
    }
  }

  lemma ListWith(list: seq<nat>, os: seq<Organism>, alive: seq<bool>, i: nat, c: nat)
    requires |os| == |alive| && i < |os| && !alive[i] && os[i].cell == c && Lists(list, os, alive, c)
    ensures Lists(list + [i], os, alive[i := true], c)
  {
    assert alive[i := true][i := false] == alive;
    CountWithout(os, alive[i := true], i, InCell(c));
    assert !Here(os, alive, c, i);
    forall j
      ensures j in list + [i] <==> Here(os, alive[i := true], c, j)
    {
      assert j != i ==> (Here(os, alive[i := true], c, j) <==> Here(os, alive, c, j));
    }
  }

  lemma ListOtherWith(list: seq<nat>, os: seq<Organism>, alive: seq<bool>, i: nat, c: nat)
    requires |os| == |alive| && i < |os| && !alive[i] && os[i].cell != c && Lists(list, os, alive, c)
    ensures Lists(list, os, alive[i := true], c)
  {
    assert alive[i := true][i := false] == alive;
    CountWithout(os, alive[i := true], i, InCell(c));
    assert forall j :: Here(os, alive[i := true], c, j) <==> Here(os, alive, c, j);
  }

  /** Listing organism i in its cell is what its arrival needs. */
  lemma EnterKeeps(ix: Index, cells: nat, limit: nat, os: seq<Organism>, alive: seq<bool>, i: nat)
    requires Crowd(ix, cells, limit, os, alive) && i < |os| && !alive[i] && os[i].cell < cells
    requires ix.occ[os[i].cell] < limit <= 4
    ensures Shaped(ix, cells)
    ensures Crowd(Entered(ix, os[i].cell, i), cells, limit, os, alive[i := true])
  {
    var at := os[i].cell;
    var ix' := Entered(ix, at, i);
    forall c | 0 <= c < cells
      ensures ix'.occ[c] <= limit && Lists(Listed(ix', c), os, alive[i := true], c)
    {
      if c == at {
        ListWith(Listed(ix, c), os, alive, i, c);
        assert Listed(ix', c) == Listed(ix, c) + [i];
      } else {
        ListOtherWith(Listed(ix, c), os, alive, i, c);
        assert Listed(ix', c) == Listed(ix, c);
      }
    }
  }

  /** The index depends only on the cells of the living. */
  lemma SameCellsKeep(ix: Index, cells: nat, limit: nat, os: seq<Organism>, os': seq<Organism>, alive: seq<bool>)
    requires Crowd(ix, cells, limit, os, alive) && |os'| == |os|
    requires forall i :: 0 <= i < |os| && alive[i] ==> os'[i].cell == os[i].cell
    ensures Crowd(ix, cells, limit, os', alive)
  {
    forall c | 0 <= c < cells
      ensures Lists(Listed(ix, c), os', alive, c)
    {
      CountSame(os, os', alive, InCell(c));
      assert forall i :: Here(os', alive, c, i) <==> Here(os, alive, c, i);
    }
  }

  /** A place for an organism that is not there yet. */
  lemma PushKeeps(ix: Index, cells: nat, limit: nat, os: seq<Organism>, alive: seq<bool>, o: Organism)
    requires Crowd(ix, cells, limit, os, alive)
    ensures Crowd(ix, cells, limit, os + [o], alive + [false])
  {
    forall c | 0 <= c < cells
      ensures Lists(Listed(ix, c), os + [o], alive + [false], c)
    {
      CountPush(os, alive, o, false, InCell(c));
      assert forall i :: Here(os + [o], alive + [false], c, i) <==> Here(os, alive, c, i);
    }
  }

  /** Organism i steps from its cell into one with room. */
  lemma MoveKeeps(ix: Index, cells: nat, limit: nat, os: seq<Organism>, alive: seq<bool>, i: nat, to: nat)
    requires Crowd(ix, cells, limit, os, alive) && i < |os| && alive[i] && os[i].cell < cells
    requires to < cells && to != os[i].cell && ix.occ[to] < limit <= 4
    ensures Shaped(ix, cells) && i in Listed(ix, os[i].cell)
    ensures Shaped(Left(ix, os[i].cell, i), cells) && Left(ix, os[i].cell, i).occ[to] == ix.occ[to]
    ensures Crowd(Entered(Left(ix, os[i].cell, i), to, i), cells, limit, os[i := os[i].(cell := to)], alive)
  {
    LeaveKeeps(ix, cells, limit, os, alive, i);
    var gone, moved := alive[i := false], os[i := os[i].(cell := to)];
    SameCellsKeep(Left(ix, os[i].cell, i), cells, limit, os, moved, gone);
    EnterKeeps(Left(ix, os[i].cell, i), cells, limit, moved, gone, i);
    assert gone[i := true] == alive;
  }

  /** A newborn takes the next place and a slot in a cell with room. */
  lemma BirthKeeps(ix: Index, cells: nat, limit: nat, os: seq<Organism>, alive: seq<bool>, o: Organism)
    requires Crowd(ix, cells, limit, os, alive) && o.cell < cells && ix.occ[o.cell] < limit <= 4
    ensures Shaped(ix, cells)
    ensures Crowd(Entered(ix, o.cell, |os|), cells, limit, os + [o], alive + [true])
  {
    PushKeeps(ix, cells, limit, os, alive, o);
    EnterKeeps(ix, cells, limit, os + [o], alive + [false], |os|);
    assert (alive + [false])[|os| := true] == alive + [true];
  }
}
