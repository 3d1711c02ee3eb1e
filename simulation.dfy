/**
 * The whole diorama: one registry, the two vehicles and the frame buffer,
 * and the tick that renders the current state and then moves every vehicle
 * in array order.  Because the moves are sequential, vehicle 1's collision
 * check already sees the position vehicle 0 committed in the same tick.
 */
module Simulation {
  import opened Layout
  import opened CloudRegistry
  import opened Movement
  import opened Rendering

  /** Abstract state: the registry entries and the vehicles' own positions, by id. */
  datatype World = World(entries: seq<Position>, positions: seq<Position>)

  /** The registry and every vehicle agree on where each vehicle is. */
  predicate Synced(w: World) {
    w.entries == w.positions
  }

  /**
   * The candidate of every vehicle for one tick.  A vehicle's own position is
   * changed only by its own move, so each candidate can be taken from the
   * state before the tick, even though the moves happen one after the other.
   */
  function Candidates(w: World, coins: seq<bool>): (candidates: seq<Position>)
    requires |coins| <= |w.positions|
    ensures |candidates| == |coins|
  {
    seq(|coins|, i requires 0 <= i < |coins| => Proposal(w.positions[i], coins[i]))
  }

  /**
   * A vehicle that stood at `from`, registered at `entry`, ends at `to`,
   * registered at `entry'`: either it was held back and its entry is
   * untouched, or it took the step to `candidate` and registered it.
   */
  predicate HeldOrStepped(from: Position, entry: Position, to: Position, entry': Position, candidate: Position) {
    (to == from && entry' == entry) || (to == candidate && entry' == to)
  }

  /** Vehicle `i` commits or rolls back its candidate; every other vehicle and entry is untouched. */
  function Step(w: World, candidates: seq<Position>, i: nat): (r: World)
    requires i < |candidates| && i < |w.entries| && |w.positions| == |w.entries|
    ensures |r.entries| == |w.entries| && |r.positions| == |w.positions|
    ensures forall j :: 0 <= j < |w.entries| && j != i ==> r.entries[j] == w.entries[j] && r.positions[j] == w.positions[j]
  {
    var o := Commit(w.entries, i, w.positions[i], candidates[i]);
    World(o.entries, w.positions[i := o.position])
  }

  /** The moving vehicle was either held back or took its step. */
  lemma StepHeldOrStepped(w: World, candidates: seq<Position>, i: nat)
    requires i < |candidates| && i < |w.entries| && |w.positions| == |w.entries|
    ensures var r := Step(w, candidates, i);
      HeldOrStepped(w.positions[i], w.entries[i], r.positions[i], r.entries[i], candidates[i])
  {
  }

  /** A step keeps the registered pixels pairwise distinct. */
  lemma StepKeepsDistinct(w: World, candidates: seq<Position>, i: nat)
    requires i < |candidates| && i < |w.entries| && |w.positions| == |w.entries|
    requires Distinct(w.entries)
    ensures Distinct(Step(w, candidates, i).entries)
  {
    if FreeIn(w.entries, i, Pixel(candidates[i])) {
      CommitKeepsDistinct(w.entries, i, candidates[i]);
    }
  }

  /** A step to a valid candidate keeps every entry and every vehicle position valid. */
  lemma StepKeepsValid(w: World, candidates: seq<Position>, i: nat)
    requires i < |candidates| && i < |w.entries| && |w.positions| == |w.entries|
    requires AllValid(w.entries) && AllValid(w.positions) && ValidPosition(candidates[i])
    ensures AllValid(Step(w, candidates, i).entries) && AllValid(Step(w, candidates, i).positions)
  {
  }

  /** Once the registry and the vehicles agree, a step keeps them agreeing. */
  lemma StepKeepsSynced(w: World, candidates: seq<Position>, i: nat)
    requires i < |candidates| && i < |w.entries| && |w.positions| == |w.entries|
    requires Synced(w)
    ensures Synced(Step(w, candidates, i))
  {
  }

  /** The state after vehicles 0 .. n-1 have moved, in that order; later vehicles are untouched. */
  function MoveFirst(w: World, candidates: seq<Position>, n: nat): (r: World)
    requires n <= |candidates| && n <= |w.entries| && |w.positions| == |w.entries|
    ensures |r.entries| == |w.entries| && |r.positions| == |w.positions|
    ensures forall j :: n <= j < |w.entries| ==> r.entries[j] == w.entries[j] && r.positions[j] == w.positions[j]
  {
    if n == 0 then w else Step(MoveFirst(w, candidates, n - 1), candidates, n - 1)
  }

  /** Each of the vehicles 0 .. n-1 was either held back or took its step. */
  lemma {:induction false} MoveFirstSteps(w: World, candidates: seq<Position>, n: nat)
    requires n <= |candidates| && n <= |w.entries| && |w.positions| == |w.entries|
    ensures var r := MoveFirst(w, candidates, n);
      forall j :: 0 <= j < n ==> HeldOrStepped(w.positions[j], w.entries[j], r.positions[j], r.entries[j], candidates[j])
  {
    if n > 0 {
      MoveFirstSteps(w, candidates, n - 1);
      var prev := MoveFirst(w, candidates, n - 1);
      var r := MoveFirst(w, candidates, n);
      StepHeldOrStepped(prev, candidates, n - 1);
      forall j | 0 <= j < n
        ensures HeldOrStepped(w.positions[j], w.entries[j], r.positions[j], r.entries[j], candidates[j])
      {
        if j < n - 1 {
          assert r.positions[j] == prev.positions[j] && r.entries[j] == prev.entries[j];
        } else {
          assert prev.positions[j] == w.positions[j] && prev.entries[j] == w.entries[j];
        }
      }
    }
  }

  /**
   * One tick's worth of movement: every vehicle moves once, in id order, so
   * each one ends either where it was, with its entry untouched, or one step
   * on, registered there.
   */
  function TickMoves(w: World, coins: seq<bool>): (r: World)
    requires |coins| == |w.entries| == |w.positions|
    ensures |r.entries| == |w.entries| && |r.positions| == |w.positions|
    ensures forall i :: 0 <= i < |coins| ==>
      HeldOrStepped(w.positions[i], w.entries[i], r.positions[i], r.entries[i], Proposal(w.positions[i], coins[i]))
  {
    MoveFirstSteps(w, Candidates(w, coins), |coins|);
    MoveFirst(w, Candidates(w, coins), |coins|)
  }

  /** Sequential moves keep the registered pixels pairwise distinct. */
  lemma {:induction false} MoveFirstKeepsDistinct(w: World, candidates: seq<Position>, n: nat)
    requires n <= |candidates| && n <= |w.entries| && |w.positions| == |w.entries|
    requires Distinct(w.entries)
    ensures Distinct(MoveFirst(w, candidates, n).entries)
  {
    if n > 0 {
      MoveFirstKeepsDistinct(w, candidates, n - 1);
      StepKeepsDistinct(MoveFirst(w, candidates, n - 1), candidates, n - 1);
    }
  }

  /** Sequential moves to valid candidates keep every entry and every vehicle position valid. */
  lemma {:induction false} MoveFirstKeepsValid(w: World, candidates: seq<Position>, n: nat)
    requires n <= |candidates| && n <= |w.entries| && |w.positions| == |w.entries|
    requires AllValid(w.entries) && AllValid(w.positions) && AllValid(candidates)
    ensures AllValid(MoveFirst(w, candidates, n).entries) && AllValid(MoveFirst(w, candidates, n).positions)
  {
    if n > 0 {
      MoveFirstKeepsValid(w, candidates, n - 1);
      StepKeepsValid(MoveFirst(w, candidates, n - 1), candidates, n - 1);
    }
  }

  /** Once the registry and the vehicles agree, sequential moves keep them agreeing. */
  lemma {:induction false} MoveFirstKeepsSynced(w: World, candidates: seq<Position>, n: nat)
    requires n <= |candidates| && n <= |w.entries| && |w.positions| == |w.entries|
    requires Synced(w)
    ensures Synced(MoveFirst(w, candidates, n))
  {
    if n > 0 {
      MoveFirstKeepsSynced(w, candidates, n - 1);
      StepKeepsSynced(MoveFirst(w, candidates, n - 1), candidates, n - 1);
    }
  }

  /** A tick from a synced, valid, collision-free state leads to another one. */
  lemma TickKeepsInvariant(w: World, coins: seq<bool>)
    requires |coins| == |w.entries| == |w.positions|
    requires Synced(w) && AllValid(w.entries) && Distinct(w.entries)
    ensures var r := TickMoves(w, coins); Synced(r) && AllValid(r.entries) && Distinct(r.entries)
  {
    var candidates := Candidates(w, coins);
    forall i | 0 <= i < |coins|
      ensures ValidPosition(candidates[i])
    {
      ProposalIsValid(w.positions[i], coins[i]);
    }
    MoveFirstKeepsSynced(w, candidates, |coins|);
    MoveFirstKeepsValid(w, candidates, |coins|);
    MoveFirstKeepsDistinct(w, candidates, |coins|);
  }

  /** The start-up state: the zeroed registry puts both ids at (0, 0), vehicle 1 itself stands at (4, 0). */
  const Initial := World([Position(0, 0), Position(0, 0)], [Position(0, 0), Position(4, 0)])

  /**
   * Whatever the coins, the first tick takes vehicle 0 to (0, 1) and vehicle 1
   * to (4, 1), after which registry and vehicles agree and no two share a pixel.
   */
  lemma FirstTick(coins: seq<bool>)
    requires |coins| == NumVehicles
    ensures TickMoves(Initial, coins) == World([Position(0, 1), Position(4, 1)], [Position(0, 1), Position(4, 1)])
    ensures var r := TickMoves(Initial, coins); Synced(r) && AllValid(r.entries) && Distinct(r.entries)
  {
    var candidates := Candidates(Initial, coins);
    assert candidates == [Position(0, 1), Position(4, 1)];
    var after0 := MoveFirst(Initial, candidates, 1);
    assert after0 == World([Position(0, 1), Position(0, 0)], [Position(0, 1), Position(4, 0)]);
    assert FreeIn(after0.entries, 1, Pixel(Position(4, 1)));
  }

  /**
   * Order matters: vehicle 0 steps from (0, 4) onto (0, 5), the pixel vehicle 1
   * would merge onto from the end of street 5, so vehicle 1 is held back.
   */
  lemma MergeBlockedBySequentialMove(coin: bool)
    ensures var w := World([Position(0, 4), Position(5, 3)], [Position(0, 4), Position(5, 3)]);
      TickMoves(w, [false, coin]) == World([Position(0, 5), Position(5, 3)], [Position(0, 5), Position(5, 3)])
  {
    var w := World([Position(0, 4), Position(5, 3)], [Position(0, 4), Position(5, 3)]);
    var candidates := Candidates(w, [false, coin]);
    assert candidates == [Position(0, 5), Position(0, 5)];
    var after0 := MoveFirst(w, candidates, 1);
    assert after0 == World([Position(0, 5), Position(5, 3)], [Position(0, 5), Position(5, 3)]);
    assert Pixel(after0.entries[0]) == Pixel(Position(0, 5));
  }

  /** The running system: the registry, the vehicles in update order, and the frame buffer. */
  class Simulation {
    const cloud: Cloud
    const vehicles: seq<Vehicle>
    const model: array<Color>

    /** Vehicle `i` has id `i`, all share the one registry, and the buffer covers the strip. */
    predicate Valid() {
      && cloud.Valid()
      && model.Length == NumPixels
      && |vehicles| == NumVehicles
      && (forall i :: 0 <= i < |vehicles| ==> vehicles[i].id == i && vehicles[i].cloud == cloud)
      && (forall i, j :: 0 <= i < |vehicles| && 0 <= j < |vehicles| && i != j ==> vehicles[i] != vehicles[j])
    }

    /** Each vehicle's own position, by id. */
    ghost function Positions(): (positions: seq<Position>)
      reads vehicles
      ensures |positions| == |vehicles|
    {
      seq(|vehicles|, i requires 0 <= i < |vehicles| reads vehicles => vehicles[i].At())
    }

    /** The abstract state of the simulation. */
    ghost function State(): World
      reads cloud.streets, cloud.addresses, vehicles
      requires Valid()
    {
      World(cloud.Entries(), Positions())
    }

    /** Start-up: zeroed registry, vehicle 0 at (0, 0), vehicle 1 at (4, 0), all pixels off. */
    constructor ()
      ensures Valid() && State() == Initial
      ensures fresh(cloud.streets) && fresh(cloud.addresses) && fresh(model)
      ensures forall i :: 0 <= i < |vehicles| ==> fresh(vehicles[i])
      ensures model[..] == seq(NumPixels, _ => Off)
    {
      var registry := new Cloud();
      var first := new Vehicle(0, registry, 0, 0);
      var second := new Vehicle(1, registry, 4, 0);
      cloud := registry;
      vehicles := [first, second];
      model := new Color[NumPixels](_ => Off);
    }

    /**
     * Build the frame: clear the buffer, paint every registered vehicle's
     * lighting, then every vehicle's marker at its own position.
     */
    method Render()
      requires Valid()
      requires forall i :: 0 <= i < NumVehicles ==> 0 <= cloud.Entries()[i].street < NumStreets
      requires AllValid(Positions())
      modifies model
      ensures model[..] == Frame(cloud.Entries(), Positions())
    {
      // clear the buffer
      for k := 0 to model.Length
        invariant forall k' :: 0 <= k' < k ==> model[k'] == Off
      {
        model[k] := Off;
      }
      PaintLighting();
      PaintMarkers();
      assert forall k :: 0 <= k < NumPixels ==> model[..][k] == Frame(cloud.Entries(), Positions())[k];
    }

    /** The lighting pass over a cleared buffer: yellow exactly where some registered vehicle lights. */
    method PaintLighting()
      requires Valid()
      requires forall i :: 0 <= i < NumVehicles ==> 0 <= cloud.Entries()[i].street < NumStreets
      requires forall k :: 0 <= k < NumPixels ==> model[k] == Off
      modifies model
      ensures forall k :: 0 <= k < NumPixels ==> model[k] == if Lit(cloud.Entries(), k) then Yellow else Off
    {
      ghost var entries := cloud.Entries();
      for i := 0 to NumVehicles
        invariant forall k :: 0 <= k < NumPixels ==> model[k] == if Lit(entries[..i], k) then Yellow else Off
      {
        var address := cloud.Address(i);
        var street := cloud.Street(i);
        LightStreet(model, street, address);
        LightIntersection(model, street, address);
        LitExtend(entries, i);
      }
      assert entries[..NumVehicles] == entries;
    }

    /** The marker pass: each vehicle's pixel takes its marker colour, later vehicles winning. */
    method PaintMarkers()
      requires Valid() && AllValid(Positions())
      modifies model
      ensures forall k :: 0 <= k < NumPixels ==>
        (var m := LastMarker(Positions(), k);
         model[k] == if m >= 0 then MarkerColor(m) else old(model[k]))
    {
      ghost var markers := Positions();
      for i := 0 to |vehicles|
        invariant forall k :: 0 <= k < NumPixels ==>
          (var m := LastMarker(markers[..i], k);
           model[k] == if m >= 0 then MarkerColor(m) else old(model[k]))
      {
        assert vehicles[i].At() == markers[i] && ValidPosition(markers[i]);
        model[vehicles[i].Location()] := if vehicles[i].id == 0 then Blue else Red;
        assert markers[..i + 1][..i] == markers[..i];
      }
      assert markers[..|vehicles|] == markers;
    }

    /**
     * One tick: render the current state, then move every vehicle once, in
     * id order.  The frame shows where the vehicles were before they moved.
     */
    method Tick(coins: seq<bool>)
      requires Valid() && |coins| == NumVehicles
      requires forall i :: 0 <= i < NumVehicles ==> 0 <= cloud.Entries()[i].street < NumStreets
      requires AllValid(Positions())
      modifies model, cloud.streets, cloud.addresses, vehicles
      ensures model[..] == Frame(old(cloud.Entries()), old(Positions()))
      ensures State() == TickMoves(old(State()), coins)
    {
      ghost var before := State();
      Render();
      assert State() == before;
      ghost var frame := model[..];
      MoveAll(coins);
      assert model[..] == frame;
    }

    /** The moving pass: every vehicle moves once, in id order, each seeing the commits before it. */
    method MoveAll(coins: seq<bool>)
      requires Valid() && |coins| == NumVehicles
      modifies cloud.streets, cloud.addresses, vehicles
      ensures State() == TickMoves(old(State()), coins)
    {
      ghost var candidates := Candidates(old(State()), coins);
      for i := 0 to |vehicles|
        invariant State() == MoveFirst(old(State()), candidates, i)
      {
        ghost var before := State();
        assert vehicles[i].At() == old(State()).positions[i] == before.positions[i];
        vehicles[i].Move(coins[i]);
        assert Positions() == before.positions[i := vehicles[i].At()];
      }
    }
  }

  /**
   * Start-up followed by any number of ticks, one coin sequence per tick:
   * every tick's preconditions hold, and once the first tick is done the
   * registry agrees with the vehicles, every position is valid and no two
   * vehicles share a pixel.
   */
  method Run(rounds: seq<seq<bool>>) returns (s: Simulation)
    requires forall t :: 0 <= t < |rounds| ==> |rounds[t]| == NumVehicles
    ensures s.Valid()
    ensures |rounds| == 0 ==> s.State() == Initial
    ensures |rounds| > 0 ==> Synced(s.State()) && AllValid(s.State().entries) && Distinct(s.State().entries)
  {
    s := new Simulation();
    for t := 0 to |rounds|
      invariant s.Valid() && fresh(s.cloud.streets) && fresh(s.cloud.addresses) && fresh(s.model)
      invariant forall i :: 0 <= i < |s.vehicles| ==> fresh(s.vehicles[i])
      invariant t == 0 ==> s.State() == Initial
      invariant t > 0 ==> Synced(s.State()) && AllValid(s.State().entries) && Distinct(s.State().entries)
    {
      ghost var before := s.State();
      s.Tick(rounds[t]);
      if t == 0 {
        FirstTick(rounds[t]);
      } else {
        TickKeepsInvariant(before, rounds[t]);
      }
    }
  }
}
