/**
 * One step of a vehicle: an optional turn onto a side street at a branch
 * point, a fixed u-turn or merge at the last pixel of every street, a forward
 * step, and then a commit to the registry or, when another vehicle is
 * registered on the candidate pixel, a rollback.
 *
 * `Proposal` is the candidate position exactly as the step computes it, for
 * any integers; `NextPosition` is the road network's own transition table
 * over valid positions, and `ProposalFollowsTable` shows the two agree there.
 */
module Movement {
  import opened Layout
  import opened CloudRegistry

  datatype Option<T> = None | Some(value: T)

  /** Every vehicle drives forward, one address per step. */
  const Direction := 1

  /**
   * The side-street turn, taken only when the coin is true: street 0 at
   * address 4 enters street 1, street 4 at address 1 enters street 2 and
   * street 4 at address 7 enters street 3, each just before its first address.
   */
  function Divert(p: Position, coin: bool): (turned: Position)
    ensures turned != p <==> coin && BranchTarget(p).Some?
    ensures turned != p ==> turned == Position(BranchTarget(p).value, -1)
  {
    if p.street == 0 && coin && p.address == 4 then Position(1, -1)
    else if p.street == 4 && coin && p.address == 1 then Position(2, -1)
    else if p.street == 4 && coin && p.address == 7 then Position(3, -1)
    else p
  }

  /**
   * The u-turn and merge table, keyed by the pixel the vehicle starts the step
   * on: the last pixel of each street leads to the position just before the
   * next one.  Every key is on the strip, and the step forward from every
   * target lands on a real LED.
   */
  function UTurn(pixel: int): (turn: Option<Position>)
    ensures turn.Some? ==> 0 <= pixel < NumPixels && ValidPosition(Position(turn.value.street, turn.value.address + Direction))
  {
    match pixel
    case 9 => Some(Position(4, -1))
    case 13 => Some(Position(5, -1))
    case 17 => Some(Position(6, -1))
    case 21 => Some(Position(7, -1))
    case 31 => Some(Position(0, -1))
    case 35 => Some(Position(0, 4))
    case 39 => Some(Position(4, 1))
    case 43 => Some(Position(4, 7))
    case _ => None
  }

  /**
   * Candidate position of one step from `from`: the u-turn of the starting
   * pixel overrides any turn, then the vehicle advances by `Direction`.  The
   * candidate is never the starting position, whatever the integers; from a
   * valid position it is either one address further on the same street or on
   * another street.
   */
  function Proposal(from: Position, coin: bool): (next: Position)
    ensures next != from
    ensures ValidPosition(from) ==> (next.street == from.street <==> next.address == from.address + 1)
  {
    var turned := match UTurn(Pixel(from)) case Some(q) => q case None => Divert(from, coin);
    Position(turned.street, turned.address + Direction)
  }

  /** The side street reachable from a branch point, if `p` is one. */
  function BranchTarget(p: Position): Option<int> {
    if p == Position(0, 4) then Some(1)
    else if p == Position(4, 1) then Some(2)
    else if p == Position(4, 7) then Some(3)
    else None
  }

  /** Where each street continues after its last address. */
  function Rejoin(street: int): (p: Position)
    requires 0 <= street < NumStreets
    ensures ValidPosition(p) && p.street != street
  {
    [Position(4, 0), Position(5, 0), Position(6, 0), Position(7, 0),
     Position(0, 0), Position(0, 5), Position(4, 2), Position(4, 8)][street]
  }

  /**
   * The road network's transition table: from the last address of a street
   * continue at `Rejoin`; from a branch point with the coin true enter the
   * side street at its first address; otherwise advance one address.
   */
  function NextPosition(p: Position, coin: bool): (next: Position)
    requires ValidPosition(p)
    ensures ValidPosition(next) && Pixel(next) != Pixel(p)
  {
    if p.address == LastAddress(p.street) then Rejoin(p.street)
    else if coin && BranchTarget(p).Some? then Position(BranchTarget(p).value, 0)
    else Position(p.street, p.address + 1)
  }

  /** A branch point is never the last pixel of its street, so a turn and a u-turn never meet. */
  lemma BranchIsNotRoadEnd(p: Position)
    requires BranchTarget(p).Some?
    ensures UTurn(Pixel(p)).None? && p.address != LastAddress(p.street)
  {
  }

  /** On a valid position the last pixel of a street is exactly its last address. */
  lemma UTurnAtRoadEnd(p: Position)
    requires ValidPosition(p)
    ensures UTurn(Pixel(p)).Some? <==> p.address == LastAddress(p.street)
  {
  }

  /** On valid positions the step computes the network's transition table. */
  lemma ProposalFollowsTable(p: Position, coin: bool)
    requires ValidPosition(p)
    ensures Proposal(p, coin) == NextPosition(p, coin)
  {
    UTurnAtRoadEnd(p);
    if BranchTarget(p).Some? {
      BranchIsNotRoadEnd(p);
    }
  }

  /** A step from a valid position always proposes a valid position. */
  lemma ProposalIsValid(p: Position, coin: bool)
    requires ValidPosition(p)
    ensures ValidPosition(Proposal(p, coin))
  {
    ProposalFollowsTable(p, coin);
  }

  /** The forward step composes with the u-turn: (0, 8) goes to (0, 9) and then to (4, 0). */
  lemma ForwardThenUTurn(coin1: bool, coin2: bool)
    ensures Proposal(Position(0, 8), coin1) == Position(0, 9)
    ensures Proposal(Proposal(Position(0, 8), coin1), coin2) == Position(4, 0)
  {
  }

  /** Registry and vehicle position after one move. */
  datatype Outcome = Outcome(entries: seq<Position>, position: Position)

  /**
   * The committing half of a move: `candidate` becomes both the vehicle's
   * position and its registry entry when no other vehicle is registered on its
   * pixel; otherwise the vehicle stays at `from` and the registry is unchanged.
   */
  function Commit(entries: seq<Position>, id: int, from: Position, candidate: Position): Outcome
    requires 0 <= id < |entries|
  {
    if FreeIn(entries, id, Pixel(candidate)) then Outcome(entries[id := candidate], candidate) else Outcome(entries, from)
  }

  /**
   * One move on the abstract state: propose a candidate, then commit it to the
   * registry if no other vehicle is registered on its pixel, or roll back.
   */
  function MoveOutcome(entries: seq<Position>, id: int, from: Position, coin: bool): (r: Outcome)
    requires 0 <= id < |entries|
    ensures r == Outcome(entries, from) || (r.position == Proposal(from, coin) && r.entries == entries[id := r.position])
    ensures r == Outcome(entries, from) <==> !FreeIn(entries, id, Pixel(Proposal(from, coin)))
  {
    Commit(entries, id, from, Proposal(from, coin))
  }

  /** A committed move never lands on a pixel registered to another vehicle. */
  lemma MoveNeverCollides(entries: seq<Position>, id: int, from: Position, coin: bool)
    requires 0 <= id < |entries|
    ensures var r := MoveOutcome(entries, id, from, coin);
      forall j :: 0 <= j < |entries| && j != id ==> r.entries[j] == entries[j] && (r.position != from ==> Pixel(r.entries[j]) != Pixel(r.position))
  {
  }

  /** A move keeps the registered pixels pairwise distinct. */
  lemma MoveKeepsDistinct(entries: seq<Position>, id: int, from: Position, coin: bool)
    requires 0 <= id < |entries| && Distinct(entries)
    ensures Distinct(MoveOutcome(entries, id, from, coin).entries)
  {
    var candidate := Proposal(from, coin);
    if FreeIn(entries, id, Pixel(candidate)) {
      CommitKeepsDistinct(entries, id, candidate);
    }
  }

  /** A move from a valid position, against a valid registry, keeps both valid. */
  lemma MoveKeepsValid(entries: seq<Position>, id: int, from: Position, coin: bool)
    requires 0 <= id < |entries| && AllValid(entries) && ValidPosition(from)
    ensures var r := MoveOutcome(entries, id, from, coin); AllValid(r.entries) && ValidPosition(r.position)
  {
    ProposalIsValid(from, coin);
  }

  /** A vehicle: its id, the registry it reports to, and its working position. */
  class Vehicle {
    const id: nat
    const cloud: Cloud
    var street: int
    var address: int

    /** The registry is well formed and has an entry for this vehicle. */
    predicate Valid() {
      cloud.Valid() && id < NumVehicles
    }

    constructor (id: nat, cloud: Cloud, street: int, address: int)
      ensures this.id == id && this.cloud == cloud
      ensures this.street == street && this.address == address
    {
      this.id := id;
      this.cloud := cloud;
      this.street := street;
      this.address := address;
    }

    /** The vehicle's own working position. */
    function At(): Position
      reads this
    {
      Position(street, address)
    }

    /** Pixel of the vehicle's own position; on a valid position it identifies the position. */
    function Location(): (pixel: int)
      reads this
      ensures ValidPosition(At()) ==> 0 <= pixel < NumPixels && PositionAt(pixel) == At()
    {
      PixelOf(street, address)
    }

    /**
     * The proposing half of a step: take the side street if the coin says so,
     * u-turn if the starting pixel ends its street, and advance.
     */
    method Propose(coin: bool)
      modifies this
      ensures At() == Proposal(old(At()), coin)
    {
      var location := PixelOf(street, address);

      // turn down side streets
      if street == 0 && coin {
        if address == 4 {
          street, address := 1, -1;
        }
      }
      if street == 4 && coin {
        if address == 1 {
          street, address := 2, -1;
        } else if address == 7 {
          street, address := 3, -1;
        }
      }
      assert At() == Divert(old(At()), coin);

      // u-turn at the end of each road
      match location {
        case 9 => street, address := 4, -1;
        case 13 => street, address := 5, -1;
        case 17 => street, address := 6, -1;
        case 21 => street, address := 7, -1;
        case 31 => street, address := 0, -1;
        case 35 => street, address := 0, 4;
        case 39 => street, address := 4, 1;
        case 43 => street, address := 4, 7;
        case _ =>
      }

      address := address + Direction;
    }

    /**
     * One step: save the position, propose the next one, and then commit it to
     * the registry if its pixel is free or restore the saved position.
     */
    method Move(coin: bool)
      requires Valid()
      modifies this, cloud.streets, cloud.addresses
      ensures Outcome(cloud.Entries(), At()) == MoveOutcome(old(cloud.Entries()), id, old(At()), coin)
    {
      var origStreet, origAddress := street, address;
      Propose(coin);

      // commit only onto a free pixel
      var newLocation := PixelOf(street, address);
      var free := cloud.IsFree(id, newLocation);
      if !free {
        street, address := origStreet, origAddress;
      } else {
        cloud.Update(id, street, address);
      }
    }
  }
}
