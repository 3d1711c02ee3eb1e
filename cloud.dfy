/**
 * The position registry ("cloud"): for every vehicle id, the last position that
 * vehicle committed.  Vehicles consult it before moving so that no two of them
 * are committed to the same pixel; the renderer reads it to draw look-ahead
 * lighting.
 */
module CloudRegistry {
  import opened Layout

  /** Number of vehicles in the reference configuration. */
  const NumVehicles := 2

  /** No vehicle other than `id` is registered on `pixel`. */
  predicate FreeIn(entries: seq<Position>, id: int, pixel: int) {
    forall j :: 0 <= j < |entries| && j != id ==> Pixel(entries[j]) != pixel
  }

  /** No two registered vehicles share a pixel. */
  predicate Distinct(entries: seq<Position>) {
    forall i, j :: 0 <= i < |entries| && 0 <= j < |entries| && i != j ==> Pixel(entries[i]) != Pixel(entries[j])
  }

  /** Every registered position names a real LED. */
  predicate AllValid(entries: seq<Position>) {
    forall i :: 0 <= i < |entries| ==> ValidPosition(entries[i])
  }

  /** A vehicle's own entry never blocks it: only the other entries are consulted. */
  lemma OwnEntryNeverBlocks(entries: seq<Position>, id: int, pixel: int, p: Position)
    requires 0 <= id < |entries|
    ensures FreeIn(entries, id, pixel) == FreeIn(entries[id := p], id, pixel)
  {
    forall j | 0 <= j < |entries| && j != id
      ensures entries[id := p][j] == entries[j]
    {
    }
  }

  /** An occupied pixel is never free for anybody but its occupant. */
  lemma OccupiedIsNotFree(entries: seq<Position>, id: int, other: int)
    requires 0 <= other < |entries| && other != id
    ensures !FreeIn(entries, id, Pixel(entries[other]))
  {
  }

  /**
   * Committing a position to a pixel that was free keeps the registry
   * collision-free: the new entry differs from every other entry, and the
   * other entries are untouched.
   */
  lemma CommitKeepsDistinct(entries: seq<Position>, id: int, p: Position)
    requires 0 <= id < |entries|
    requires Distinct(entries) && FreeIn(entries, id, Pixel(p))
    ensures Distinct(entries[id := p])
  {
    var after := entries[id := p];
    forall i, j | 0 <= i < |after| && 0 <= j < |after| && i != j
      ensures Pixel(after[i]) != Pixel(after[j])
    {
    }
  }

  /**
   * The registry: two parallel arrays indexed by vehicle id.  A zero-filled
   * registry places every id at street 0, address 0.
   */
  class Cloud {
    const streets: array<int>
    const addresses: array<int>

    /** Both arrays have one slot per vehicle and are distinct objects. */
    predicate Valid() {
      streets.Length == NumVehicles && addresses.Length == NumVehicles && streets != addresses
    }

    /** The registry's abstract value: the committed position of each id. */
    ghost function Entries(): (entries: seq<Position>)
      reads streets, addresses
      requires Valid()
      ensures |entries| == NumVehicles
    {
      seq(NumVehicles, i requires 0 <= i < NumVehicles reads streets, addresses => Position(streets[i], addresses[i]))
    }

    /** A zero-initialised registry: every id registered at (0, 0). */
    constructor ()
      ensures Valid() && fresh(streets) && fresh(addresses)
      ensures Entries() == [Position(0, 0), Position(0, 0)]
    {
      streets := new int[NumVehicles](_ => 0);
      addresses := new int[NumVehicles](_ => 0);
    }

    /** Overwrite the entry of `id`; no validation is done here. */
    method Update(id: int, street: int, address: int)
      requires Valid() && 0 <= id < NumVehicles
      modifies streets, addresses
      ensures Entries() == old(Entries())[id := Position(street, address)]
      ensures Street(id) == street && Address(id) == address
      ensures LocationOf(id) == PixelOf(street, address)
    {
      streets[id] := street;
      addresses[id] := address;
    }

    /** Committed pixel of `id`; on a valid entry it identifies the entry. */
    function LocationOf(id: int): (pixel: int)
      reads streets, addresses
      requires Valid() && 0 <= id < NumVehicles
      ensures ValidPosition(Entries()[id]) ==> 0 <= pixel < NumPixels && PositionAt(pixel) == Entries()[id]
    {
      PixelOf(streets[id], addresses[id])
    }

    /** Committed street of `id`. */
    function Street(id: int): (street: int)
      reads streets, addresses
      requires Valid() && 0 <= id < NumVehicles
      ensures street == Entries()[id].street
    {
      streets[id]
    }

    /** Committed address of `id`. */
    function Address(id: int): (address: int)
      reads streets, addresses
      requires Valid() && 0 <= id < NumVehicles
      ensures address == Entries()[id].address
    {
      addresses[id]
    }

    /**
     * Whether `pixel` is free for `id`: scans every other id, stopping at the
     * first one registered on that pixel.
     */
    method IsFree(id: int, pixel: int) returns (free: bool)
      requires Valid()
      ensures free == FreeIn(Entries(), id, pixel)
    {
      var i := 0;
      while i < NumVehicles
        invariant 0 <= i <= NumVehicles
        invariant FreeIn(Entries()[..i], id, pixel)
      {
        if i != id {
          if LocationOf(i) == pixel {
            assert !FreeIn(Entries(), id, pixel) by {
              OccupiedIsNotFree(Entries(), id, i);
            }
            return false;
          }
        }
        i := i + 1;
      }
      assert Entries()[..i] == Entries();
      return true;
    }
  }
}
