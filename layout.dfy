/**
 * The fixed road layout: eight streets laid out along one 44-pixel LED strip.
 * Streets 0 and 4 are the main roads (addresses 0..9); streets 1, 2, 3 and
 * 5, 6, 7 are the ramps (addresses 0..3).  A (street, address) pair is turned
 * into a pixel index by `PixelOf`, and `PositionAt` is its inverse.
 */
module Layout {

  /** Number of LEDs on the strip. */
  const NumPixels := 44

  /** Number of streets in the layout. */
  const NumStreets := 8

  /** A place on the road: a street and an offset (address) along it. */
  datatype Position = Position(street: int, address: int)

  /** True for the two main through-roads. */
  predicate IsMainRoad(street: int) {
    street == 0 || street == 4
  }

  /** Largest address on a street: 9 on a main road, 3 on every other street. */
  function LastAddress(street: int): int {
    if IsMainRoad(street) then 9 else 3
  }

  /** The address range check the renderer applies to any street number. */
  predicate OnStreet(street: int, address: int) {
    0 <= address <= LastAddress(street)
  }

  /** A position that names a real LED. */
  predicate ValidPosition(p: Position) {
    0 <= p.street < NumStreets && OnStreet(p.street, p.address)
  }

  /** First pixel of each street, in street order: the physical wiring of the strip. */
  const StreetStart: seq<int> := [0, 10, 14, 18, 22, 32, 36, 40]

  /**
   * Pixel index of (street, address).  The arithmetic is total over all
   * integers; only on valid positions does it name an LED.  On a real street
   * the result is the street's first pixel plus the address, so each street
   * occupies a contiguous block of the strip.
   */
  function PixelOf(street: int, address: int): (pixel: int)
    ensures 0 <= street < NumStreets ==> pixel == StreetStart[street] + address
    ensures ValidPosition(Position(street, address)) ==> 0 <= pixel < NumPixels
    ensures street == 0 && 0 <= address <= 9 ==> 0 <= pixel <= 9
    ensures street == 4 && 0 <= address <= 9 ==> 22 <= pixel <= 31
    ensures street == 7 && 0 <= address <= 3 ==> 40 <= pixel <= 43
  {
    var location := address;
    var location := if street > 0 then location + 10 + (street - 1) * 4 else location;
    if street > 4 then location + 10 - 4 else location
  }

  /** Pixel index of a position. */
  function Pixel(p: Position): int {
    PixelOf(p.street, p.address)
  }

  /** The position that owns a pixel: the inverse of `PixelOf` on the strip. */
  function PositionAt(pixel: int): (p: Position)
    requires 0 <= pixel < NumPixels
    ensures ValidPosition(p) && Pixel(p) == pixel
  {
    var street :=
      if pixel < 10 then 0
      else if pixel < 22 then 1 + (pixel - 10) / 4
      else if pixel < 32 then 4
      else 5 + (pixel - 32) / 4;
    Position(street, pixel - StreetStart[street])
  }

  /** Reading a valid position's pixel back gives the position: `PixelOf` is injective. */
  lemma PositionAtPixel(p: Position)
    requires ValidPosition(p)
    ensures PositionAt(Pixel(p)) == p
  {
  }

  /** Two valid positions on the same pixel are the same position. */
  lemma PixelInjective(p: Position, q: Position)
    requires ValidPosition(p) && ValidPosition(q)
    requires Pixel(p) == Pixel(q)
    ensures p == q
  {
    PositionAtPixel(p);
    PositionAtPixel(q);
  }

  /** `PixelOf` maps the valid positions onto 0..43, each pixel hit by exactly one position. */
  lemma PixelBijection(pixel: int)
    requires 0 <= pixel < NumPixels
    ensures exists p :: ValidPosition(p) && Pixel(p) == pixel
    ensures forall p, q :: ValidPosition(p) && ValidPosition(q) && Pixel(p) == pixel && Pixel(q) == pixel ==> p == q
  {
    var owner := PositionAt(pixel);
    assert ValidPosition(owner) && Pixel(owner) == pixel;
    forall p, q | ValidPosition(p) && ValidPosition(q) && Pixel(p) == pixel && Pixel(q) == pixel
      ensures p == q
    {
      PixelInjective(p, q);
    }
  }

  /** The first and last LEDs belong to (0, 0) and (7, 3). */
  lemma StripEnds()
    ensures PixelOf(0, 0) == 0 && PixelOf(7, 3) == NumPixels - 1
    ensures PositionAt(0) == Position(0, 0) && PositionAt(NumPixels - 1) == Position(7, 3)
  {
  }
}
