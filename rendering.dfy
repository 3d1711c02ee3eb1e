/**
 * The frame shown on the strip each tick.  Every pixel starts off; every
 * registered vehicle lights, in yellow, the addresses one behind and one and
 * two ahead of it on its own street and the fixed warning pixels of a nearby
 * intersection; finally each vehicle's own pixel is painted in its marker
 * colour, so a marker always wins over yellow.
 *
 * `Frame` states the finished frame pixel by pixel; `LightStreet` and
 * `LightIntersection` paint one vehicle's lighting into a buffer in place.
 */
module Rendering {
  import opened Layout
  import opened CloudRegistry

  /** The colours the frame uses. */
  datatype Color = Off | Yellow | Blue | Red

  /** Look-ahead offsets: one address behind, one and two ahead. */
  const Lights: seq<int> := [-1, 1, 2]

  /** Offset `n` from `p` stays on `p`'s street and lands on pixel `k`. */
  predicate StreetLight(p: Position, n: int, k: int) {
    OnStreet(p.street, p.address + n) && PixelOf(p.street, p.address + n) == k
  }

  /**
   * Pixel `k` is lit by the look-ahead lighting of a vehicle at `p`.  The
   * lighting never covers the vehicle's own pixel, and for a vehicle on a real
   * street it stays on the strip.
   */
  predicate StreetLit(p: Position, k: int): (lit: bool)
    ensures lit ==> k != Pixel(p)
    ensures lit && 0 <= p.street < NumStreets ==> 0 <= k < NumPixels
  {
    exists j :: 0 <= j < |Lights| && StreetLight(p, Lights[j], k)
  }

  /**
   * The intersection warnings of a vehicle at `p`: approaching a side-street
   * entry on a main road lights that side street's first two pixels; past the
   * middle of a ramp lights the three main-road pixels it merges into.
   */
  function IntersectionPixels(p: Position): (pixels: seq<int>)
    ensures forall i :: 0 <= i < |pixels| ==> 0 <= pixels[i] < NumPixels
  {
    if p.street == 0 then
      (if p.address == 3 || p.address == 4 then [PixelOf(1, 0), PixelOf(1, 1)] else [])
    else if p.street == 4 then
      (if p.address == 0 || p.address == 1 then [PixelOf(2, 0), PixelOf(2, 1)] else []) +
      (if p.address == 6 || p.address == 7 then [PixelOf(3, 0), PixelOf(3, 1)] else [])
    else if p.street == 5 && p.address > 1 then [PixelOf(0, 4), PixelOf(0, 5), PixelOf(0, 6)]
    else if p.street == 6 && p.address > 1 then [PixelOf(4, 1), PixelOf(4, 2), PixelOf(4, 3)]
    else if p.street == 7 && p.address > 1 then [PixelOf(4, 7), PixelOf(4, 8), PixelOf(4, 9)]
    else []
  }

  /**
   * Pixel `k` is lit in yellow because of a vehicle registered at `p`.  A
   * vehicle on a real LED never lights its own pixel.
   */
  predicate LitBy(p: Position, k: int): (lit: bool)
    ensures lit && ValidPosition(p) ==> k != Pixel(p)
  {
    StreetLit(p, k) || k in IntersectionPixels(p)
  }

  /** Pixel `k` is lit in yellow by some registered vehicle. */
  predicate Lit(entries: seq<Position>, k: int) {
    exists i :: 0 <= i < |entries| && LitBy(entries[i], k)
  }

  /** Marker colour of a vehicle: blue for vehicle 0, red for every other. */
  function MarkerColor(id: int): (c: Color)
    ensures c == Blue <==> id == 0
    ensures c != Off && c != Yellow
  {
    if id == 0 then Blue else Red
  }

  /** The last vehicle whose marker is on pixel `k`, or -1 if none is. */
  function LastMarker(markers: seq<Position>, k: int): (m: int)
    ensures -1 <= m < |markers|
    ensures m >= 0 ==> Pixel(markers[m]) == k
    ensures forall j :: m < j < |markers| ==> Pixel(markers[j]) != k
  {
    if |markers| == 0 then -1
    else if Pixel(markers[|markers| - 1]) == k then |markers| - 1
    else LastMarker(markers[..|markers| - 1], k)
  }

  /**
   * The finished frame: lighting is drawn from the registry entries, markers
   * from the vehicles' own positions; on each pixel the last marker drawn
   * wins, then yellow, and every other pixel is off.  A pixel shows a marker
   * colour exactly when some vehicle stands on it.
   */
  function Frame(entries: seq<Position>, markers: seq<Position>): (frame: seq<Color>)
    ensures |frame| == NumPixels
    ensures forall i :: 0 <= i < |markers| && ValidPosition(markers[i]) ==>
      frame[Pixel(markers[i])] == Blue || frame[Pixel(markers[i])] == Red
    ensures forall k :: 0 <= k < NumPixels && (frame[k] == Blue || frame[k] == Red) ==>
      exists i :: 0 <= i < |markers| && Pixel(markers[i]) == k
  {
    seq(NumPixels, k =>
      var m := LastMarker(markers, k);
      if m >= 0 then MarkerColor(m) else if Lit(entries, k) then Yellow else Off)
  }

  /** Lighting from one more registry entry adds exactly that entry's pixels. */
  lemma LitExtend(entries: seq<Position>, i: int)
    requires 0 <= i < |entries|
    ensures forall k :: Lit(entries[..i + 1], k) <==> Lit(entries[..i], k) || LitBy(entries[i], k)
  {
    forall k
      ensures Lit(entries[..i + 1], k) <==> Lit(entries[..i], k) || LitBy(entries[i], k)
    {
      assert entries[..i + 1][i] == entries[i];
      assert forall j :: 0 <= j < i ==> entries[..i + 1][j] == entries[..i][j];
    }
  }

  /** Every lit pixel of a vehicle on a real street is on the strip. */
  lemma LitPixelsOnStrip(p: Position, k: int)
    requires 0 <= p.street < NumStreets && LitBy(p, k)
    ensures 0 <= k < NumPixels
  {
    if StreetLit(p, k) {
      var j :| 0 <= j < |Lights| && StreetLight(p, Lights[j], k);
      assert ValidPosition(Position(p.street, p.address + Lights[j]));
    }
  }

  /**
   * What each pixel of the frame shows: a vehicle's marker where one stands,
   * yellow only where some registered vehicle lights it, and off everywhere
   * else.
   */
  lemma FramePixel(entries: seq<Position>, markers: seq<Position>, k: int)
    requires 0 <= k < NumPixels
    ensures Frame(entries, markers)[k] == Yellow <==> (forall j :: 0 <= j < |markers| ==> Pixel(markers[j]) != k) && Lit(entries, k)
    ensures Frame(entries, markers)[k] == Off <==> (forall j :: 0 <= j < |markers| ==> Pixel(markers[j]) != k) && !Lit(entries, k)
  {
  }

  /** With vehicles on distinct pixels, each vehicle's pixel shows its own marker colour. */
  lemma FrameMarker(entries: seq<Position>, markers: seq<Position>, i: int)
    requires 0 <= i < |markers| && ValidPosition(markers[i]) && Distinct(markers)
    ensures Frame(entries, markers)[Pixel(markers[i])] == MarkerColor(i)
  {
    var k := Pixel(markers[i]);
    var m := LastMarker(markers, k);
    assert m >= i;
    assert m == i;
  }

  /** The look-ahead lighting spelled out offset by offset. */
  lemma StreetLitCases(p: Position, k: int)
    ensures StreetLit(p, k) <==> StreetLight(p, -1, k) || StreetLight(p, 1, k) || StreetLight(p, 2, k)
  {
    assert Lights[0] == -1 && Lights[1] == 1 && Lights[2] == 2;
  }

  /** A vehicle at (0, 0) lights addresses 1 and 2 of street 0 but not address 3. */
  lemma LightingAtStreetStart()
    ensures LitBy(Position(0, 0), PixelOf(0, 1)) && LitBy(Position(0, 0), PixelOf(0, 2))
    ensures !LitBy(Position(0, 0), PixelOf(0, 3))
  {
    StreetLitCases(Position(0, 0), PixelOf(0, 1));
    StreetLitCases(Position(0, 0), PixelOf(0, 2));
    StreetLitCases(Position(0, 0), PixelOf(0, 3));
  }

  /** A vehicle past the middle of street 5 lights addresses 4, 5, 6 of street 0 but not 7. */
  lemma MergeLighting()
    ensures LitBy(Position(5, 2), PixelOf(0, 4)) && LitBy(Position(5, 2), PixelOf(0, 5))
    ensures LitBy(Position(5, 2), PixelOf(0, 6)) && !LitBy(Position(5, 2), PixelOf(0, 7))
  {
    StreetLitCases(Position(5, 2), PixelOf(0, 7));
  }

  /** Paint the look-ahead lighting of a vehicle at (street, address), skipping offsets off its street. */
  method LightStreet(model: array<Color>, street: int, address: int)
    requires model.Length == NumPixels && 0 <= street < NumStreets
    modifies model
    ensures forall k :: 0 <= k < NumPixels ==>
      model[k] == if StreetLit(Position(street, address), k) then Yellow else old(model[k])
  {
    ghost var p := Position(street, address);
    for j := 0 to |Lights|
      invariant forall k :: 0 <= k < NumPixels ==>
        model[k] == if exists i :: 0 <= i < j && StreetLight(p, Lights[i], k) then Yellow else old(model[k])
    {
      var addressN := address + Lights[j];
      // check the light's address is on the street
      if addressN < 0 {
        continue;
      }
      if street == 0 || street == 4 {
        if addressN > 9 {
          continue;
        }
      } else if addressN > 3 {
        continue;
      }
      model[PixelOf(street, addressN)] := Yellow;
    }
  }

  /** Paint the intersection warnings of a vehicle at (street, address). */
  method LightIntersection(model: array<Color>, street: int, address: int)
    requires model.Length == NumPixels
    modifies model
    ensures forall k :: 0 <= k < NumPixels ==>
      model[k] == if k in IntersectionPixels(Position(street, address)) then Yellow else old(model[k])
  {
    if street == 0 {
      if address == 3 || address == 4 {
        model[PixelOf(1, 0)] := Yellow;
        model[PixelOf(1, 1)] := Yellow;
      }
    } else if street == 4 {
      if address == 0 || address == 1 {
        model[PixelOf(2, 0)] := Yellow;
        model[PixelOf(2, 1)] := Yellow;
      }
      if address == 6 || address == 7 {
        model[PixelOf(3, 0)] := Yellow;
        model[PixelOf(3, 1)] := Yellow;
      }
    } else if street == 5 && address > 1 {
      model[PixelOf(0, 4)] := Yellow;
      model[PixelOf(0, 5)] := Yellow;
      model[PixelOf(0, 6)] := Yellow;
    } else if street == 6 && address > 1 {
      model[PixelOf(4, 1)] := Yellow;
      model[PixelOf(4, 2)] := Yellow;
      model[PixelOf(4, 3)] := Yellow;
    } else if street == 7 && address > 1 {
      model[PixelOf(4, 7)] := Yellow;
      model[PixelOf(4, 8)] := Yellow;
      model[PixelOf(4, 9)] := Yellow;
    }
  }
}
