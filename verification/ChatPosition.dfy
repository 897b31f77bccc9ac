/** Where the chat list is anchored on the screen. */
module ChatPosition {
  const VANILLA_X: int := 138
  const VANILLA_Y: int := 52
  const HUD_LEFT: int := 128
  const HUD_TOP: int := 32
  const HUD_BOTTOM: int := 32

  datatype Anchor = Inert | TopLeft | TopCenter | BottomCenter

  /** An offset in pixels, or in percent of the screen's extent. */
  datatype Offset = Offset(value: int, percent: bool)

  datatype Screen = Unknown | Screen(width: int, height: int)

  datatype Place = Unresolved | Place(x: int, y: int)

  function Clamp(v: int, low: int, high: int): (r: int)
    ensures r >= low && (low <= high ==> r <= high)
  {
    if high < low then low else if v < low then low else if v > high then high else v
  }

  /** Division as in C++, towards zero. */
  function Quotient(a: int, b: nat): int
    requires b > 0
  {
    if a >= 0 then a / b else -(-a / b)
  }

  function Pixels(o: Offset, extent: int): int {
    if o.percent then Quotient(o.value * extent, 100) else o.value
  }

  /** Percent of the extent, cut towards zero; an offset in pixels is itself. */
  lemma PixelsAre(o: Offset, extent: nat)
    ensures !o.percent ==> Pixels(o, extent) == o.value
    ensures o.percent && o.value >= 0 ==> 0 <= o.value * extent - 100 * Pixels(o, extent) < 100
    ensures o.percent ==> Pixels(o.(value := -o.value), extent) == -Pixels(o, extent)
    ensures o.percent && o.value == 100 ==> Pixels(o, extent) == extent
  {
    Negated(o.value, extent);
    if o.value >= 0 {
      assert 0 <= o.value * extent;
    } else {
      assert 0 <= -o.value * extent;
    }
  }

  lemma Negated(v: int, extent: nat)
    ensures -v * extent == -(v * extent)
  {
  }

  /** The offset nearest to the one wished for: at most the whole extent, or 4096 pixels, either way. */
  predicate InRange(o: Offset, wish: Offset) {
    var most := if wish.percent then 100 else 4096;
    && o.percent == wish.percent && -most <= o.value <= most
    && (-most <= wish.value <= most ==> o.value == wish.value)
    && (wish.value > most ==> o.value == most) && (wish.value < -most ==> o.value == -most)
  }

  class Position {
    var anchor: Anchor
    var offsetX: Offset
    var offsetY: Offset
    var bottomLines: int
    var growUp: bool
    var patched: bool
    var needsReapply: bool
    var appliedX: int
    var appliedY: int

    /** The applied place never lies under the sidebar or the top bar. */
    predicate Valid()
      reads this
    {
      appliedX >= HUD_LEFT && appliedY >= HUD_TOP
    }

    constructor ()
      ensures Valid() && anchor == Inert && !patched && appliedX == VANILLA_X && appliedY == VANILLA_Y
    {
      anchor, offsetX, offsetY, bottomLines := Inert, Offset(0, false), Offset(0, false), 8;
      growUp, patched, needsReapply := false, false, false;
      appliedX, appliedY := VANILLA_X, VANILLA_Y;
    }

    /** `Install`: configured values are brought into range; an executable with other chat constants
        leaves the module inert. */
    method Install(wanted: Anchor, x: Offset, y: Offset, lines: int, expectedBytes: bool)
      requires Valid()
      modifies this`anchor, this`offsetX, this`offsetY, this`bottomLines
      ensures Valid()
      ensures anchor == if expectedBytes then wanted else Inert
      ensures InRange(offsetX, x) && InRange(offsetY, y)
      ensures 1 <= bottomLines <= 20 && (1 <= lines <= 20 ==> bottomLines == lines)
      ensures (lines < 1 ==> bottomLines == 1) && (lines > 20 ==> bottomLines == 20)
    {
      offsetX := x.(value := Clamp(x.value, if x.percent then -100 else -4096, if x.percent then 100 else 4096));
      offsetY := y.(value := Clamp(y.value, if y.percent then -100 else -4096, if y.percent then 100 else 4096));
      bottomLines := Clamp(lines, 1, 20);
      anchor := if expectedBytes then wanted else Inert;
    }

    /** The configured place on a screen, with the line height the font says, or zero. */
    function Resolve(screen: Screen, lineHeight: nat): (place: Place)
      reads this`anchor, this`offsetX, this`offsetY, this`bottomLines, this`growUp
      ensures place.Unresolved? <==>
        screen.Unknown? || screen.width <= HUD_LEFT || screen.height <= HUD_TOP + HUD_BOTTOM || anchor == Inert
      ensures place.Place? ==> HUD_LEFT <= place.x && HUD_TOP <= place.y
      ensures place.Place? ==> place.x <= if screen.width - 16 < HUD_LEFT then HUD_LEFT else screen.width - 16
      ensures place.Place? && anchor != BottomCenter ==> place.y <= screen.height - 16
      ensures place.Place? && anchor == BottomCenter && place.y > HUD_TOP ==>
        var lh := if lineHeight > 0 then lineHeight else 14;
        place.y <= screen.height - HUD_BOTTOM - lh * if growUp then 1 else bottomLines
    {
      if screen.Unknown? || screen.width <= HUD_LEFT || screen.height <= HUD_TOP + HUD_BOTTOM || anchor == Inert
      then Unresolved
      else
        var lh := if lineHeight > 0 then lineHeight else 14;
        var x := if anchor == TopLeft then VANILLA_X else HUD_LEFT + (screen.width - HUD_LEFT) / 2;
        var y := if anchor != BottomCenter then VANILLA_Y else screen.height - HUD_BOTTOM - lh * if growUp then 1 else bottomLines;
        var maxY := if anchor == BottomCenter then y else screen.height - 16;
        Place(Clamp(x + Pixels(offsetX, screen.width), HUD_LEFT, screen.width - 16),
              Clamp(y + Pixels(offsetY, screen.height), HUD_TOP, maxY))
    }

    /** Where an anchor lies without any offset: at the engine's own place, in the middle between sidebar and right
        edge, or as many lines above the bottom bar as are reserved. */
    function Home(screen: Screen, lineHeight: nat): (home: (int, int))
      requires screen.Screen?
      reads this`anchor, this`bottomLines, this`growUp
    {
      var reserved := (if lineHeight > 0 then lineHeight else 14) * if growUp then 1 else bottomLines;
      match anchor
      case Inert => (138, 52)
      case TopLeft => (138, 52)
      case TopCenter => ((screen.width + 128) / 2, 52)
      case BottomCenter => ((screen.width + 128) / 2, screen.height - 32 - reserved)
    }

    /** On the screen the place moves pixel for pixel with the offsets from there, independently across and down;
        where that would leave the viewport it stops at its edge, and a list at the bottom never moves down. */
    lemma MovesWithOffset(screen: Screen, lineHeight: nat)
      requires Resolve(screen, lineHeight).Place? && screen.width >= 144
      ensures var place, home := Resolve(screen, lineHeight), Home(screen, lineHeight);
        var x := home.0 + Pixels(offsetX, screen.width);
        && (128 <= x <= screen.width - 16 ==> place.x == x)
        && (x < 128 ==> place.x == 128)
        && (x > screen.width - 16 ==> place.x == screen.width - 16)
      ensures var place, home := Resolve(screen, lineHeight), Home(screen, lineHeight);
        var y, lowest := home.1 + Pixels(offsetY, screen.height), if anchor == BottomCenter then home.1 else screen.height - 16;
        && (32 <= y <= lowest ==> place.y == y)
        && (y < 32 || lowest < 32 ==> place.y == 32)
        && (32 <= lowest < y ==> place.y == lowest)
    {
    }

    /** `EnsureApplied`: the place follows the screen once its size is known. */
    method EnsureApplied(screen: Screen, lineHeight: nat)
      requires Valid()
      modifies this`patched, this`needsReapply, this`appliedX, this`appliedY
      ensures Valid()
      ensures var place := Resolve(screen, lineHeight);
        if place.Unresolved? then appliedX == old(appliedX) && appliedY == old(appliedY) && patched == old(patched)
        else appliedX == place.x && appliedY == place.y && patched
    {
      var place := Resolve(screen, lineHeight);
      if place.Unresolved? {
        return;
      }
      if !patched || needsReapply || place.x != appliedX || place.y != appliedY {
        appliedX, appliedY, patched := place.x, place.y, true;
        needsReapply := false;
      }
    }

    method SetGrowUp(up: bool)
      requires Valid()
      modifies this`growUp, this`needsReapply
      ensures Valid() && growUp == up
    {
      if growUp == up {
        return;
      }
      growUp, needsReapply := up, true;
    }

    method Shutdown()
      requires Valid()
      modifies this`patched, this`appliedX, this`appliedY
      ensures Valid() && !patched
      ensures old(patched) ==> appliedX == VANILLA_X && appliedY == VANILLA_Y
    {
      if !patched {
        return;
      }
      appliedX, appliedY, patched := VANILLA_X, VANILLA_Y, false;
    }
  }
}
