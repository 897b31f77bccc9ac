/** The two columns of chat the drawer lays out each frame. */
module ChatColumns {
  import opened Words
  import opened ChatHistory
  import opened ChatPosition

  datatype Kind = Chat | Ping | Unit | Event | Notice | Command | Other

  /** `ChatClassify`. */
  function KindOf(l: Line): Kind {
    var formatted := |l.text| > 0 && l.text[0] == '<';
    match Channel(l)
    case 0 => if formatted then Chat else Other
    case 8 => if formatted then Chat else Notice
    case 1 => if l.alert != 0 then Unit else if l.logo == 10 then Notice else Ping
    case 4 => if formatted then Chat else Event
    case 2 => Command
    case _ => Other
  }

  function Channel(l: Line): nat {
    l.flags % 16
  }

  /** The engine's display mode, and which kinds go to the system column when the columns are split. */
  datatype View = View(mode: int, screenChat: bool, split: bool, systemKinds: set<Kind>)
  {
    /** `ChatLineVisible`. */
    predicate Shows(l: Line) {
      var channel := Channel(l);
      match mode
      case 1 => channel == 2
      case 2 => channel != 8
      case 3 => screenChat || channel == 1 || channel == 4 || channel == 8
      case _ => false
    }

    predicate ToSystem(l: Line) {
      split && KindOf(l) in systemKinds
    }
  }

  /** `screenHeight` is zero when it is unknown; line limits of zero mean none. */
  datatype Config = Config(growUp: bool, playerLines: int, systemLines: int, screenHeight: nat,
                           anchorY: int, systemY: int, h: nat)

  datatype Drawn = Text(line: Line, y: int) | Newer(count: int, y: int)

  /** The visible lines of one column, in order. */
  function Select(s: seq<Line>, v: View, system: bool): (t: seq<Line>)
    ensures |t| <= |s|
    decreases |s|
  {
    if |s| == 0 then []
    else
      var l := s[|s| - 1];
      Select(s[..|s| - 1], v, system) + if v.Shows(l) && v.ToSystem(l) == system then [l] else []
  }

  lemma SelectNext(s: seq<Line>, l: Line, v: View, system: bool)
    ensures Select(s + [l], v, system) == Select(s, v, system) + if v.Shows(l) && v.ToSystem(l) == system then [l] else []
  {
    assert (s + [l])[..|s|] == s;
  }

  lemma {:induction false} SelectFront(l: Line, s: seq<Line>, v: View, system: bool)
    ensures Select([l] + s, v, system) == (if v.Shows(l) && v.ToSystem(l) == system then [l] else []) + Select(s, v, system)
    decreases |s|
  {
    hide View.Shows, View.ToSystem;
    if |s| == 0 {
      SelectNext([], l, v, system);
      assert [l] + s == [] + [l];
    } else {
      var front, last := s[..|s| - 1], s[|s| - 1];
      SelectFront(l, front, v, system);
      SelectNext([l] + front, last, v, system);
      SelectNext(front, last, v, system);
      assert [l] + s == [l] + front + [last] && s == front + [last];
    }
  }

  function Row(y: int, h: nat, i: nat): int {
    y + i * h
  }

  /** Lines one below the other. */
  function Placed(s: seq<Line>, y: int, h: nat): seq<Drawn> {
    seq(|s|, i requires 0 <= i < |s| => Text(s[i], Row(y, h, i)))
  }

  function Limit(n: int, low: int, high: int): int
    requires low <= high
  {
    if n < low then low else if n > high then high else n
  }

  /** How many lines fit a column; at least one is always drawn. */
  function PlayerFit(c: Config): (n: nat)
    requires c.h > 0
    ensures 1 <= n <= RING_SIZE
  {
    if c.screenHeight == 0 then RING_SIZE
    else if c.growUp then Limit(Quotient(c.anchorY - HUD_TOP, c.h) + 1, 1, RING_SIZE)
    else Limit(Quotient(c.screenHeight - HUD_BOTTOM - c.anchorY, c.h), 1, RING_SIZE)
  }

  function SystemFit(c: Config): (n: nat)
    requires c.h > 0
    ensures 1 <= n <= RING_SIZE
  {
    if c.screenHeight == 0 then RING_SIZE
    else Limit(Quotient(c.screenHeight - HUD_BOTTOM - c.systemY, c.h), 1, RING_SIZE)
  }

  function Cap(lines: int): (n: nat)
    ensures n > 0
  {
    if lines > 0 then lines else RING_SIZE
  }

  /** How many of a column's lines are drawn. */
  function Shown(count: nat, cap: nat, fit: nat): (n: nat)
    ensures n <= count && n <= cap && n <= fit
  {
    Min(Min(count, cap), fit)
  }

  /** What the engine hands to a frame; `cellHeight` is zero unless the drawer's own font is in use. */
  datatype Frame = Frame(ring: Ring, oldest: nat, gameTime: int, textLines: int, fontHeight: int, cellHeight: nat,
                         screenHeight: nat, prompt: bool)
  {
    predicate Drawable() {
      textLines > 0 && 0 < fontHeight < 128 && ring.Valid() && oldest < RING_SIZE
    }

    function Window(): seq<Line>
      requires Drawable()
    {
      Span(ring.lines, oldest, ring.free)
    }
  }

  datatype Preferences = Preferences(growUp: bool, playerLines: int, systemLines: int)

  /** The player column is anchored where the chat list is, the system column at the engine's own place if
      the columns are split. */
  function Configured(f: Frame, v: View, p: Preferences, anchorY: int): (c: Config)
    requires f.Drawable()
    ensures c.h > 0
  {
    Config(p.growUp, p.playerLines, p.systemLines, f.screenHeight, anchorY, if v.split then VANILLA_Y else anchorY,
           if f.cellHeight > 0 then f.cellHeight else f.fontHeight)
  }

  /** Where the player column's oldest drawn line goes. */
  function PlayerTop(c: Config, show: nat): int {
    if c.growUp && show > 1 then
      if c.anchorY - (show - 1) * c.h < HUD_TOP then HUD_TOP else c.anchorY - (show - 1) * c.h
    else c.anchorY
  }

  /** The newest lines of a column, as many as are shown. */
  function Column(s: seq<Line>, show: nat, y: int, h: nat): seq<Drawn>
    requires show <= |s|
  {
    Placed(Last(s, show), y, h)
  }

  function PlayerColumn(s: seq<Line>, c: Config): seq<Drawn>
    requires c.h > 0
  {
    var show := Shown(|s|, Cap(c.playerLines), PlayerFit(c));
    Column(s, show, PlayerTop(c, show), c.h)
  }

  function SystemColumn(s: seq<Line>, c: Config): seq<Drawn>
    requires c.h > 0
  {
    Column(s, Shown(|s|, Cap(c.systemLines), SystemFit(c)), c.systemY, c.h)
  }

  lemma RowsFit(a: int, h: nat, n: nat)
    requires h > 0 && n > 0 && n <= Quotient(a, h)
    ensures n * h <= a
  {
    var q := a / h;
    assert a >= 0;
    assert a == q * h + a % h;
    assert n * h <= q * h by {
      assert 0 <= (q - n) * h;
    }
  }

  /** Growing up on a screen of known height, the rows above the anchor fit below the bar. */
  lemma RoomAbove(c: Config, n: nat)
    requires c.h > 0 && c.growUp && c.screenHeight > 0 && 1 < n <= PlayerFit(c)
    ensures (n - 1) * c.h <= c.anchorY - HUD_TOP
    ensures PlayerTop(c, n) == c.anchorY - (n - 1) * c.h
  {
    RowsFit(c.anchorY - HUD_TOP, c.h, n - 1);
  }

  lemma PlacedAt(s: seq<Line>, y: int, h: nat, i: nat)
    requires i < |s|
    ensures Placed(s, y, h)[i] == Text(s[i], Row(y, h, i))
  {
  }

  /** A column that grows up on a screen of known height ends exactly on the anchor. */
  lemma NewestOnAnchor(s: seq<Line>, c: Config)
    requires c.h > 0 && c.growUp && c.screenHeight > 0 && |s| > 0
    ensures var d := PlayerColumn(s, c);
      |d| > 0 && d[|d| - 1] == Text(s[|s| - 1], c.anchorY)
  {
    var show := Shown(|s|, Cap(c.playerLines), PlayerFit(c));
    if show > 1 {
      RoomAbove(c, show);
    }
    hide PlayerTop, PlayerFit, Quotient, Cap;
    PlacedAt(Last(s, show), PlayerTop(c, show), c.h, show - 1);
  }

  /** A column that grows down keeps clear of the bottom bar exactly when its first line does. */
  lemma NoneBelowHud(s: seq<Line>, c: Config)
    requires c.h > 0 && !c.growUp && c.screenHeight > 0 && |s| > 0
    ensures (forall d :: d in PlayerColumn(s, c) ==> d.y + c.h <= c.screenHeight - HUD_BOTTOM)
      <==> c.anchorY + c.h <= c.screenHeight - HUD_BOTTOM
  {
    var show := Shown(|s|, Cap(c.playerLines), PlayerFit(c));
    var column, bottom := PlayerColumn(s, c), c.screenHeight - HUD_BOTTOM;
    PlacedAt(Last(s, show), c.anchorY, c.h, 0);
    assert column[0] in column && column[0].y == c.anchorY;
    if c.anchorY + c.h <= bottom {
      FitsDown(c, show);
      forall i | 0 <= i < |column|
        ensures column[i].y + c.h <= bottom
      {
        PlacedAt(Last(s, show), c.anchorY, c.h, i);
        RowBelow(c.anchorY, c.h, i, show);
      }
    }
  }

  lemma FitsDown(c: Config, n: nat)
    requires c.h > 0 && !c.growUp && c.screenHeight > 0 && 0 < n <= PlayerFit(c)
    requires c.anchorY + c.h <= c.screenHeight - HUD_BOTTOM
    ensures Row(c.anchorY, c.h, n) <= c.screenHeight - HUD_BOTTOM
  {
    var a := c.screenHeight - HUD_BOTTOM - c.anchorY;
    if n > 1 {
      RowsFit(a, c.h, n);
    }
  }

  lemma QuotientIsMost(a: int, h: nat, n: nat)
    requires h > 0 && n >= Quotient(a, h)
    ensures (n + 1) * h > a
  {
    if a >= 0 {
      var q := a / h;
      assert a < (q + 1) * h;
      Product(q + 1, n + 1, h);
    }
  }

  /** A player column that leaves lines out, though neither the limit nor the ring's size demands it, has no room
      for one line more: the row above would cross the top bar, or the row below the bottom bar. */
  lemma PlayerColumnIsFull(s: seq<Line>, c: Config)
    requires c.h > 0 && c.screenHeight > 0
    requires var n := |PlayerColumn(s, c)|; n < |s| && (c.playerLines > 0 ==> n < c.playerLines) && n < RING_SIZE
    ensures var n := |PlayerColumn(s, c)|;
      if c.growUp then c.anchorY - n * c.h < HUD_TOP else Row(c.anchorY, c.h, n + 1) > c.screenHeight - HUD_BOTTOM
  {
    var n := PlayerFit(c);
    if c.growUp {
      QuotientIsMost(c.anchorY - HUD_TOP, c.h, n - 1);
    } else {
      QuotientIsMost(c.screenHeight - HUD_BOTTOM - c.anchorY, c.h, n);
    }
  }

  /** The same of the system column, which always grows down. */
  lemma SystemColumnIsFull(s: seq<Line>, c: Config)
    requires c.h > 0 && c.screenHeight > 0
    requires var n := |SystemColumn(s, c)|; n < |s| && (c.systemLines > 0 ==> n < c.systemLines) && n < RING_SIZE
    ensures Row(c.systemY, c.h, |SystemColumn(s, c)| + 1) > c.screenHeight - HUD_BOTTOM
  {
    QuotientIsMost(c.screenHeight - HUD_BOTTOM - c.systemY, c.h, SystemFit(c));
  }

  /** What a frame's player column holds: the newest lines in order, no more than its limit or the ring's size, the
      first at the anchor unless the column grows up, and each a line height below the one before. */
  lemma PlayerColumnHolds(f: Frame, v: View, p: Preferences, anchorY: int, s: seq<Line>, i: nat)
    requires f.Drawable() && i < |PlayerColumn(s, Configured(f, v, p, anchorY))|
    ensures var d := PlayerColumn(s, Configured(f, v, p, anchorY)); var n := |d|;
      var h := if f.cellHeight > 0 then f.cellHeight else f.fontHeight;
      && n <= |s| && n <= RING_SIZE && (p.playerLines > 0 ==> n <= p.playerLines)
      && d[i].Text? && d[i].line == s[|s| - n + i]
      && (i == 0 && (!p.growUp || n == 1) ==> d[i].y == anchorY)
      && (i > 0 ==> d[i].y == d[i - 1].y + h)
  {
    var c := Configured(f, v, p, anchorY);
    var n := Shown(|s|, Cap(c.playerLines), PlayerFit(c));
    RowNext(PlayerTop(c, n), c.h, if i > 0 then i - 1 else 0);
    hide PlayerFit, Row;
    RowFirst(PlayerTop(c, n), c.h, i);
  }

  /** The same of the system column, which starts at the engine's own place if the columns are split, and at the
      anchor otherwise. */
  lemma SystemColumnHolds(f: Frame, v: View, p: Preferences, anchorY: int, s: seq<Line>, i: nat)
    requires f.Drawable() && i < |SystemColumn(s, Configured(f, v, p, anchorY))|
    ensures var d := SystemColumn(s, Configured(f, v, p, anchorY)); var n := |d|;
      var h := if f.cellHeight > 0 then f.cellHeight else f.fontHeight;
      && n <= |s| && n <= RING_SIZE && (p.systemLines > 0 ==> n <= p.systemLines)
      && d[i].Text? && d[i].line == s[|s| - n + i]
      && (i == 0 ==> d[i].y == if v.split then 52 else anchorY)
      && (i > 0 ==> d[i].y == d[i - 1].y + h)
  {
    var c := Configured(f, v, p, anchorY);
    RowNext(c.systemY, c.h, if i > 0 then i - 1 else 0);
    hide SystemFit, Row;
    RowFirst(c.systemY, c.h, i);
  }

  lemma RowFirst(y: int, h: nat, i: nat)
    ensures i == 0 ==> Row(y, h, i) == y
  {
  }

  lemma RowBelow(y: int, h: nat, i: nat, n: nat)
    requires i < n
    ensures Row(y, h, i) + h <= Row(y, h, n)
  {
    Product(i + 1, n, h);
    assert (i + 1) * h == i * h + h;
  }

  lemma {:induction false} Product(a: nat, b: nat, h: nat)
    requires a <= b
    ensures a * h <= b * h
    decreases b
  {
    if a < b {
      Product(a, b - 1, h);
      assert b * h == (b - 1) * h + h;
    }
  }

  /** The history's lines still held, oldest first. */
  ghost function Retained(h: History): (s: seq<Line>)
    reads h
  {
    if |h.log| <= CAPACITY then h.log else h.log[|h.log| - CAPACITY..]
  }

  /** A scrolled column: show lines ending `offset` before the newest; when scrolled and there is room, the
      last row tells how many newer lines there are instead. */
  function ScrolledColumn(s: seq<Line>, show: nat, offset: nat, y: int, h: nat): (d: seq<Drawn>)
    requires 0 < show && show + offset <= |s|
    ensures |d| == show
  {
    seq(show, i requires 0 <= i < show =>
      if i == show - 1 && offset > 0 && show > 1 then Newer(offset, Row(y, h, i))
      else Text(s[|s| - offset - show + i], Row(y, h, i)))
  }

  /** At the live tail, scrollback draws what an unscrolled column of the same lines would. */
  lemma LiveTail(s: seq<Line>, c: Config)
    requires c.h > 0 && |s| > 0
    ensures var show := Shown(|s|, Cap(c.playerLines), PlayerFit(c));
      show > 0 && ScrolledColumn(s, show, 0, PlayerTop(c, show), c.h) == PlayerColumn(s, c)
  {
  }

  /** Scrolled back by some lines, a column is what it would be if these had not been written yet, but for its last
      row, which tells how many they are, unless it is the only one. */
  lemma ScrolledIsEarlier(s: seq<Line>, show: nat, offset: nat, y: int, h: nat, i: nat)
    requires 0 < show && 0 < offset && show + offset <= |s| && i < show
    ensures var earlier := Column(s[..|s| - offset], show, y, h);
      && |earlier| == show
      && ScrolledColumn(s, show, offset, y, h)[i] == if i < show - 1 || show == 1 then earlier[i] else Newer(offset, earlier[i].y)
  {
    PlacedAt(Last(s[..|s| - offset], show), y, h, i);
    hide Row;
  }

  /** Every visible line goes to exactly one of the columns, and no other line to either. */
  lemma {:induction false} ColumnsPartition(s: seq<Line>, v: View, l: Line)
    ensures multiset(Select(s, v, false))[l] + multiset(Select(s, v, true))[l] == if v.Shows(l) then multiset(s)[l] else 0
    decreases |s|
  {
    hide Select, View.Shows, View.ToSystem;
    if |s| == 0 {
      SelectNone(v);
    } else {
      var front, last := s[..|s| - 1], s[|s| - 1];
      ColumnsPartition(front, v, l);
      SelectNext(front, last, v, false);
      SelectNext(front, last, v, true);
      assert s == front + [last];
      CountNext(front, last, l);
      CountNext(Select(front, v, false), last, l);
      CountNext(Select(front, v, true), last, l);
    }
  }

  lemma CountNext(s: seq<Line>, last: Line, l: Line)
    ensures multiset(s + [last])[l] == multiset(s)[l] + if l == last then 1 else 0
    ensures multiset(s + [])[l] == multiset(s)[l]
  {
    assert s + [] == s;
  }

  /** Which modes show a channel: unit reports and events both full modes, notices the third only, commands the
      first two, players' messages the second; with screen chat on the third shows everything. */
  lemma ModesOf(l: Line, v: View)
    ensures var all := v.mode == 3 && v.screenChat;
      v.Shows(l) == (all ||
        if Channel(l) == 8 then v.mode == 3
        else if Channel(l) == 2 then v.mode == 1 || v.mode == 2
        else v.mode == 2 || (v.mode == 3 && Channel(l) in {1, 4}))
  {
  }

  /** What makes a line one of a kind: anything that looks like a player's message is chat on every channel but
      those of units and commands; pings are neither alerts nor carry the logo of notices. */
  lemma KindsOf(l: Line)
    ensures var typed, channel := |l.text| > 0 && l.text[0] == '<', Channel(l);
      && (KindOf(l) == Chat <==> typed && channel in {0, 4, 8})
      && (KindOf(l) == Unit <==> channel == 1 && l.alert != 0)
      && (KindOf(l) == Ping <==> channel == 1 && l.alert == 0 && l.logo != 10)
      && (KindOf(l) == Notice <==> (channel == 8 && !typed) || (channel == 1 && l.alert == 0 && l.logo == 10))
      && (KindOf(l) == Event <==> channel == 4 && !typed)
      && (KindOf(l) == Command <==> channel == 2)
  {
  }

  class ChatDrawer {
    const history: History
    /** How far the player has scrolled back. */
    var offset: int

    constructor (history: History)
      ensures this.history == history && offset == 0
    {
      this.history, offset := history, 0;
    }

    /** From `free` back to the oldest entry, through the whole ring at most. */
    static method WalkBack(free: nat, oldest: nat) returns (idx: nat)
      requires free < RING_SIZE && oldest < RING_SIZE
      ensures idx == oldest
    {
      idx := free;
      var n := 1;
      while n < RING_SIZE
        invariant 1 <= n <= RING_SIZE && idx < RING_SIZE
        invariant Distance(oldest, idx) <= RING_SIZE - n
      {
        if idx == oldest {
          break;
        }
        idx := if idx == 0 then RING_SIZE - 1 else idx - 1;
        n := n + 1;
      }
    }

    /** The pre-pass. */
    static method CountLines(ring: Ring, idx: nat, v: View) returns (player: nat, system: nat)
      requires ring.Valid() && idx < RING_SIZE
      ensures player == |Select(Span(ring.lines, idx, ring.free), v, false)|
      ensures system == |Select(Span(ring.lines, idx, ring.free), v, true)|
    {
      var j: nat := idx;
      ghost var n, window := 0, Span(ring.lines, idx, ring.free);
      player, system := 0, 0;
      hide Span, Select, View.Shows, View.ToSystem;
      SelectNone(v);
      while j != ring.free
        invariant j < RING_SIZE
        invariant n <= |window| && Span(ring.lines, j, ring.free) == window[n..]
        invariant player == |Select(window[..n], v, false)| && system == |Select(window[..n], v, true)|
        decreases Distance(j, ring.free)
      {
        var l := ring.lines[j];
        SpanStep(ring.lines, window, n, j, ring.free);
        SelectNext(window[..n], l, v, false);
        SelectNext(window[..n], l, v, true);
        if v.Shows(l) {
          if v.ToSystem(l) {
            system := system + 1;
          } else {
            player := player + 1;
          }
        }
        n := n + 1;
        j := Next(j);
      }
      assert window[..n] == window;
    }

    /** One line of a column: trimmed, hidden or drawn. */
    static method DrawLine(ghost s: seq<Line>, l: Line, ghost v: View, ghost system: bool, column: Progress)
      returns (next: Progress)
      requires v.Shows(l) && v.ToSystem(l) == system && column.Tracks(s, v, system)
      ensures next.Tracks(s + [l], v, system) && next.SameSetting(column)
    {
      LiveNext(s, l, v, system, column.skip, column.top, column.h);
      hide Live, Row, Select, View.Shows, View.ToSystem;
      next := column.(seen := column.seen + 1);
      if next.seen > next.skip && !next.hidden {
        next := next.(drawn := next.drawn + [Text(l, next.y)], y := next.y + next.h);
      }
    }

    /** One ring entry, which goes to one of the columns or to none. */
    static method DrawEntry(ghost s: seq<Line>, l: Line, v: View, player: Progress, system: Progress)
      returns (p: Progress, q: Progress)
      requires player.Tracks(s, v, false) && system.Tracks(s, v, true)
      ensures p.Tracks(s + [l], v, false) && p.SameSetting(player)
      ensures q.Tracks(s + [l], v, true) && q.SameSetting(system)
    {
      hide Progress.Tracks;
      p, q := player, system;
      if v.Shows(l) && v.ToSystem(l) {
        TracksOther(p, s, l, v, false);
        q := DrawLine(s, l, v, true, q);
      } else if v.Shows(l) {
        TracksOther(q, s, l, v, true);
        p := DrawLine(s, l, v, false, p);
      } else {
        TracksOther(p, s, l, v, false);
        TracksOther(q, s, l, v, true);
      }
    }

    /** The main loop: each column's lines but the first `skip` are drawn one below the other; while
        scrollback is armed the player column's are not. */
    static method DrawLive(ring: Ring, idx: nat, v: View, playerSkip: nat, systemSkip: nat, armed: bool,
                           playerTop: int, systemTop: int, h: nat)
      returns (player: seq<Drawn>, system: seq<Drawn>)
      requires ring.Valid() && idx < RING_SIZE
      ensures var window := Span(ring.lines, idx, ring.free);
        && player == (if armed then [] else Live(window, v, false, playerSkip, playerTop, h))
        && system == Live(window, v, true, systemSkip, systemTop, h)
    {
      var j: nat := idx;
      ghost var n, window := 0, Span(ring.lines, idx, ring.free);
      var p := Progress(0, playerSkip, armed, playerTop, playerTop, h, []);
      var q := Progress(0, systemSkip, false, systemTop, systemTop, h, []);
      var p0, q0 := p, q;
      TracksNone(p, v, false);
      TracksNone(q, v, true);
      hide Span, Progress.Tracks, View.Shows, View.ToSystem, Distance, Live;
      while j != ring.free
        invariant j < RING_SIZE
        invariant n <= |window| && Span(ring.lines, j, ring.free) == window[n..]
        invariant p.Tracks(window[..n], v, false) && p.SameSetting(p0)
        invariant q.Tracks(window[..n], v, true) && q.SameSetting(q0)
        decreases |window| - n
      {
        var l := ring.lines[j];
        SpanStep(ring.lines, window, n, j, ring.free);
        p, q := DrawEntry(window[..n], l, v, p, q);
        n := n + 1;
        j := Next(j);
      }
      assert window[..n] == window;
      player, system := p.drawn, q.drawn;
      TracksDrawn(p, window, v, false);
      TracksDrawn(q, window, v, true);
    }

    /** The player column's lines in the history, newest first, as indices into its buffer. */
    method PickHistory(v: View) returns (pick: seq<nat>)
      requires history.Valid()
      ensures Picks(history.lines[..], pick, Select(Retained(history), v, false))
    {
      var retained := Min(history.count, CAPACITY);
      pick := [];
      ghost var log, buffer := history.log, history.lines[..];
      PicksNone(buffer, v);
      hide Select, Picks, Tail, View.Shows, View.ToSystem, Retained;
      TailNone(log);
      for k := 0 to retained
        invariant Picks(buffer, pick, Select(Tail(log, k), v, false))
      {
        var si, l := history.Entry(k);
        pick := PickLine(buffer, log, k, si, l, v, pick);
      }
      RetainedIsTail(history);
    }

    static method PickLine(ghost buffer: seq<Line>, ghost log: seq<Line>, ghost k: nat, si: nat, l: Line, v: View, pick: seq<nat>)
      returns (next: seq<nat>)
      requires k < |log| && l == log[|log| - 1 - k] && si < |buffer| && l == buffer[si]
      requires Picks(buffer, pick, Select(Tail(log, k), v, false))
      ensures Picks(buffer, next, Select(Tail(log, k + 1), v, false))
    {
      ghost var s := Tail(log, k);
      TailNext(log, k);
      SelectFront(l, s, v, false);
      PicksFront(buffer, pick, Select(s, v, false), si);
      hide Picks, Select, Tail;
      next := if v.Shows(l) && !v.ToSystem(l) then pick + [si] else pick;
    }

    /** Scrollback: the offset is brought into range, and the window it names drawn oldest first. */
    method DrawHistory(pick: seq<nat>, ghost s: seq<Line>, c: Config) returns (drawn: seq<Drawn>)
      requires Picks(history.lines[..], pick, s) && |pick| > 0 && c.h > 0
      modifies this`offset
      ensures var show := Shown(|s|, Cap(c.playerLines), PlayerFit(c));
        && 0 < show && 0 <= offset <= |s| - show && offset == Limit(old(offset), 0, |s| - show)
        && drawn == ScrolledColumn(s, show, offset, PlayerTop(c, show), c.h)
    {
      var show := Shown(|pick|, Cap(c.playerLines), PlayerFit(c));
      if offset > |pick| - show {
        offset := |pick| - show;
      }
      if offset < 0 {
        offset := 0;
      }
      var indicator := offset > 0 && show > 1;
      var top := PlayerTop(c, show);
      var y := top;
      drawn := [];
      var i: int := show - 1;
      hide PlayerTop, PlayerFit, Cap, Shown;
      while i >= 0
        invariant -1 <= i < show
        invariant offset == Limit(old(offset), 0, |pick| - show)
        invariant |drawn| == show - 1 - i && y == Row(top, c.h, |drawn|)
        invariant drawn == ScrolledColumn(s, show, offset, top, c.h)[..|drawn|]
      {
        ghost var r, all := |drawn|, ScrolledColumn(s, show, offset, top, c.h);
        assert history.lines[..][pick[offset + i]] == s[|s| - 1 - (offset + i)];
        assert |s| - 1 - (offset + i) == |s| - offset - show + r;
        assert all[..r + 1] == all[..r] + [all[r]];
        if i == 0 && indicator {
          drawn := drawn + [Newer(offset, y)];
        } else {
          drawn := drawn + [Text(history.lines[pick[offset + i]], y)];
        }
        RowNext(top, c.h, |drawn| - 1);
        y := y + c.h;
        i := i - 1;
      }
    }

    /** One frame.  The history takes in what the ring gained; each column shows the newest of its visible
        lines, the player column those of the history while the prompt is open; nothing is ever drawn above
        the top bar. */
    method WalkChat(f: Frame, v: View, p: Preferences, position: Position)
      returns (player: seq<Drawn>, system: seq<Drawn>)
      requires history.Valid() && |f.ring.lines| == RING_SIZE && position.Valid()
      modifies this`offset, history, history.lines
      ensures history.Valid()
      ensures !f.Drawable() ==>
        player == [] && system == [] && history.Remembered() == old(history.Remembered()) && offset == old(offset)
      ensures f.Drawable() ==>
        && history.Remembered() == Looked(old(history.Remembered()), f.ring, f.oldest, f.gameTime)
        && Laid(player, system, f.Window(), if f.prompt then Select(Retained(history), v, false) else [], v,
                Configured(f, v, p, position.appliedY), old(offset), offset)
      ensures forall d :: d in player || d in system ==> d.y >= HUD_TOP
    {
      if !f.Drawable() {
        return [], [];
      }
      var idx := WalkBack(f.ring.free, f.oldest);
      history.Consume(f.ring, idx, f.gameTime);
      var c := Configured(f, v, p, position.appliedY);
      ghost var before := offset;
      player, system := DrawFrame(f.ring, idx, v, c, f.prompt);
      LaidBelowBar(player, system, f.Window(), if f.prompt then Select(Retained(history), v, false) else [], v, c, before, offset);
    }

    method DrawFrame(ring: Ring, idx: nat, v: View, c: Config, prompt: bool)
      returns (player: seq<Drawn>, system: seq<Drawn>)
      requires history.Valid() && ring.Valid() && idx < RING_SIZE && c.h > 0
      modifies this`offset
      ensures Laid(player, system, Span(ring.lines, idx, ring.free),
                   if prompt then Select(Retained(history), v, false) else [], v, c, old(offset), offset)
    {
      var pick := [];
      ghost var s := [];
      if prompt {
        pick := PickHistory(v);
        s := Select(Retained(history), v, false);
      } else {
        PicksNone(history.lines[..], v);
      }
      hide Picks, Laid, Select, Span;
      player, system := DrawColumns(ring, idx, v, c, pick, s);
    }

    /** Counting, trimming and drawing; scrollback is armed when history lines were picked. */
    method DrawColumns(ring: Ring, idx: nat, v: View, c: Config, pick: seq<nat>, ghost s: seq<Line>)
      returns (player: seq<Drawn>, system: seq<Drawn>)
      requires Picks(history.lines[..], pick, s) && ring.Valid() && idx < RING_SIZE && c.h > 0
      modifies this`offset
      ensures Laid(player, system, Span(ring.lines, idx, ring.free), s, v, c, old(offset), offset)
    {
      assert |pick| == |s|;
      hide Laid, Picks, Column, ScrolledColumn, Span, Select, Live, Limit, PlayerTop, PlayerFit, SystemFit, Cap, Shown, Quotient, Min;
      var armed := |pick| > 0;
      if !armed {
        offset := 0;
      }
      var playerCount, systemCount := CountLines(ring, idx, v);
      ghost var window := Span(ring.lines, idx, ring.free);
      if armed {
        playerCount := |pick|;
      }
      var playerShow := Shown(playerCount, Cap(c.playerLines), PlayerFit(c));
      var systemShow := Shown(systemCount, Cap(c.systemLines), SystemFit(c));
      player, system := DrawLive(ring, idx, v, playerCount - playerShow, systemCount - systemShow, armed,
                                 PlayerTop(c, playerShow), c.systemY, c.h);
      LiveIsColumn(window, v, true, systemShow, c.systemY, c.h);
      if armed {
        player := DrawHistory(pick, s, c);
        LaidScrolled(player, system, window, s, v, c, old(offset), offset);
      } else {
        LiveIsColumn(window, v, false, playerShow, PlayerTop(c, playerShow), c.h);
        LaidLive(player, system, window, s, v, c, old(offset));
      }
    }
  }

  /** What a frame draws, from the ring's lines, the history's player lines if the prompt is open, and the
      scroll offset before and after. */
  predicate Laid(player: seq<Drawn>, system: seq<Drawn>, window: seq<Line>, s: seq<Line>, v: View, c: Config,
                 before: int, after: int)
    requires c.h > 0
  {
    && system == SystemColumn(Select(window, v, true), c)
    && if |s| == 0 then after == 0 && player == PlayerColumn(Select(window, v, false), c)
       else
         var show := Shown(|s|, Cap(c.playerLines), PlayerFit(c));
         && 0 <= after && after == Limit(before, 0, |s| - show)
         && player == ScrolledColumn(s, show, after, PlayerTop(c, show), c.h)
  }

  lemma LaidLive(player: seq<Drawn>, system: seq<Drawn>, window: seq<Line>, s: seq<Line>, v: View, c: Config, before: int)
    requires c.h > 0 && |s| == 0
    requires system == Column(Select(window, v, true), Shown(|Select(window, v, true)|, Cap(c.systemLines), SystemFit(c)), c.systemY, c.h)
    requires var lines := Select(window, v, false); var show := Shown(|lines|, Cap(c.playerLines), PlayerFit(c));
      player == Column(lines, show, PlayerTop(c, show), c.h)
    ensures Laid(player, system, window, s, v, c, before, 0)
  {
  }

  lemma LaidScrolled(player: seq<Drawn>, system: seq<Drawn>, window: seq<Line>, s: seq<Line>, v: View, c: Config, before: int, after: int)
    requires c.h > 0 && |s| > 0
    requires system == Column(Select(window, v, true), Shown(|Select(window, v, true)|, Cap(c.systemLines), SystemFit(c)), c.systemY, c.h)
    requires var show := Shown(|s|, Cap(c.playerLines), PlayerFit(c));
      && 0 < show && 0 <= after <= |s| - show && after == Limit(before, 0, |s| - show)
      && player == ScrolledColumn(s, show, after, PlayerTop(c, show), c.h)
    ensures Laid(player, system, window, s, v, c, before, after)
  {
  }

  /** Whatever is drawn from anchors below the top bar stays below it. */
  lemma LaidBelowBar(player: seq<Drawn>, system: seq<Drawn>, window: seq<Line>, s: seq<Line>, v: View, c: Config,
                     before: int, after: int)
    requires c.h > 0 && c.anchorY >= HUD_TOP && c.systemY >= HUD_TOP
    requires Laid(player, system, window, s, v, c, before, after)
    ensures forall d :: d in player || d in system ==> d.y >= HUD_TOP
  {
    hide Select, PlayerFit, SystemFit, Cap, Shown, Limit;
    forall i | 0 <= i < |system| ensures system[i].y >= HUD_TOP {
      RowBelowTop(c.systemY, c.h, i);
    }
    forall i | 0 <= i < |player| ensures player[i].y >= HUD_TOP {
      var count := if |s| == 0 then |Select(window, v, false)| else |s|;
      var show := Shown(count, Cap(c.playerLines), PlayerFit(c));
      RowBelowTop(PlayerTop(c, show), c.h, i);
    }
  }

  lemma RowBelowTop(y: int, h: nat, i: nat)
    ensures Row(y, h, i) >= y
  {
  }

  lemma LiveIsColumn(window: seq<Line>, v: View, system: bool, show: nat, y: int, h: nat)
    requires show <= |Select(window, v, system)|
    ensures Live(window, v, system, |Select(window, v, system)| - show, y, h) == Column(Select(window, v, system), show, y, h)
  {
    hide Select, Placed;
    var t := Select(window, v, system);
    assert Rest(t, |t| - show) == Last(t, show);
  }

  lemma RowNext(y: int, h: nat, n: nat)
    ensures Row(y, h, n) + h == Row(y, h, n + 1)
  {
  }

  /** Indices into a buffer that name a sequence's lines, last line first. */
  predicate Picks(buffer: seq<Line>, pick: seq<nat>, s: seq<Line>) {
    && |pick| == |s|
    && forall i :: 0 <= i < |s| ==> pick[i] < |buffer| && buffer[pick[i]] == s[|s| - 1 - i]
  }

  /** The last k lines. */
  function Tail(s: seq<Line>, k: nat): seq<Line>
    requires k <= |s|
  {
    s[|s| - k..]
  }

  lemma TailNone(s: seq<Line>)
    ensures Tail(s, 0) == []
  {
  }

  lemma RetainedIsTail(h: History)
    requires h.Valid()
    ensures Tail(h.log, Min(h.count, CAPACITY)) == Retained(h)
  {
  }

  lemma TailNext(s: seq<Line>, k: nat)
    requires k < |s|
    ensures Tail(s, k + 1) == [s[|s| - 1 - k]] + Tail(s, k)
  {
  }

  lemma PicksNone(buffer: seq<Line>, v: View)
    ensures Picks(buffer, [], Select([], v, false)) && Picks(buffer, [], [])
  {
  }

  lemma PicksFront(buffer: seq<Line>, pick: seq<nat>, s: seq<Line>, i: nat)
    requires Picks(buffer, pick, s) && i < |buffer|
    ensures Picks(buffer, pick + [i], [buffer[i]] + s) && Picks(buffer, pick, [] + s)
  {
    assert [] + s == s;
  }

  /** One column in the course of the main loop: lines seen, how many of them to trim, and where the next
      goes. */
  datatype Progress = Progress(seen: nat, skip: nat, hidden: bool, top: int, y: int, h: nat, drawn: seq<Drawn>)
  {
    predicate Tracks(s: seq<Line>, v: View, system: bool) {
      && seen == |Select(s, v, system)|
      && drawn == (if hidden then [] else Live(s, v, system, skip, top, h))
      && y == Row(top, h, |drawn|)
    }

    predicate SameSetting(p: Progress) {
      skip == p.skip && hidden == p.hidden && top == p.top && h == p.h
    }
  }

  lemma TracksNone(p: Progress, v: View, system: bool)
    requires p.seen == 0 && p.y == p.top && p.drawn == []
    ensures p.Tracks([], v, system)
  {
  }

  lemma TracksOther(p: Progress, s: seq<Line>, l: Line, v: View, system: bool)
    requires p.Tracks(s, v, system) && !(v.Shows(l) && v.ToSystem(l) == system)
    ensures p.Tracks(s + [l], v, system)
  {
    LiveNext(s, l, v, system, p.skip, p.top, p.h);
  }

  lemma TracksDrawn(p: Progress, s: seq<Line>, v: View, system: bool)
    requires p.Tracks(s, v, system)
    ensures p.drawn == if p.hidden then [] else Live(s, v, system, p.skip, p.top, p.h)
  {
  }

  lemma SpanStep(lines: seq<Line>, window: seq<Line>, n: nat, j: nat, free: nat)
    requires |lines| == RING_SIZE && j < RING_SIZE && free < RING_SIZE && j != free
    requires n <= |window| && Span(lines, j, free) == window[n..]
    ensures n < |window| && window[n] == lines[j] && Span(lines, Next(j), free) == window[n + 1..]
    ensures window[..n + 1] == window[..n] + [lines[j]]
  {
    assert window[n..][1..] == window[n + 1..];
  }

  lemma SelectNone(v: View)
    ensures forall system :: Select([], v, system) == []
  {
  }

  /** A column of what is left after skipping lines. */
  function Live(s: seq<Line>, v: View, system: bool, skip: nat, y: int, h: nat): seq<Drawn> {
    Placed(Rest(Select(s, v, system), skip), y, h)
  }

  lemma LiveNext(s: seq<Line>, l: Line, v: View, system: bool, skip: nat, y: int, h: nat)
    ensures var before, after := Live(s, v, system, skip, y, h), Live(s + [l], v, system, skip, y, h);
      && after == (if v.Shows(l) && v.ToSystem(l) == system && |Select(s, v, system)| >= skip
                   then before + [Text(l, Row(y, h, |before|))] else before)
      && Row(y, h, |before|) + h == Row(y, h, |before| + 1)
    ensures |Select(s + [l], v, system)| == |Select(s, v, system)| + if v.Shows(l) && v.ToSystem(l) == system then 1 else 0
  {
    SelectNext(s, l, v, system);
    PlacedNext(Select(s, v, system), l, skip, y, h);
  }

  /** All but the first n. */
  function Rest<T>(s: seq<T>, n: nat): seq<T> {
    if n <= |s| then s[n..] else []
  }

  lemma PlacedNext(s: seq<Line>, l: Line, skip: nat, y: int, h: nat)
    ensures var before, after := Placed(Rest(s, skip), y, h), Placed(Rest(s + [l], skip), y, h);
      && after == (if |s| >= skip then before + [Text(l, Row(y, h, |before|))] else before)
      && Row(y, h, |before|) + h == Row(y, h, |before| + 1)
  {
  }
}
