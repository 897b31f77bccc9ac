/** Wrapping a message into HUD lines. */
module ChatWrap {
  import opened Words

  const LINE: nat := 63
  const MAX_LINES: nat := 8
  const MESSAGE: nat := 191

  /** Drop leading spaces. */
  function Skip(text: string): (rest: string)
    ensures |rest| <= |text|
    ensures rest != "" ==> rest[0] != ' '
  {
    if |text| > 0 && text[0] == ' ' then Skip(text[1..]) else text
  }

  lemma {:induction false} SkipDropsSpaces(text: string)
    ensures var n := |text| - |Skip(text)|;
      Skip(text) == text[n..] && forall i :: 0 <= i < n ==> text[i] == ' '
  {
    if text != "" && text[0] == ' ' {
      SkipDropsSpaces(text[1..]);
    }
  }

  /** The position of the last space, or zero. */
  function LastSpace(s: string): (cut: nat)
    requires s != ""
    ensures cut < |s|
    ensures cut > 0 ==> s[cut] == ' '
    ensures forall k :: cut < k < |s| ==> s[k] != ' '
  {
    var i := |s| - 1;
    if i == 0 || s[i] == ' ' then i else LastSpace(s[..i])
  }

  /** How much of the text the next line takes. */
  function Take(text: string): (n: nat)
    requires text != "" && text[0] != ' '
    ensures 0 < n <= LINE && n <= |text|
  {
    if |text| <= LINE then |text|
    else
      var cut := LastSpace(text[..LINE + 1]);
      if cut > 0 then cut else LINE
  }

  /** All the lines of a text, without a limit on their number. */
  function Lines(text: string): seq<string>
    decreases |text|
  {
    var p := Skip(text);
    if |p| == 0 then [] else [p[..Take(p)]] + Lines(p[Take(p)..])
  }

  /** `WrapChat`: the first `maxLines` of the lines. */
  method WrapChat(text: string, maxLines: nat) returns (lines: seq<string>)
    ensures lines == Lines(text)[..Min(maxLines, |Lines(text)|)]
  {
    hide Skip, Take, Lines;
    lines := [];
    var p := SkipSpaces(text);
    LinesSkip(text);
    ghost var all := Lines(text);
    while p != "" && |lines| < maxLines
      invariant p == "" || p[0] != ' '
      invariant lines + Lines(p) == all
      invariant |lines| <= maxLines
      decreases |p|
    {
      var len := LineLength(p);
      LinesStep(p);
      lines := lines + [p[..len]];
      p := SkipSpaces(p[len..]);
    }
    NoLines();
    assert all[..|lines|] == lines;
  }

  /** Cut a long text at its last space that leaves a full line, or inside a word if there is none. */
  method LineLength(p: string) returns (len: nat)
    requires p != "" && p[0] != ' '
    ensures len == Take(p)
  {
    hide Skip;
    len := |p|;
    if len > LINE {
      var cut := LINE;
      while cut > 0 && p[cut] != ' '
        invariant 0 <= cut <= LINE
        invariant LastSpace(p[..cut + 1]) == LastSpace(p[..LINE + 1])
      {
        assert p[..cut + 1][..cut] == p[..cut];
        cut := cut - 1;
      }
      len := if cut != 0 then cut else LINE;
    }
  }

  lemma LinesStep(p: string)
    requires p != "" && p[0] != ' '
    ensures Lines(p) == [p[..Take(p)]] + Lines(Skip(p[Take(p)..]))
  {
    hide Take;
    assert Skip(p) == p;
    LinesSkip(p[Take(p)..]);
  }

  lemma NoLines()
    ensures Lines("") == []
  {
    assert Skip("") == "";
  }

  method SkipSpaces(text: string) returns (p: string)
    ensures p == Skip(text)
  {
    p := text;
    while p != "" && p[0] == ' '
      invariant Skip(p) == Skip(text)
      decreases |p|
    {
      p := p[1..];
    }
  }

  lemma LinesSkip(text: string)
    ensures Lines(Skip(text)) == Lines(text)
  {
    assert Skip(Skip(text)) == Skip(text);
  }

  // ---- What the lines are

  predicate GoodLine(line: string) {
    0 < |line| <= LINE && line[0] != ' '
  }

  lemma {:induction false} LinesAreGood(text: string)
    ensures forall k :: 0 <= k < |Lines(text)| ==> GoodLine(Lines(text)[k])
    decreases |text|
  {
    hide Skip, Take;
    var p := Skip(text);
    if p != "" {
      LinesAreGood(p[Take(p)..]);
    }
  }

  /** The characters that are not spaces, in order. */
  function Ink(text: string): string {
    if text == "" then "" else (if text[0] == ' ' then "" else [text[0]]) + Ink(text[1..])
  }

  function InkOf(lines: seq<string>): string {
    if lines == [] then "" else Ink(lines[0]) + InkOf(lines[1..])
  }

  lemma {:induction false} InkSplit(a: string, b: string)
    ensures Ink(a + b) == Ink(a) + Ink(b)
  {
    if a == "" {
      assert a + b == b;
    } else {
      assert (a + b)[1..] == a[1..] + b;
      InkSplit(a[1..], b);
    }
  }

  lemma {:induction false} InkOfSpaces(text: string)
    requires forall i :: 0 <= i < |text| ==> text[i] == ' '
    ensures Ink(text) == ""
  {
    if text != "" {
      InkOfSpaces(text[1..]);
    }
  }

  /** Nothing but spaces is lost, and nothing is reordered. */
  lemma {:induction false} InkPreserved(text: string)
    ensures InkOf(Lines(text)) == Ink(text)
    decreases |text|
  {
    hide Skip, Take;
    var p := Skip(text);
    var spaces := text[..|text| - |p|];
    SkipDropsSpaces(text);
    assert text == spaces + p;
    InkSplit(spaces, p);
    InkOfSpaces(spaces);
    if p != "" {
      var n := Take(p);
      InkPreserved(p[n..]);
      assert p == p[..n] + p[n..];
      InkSplit(p[..n], p[n..]);
    }
  }

  /** Where the lines of `whole[base..]` stand in the whole text. */
  function Starts(whole: string, base: nat): (starts: seq<nat>)
    requires base <= |whole|
    ensures |starts| == |Lines(whole[base..])|
    decreases |whole| - base
  {
    var p := Skip(whole[base..]);
    if |p| == 0 then []
    else
      var at, n := |whole| - |p|, Take(p);
      SkipDropsSpaces(whole[base..]);
      assert whole[at..] == p && p[n..] == whole[at + n..];
      [at] + Starts(whole, at + n)
  }

  /** The line stands at s in the text, and ends with the text, or before the last space that leaves a full line,
      or where sixty-four characters without a space leave no choice but to break. */
  predicate StandsAt(whole: string, line: string, s: nat) {
    var e := s + |line|;
    && e <= |whole| && whole[s..e] == line
    && (e == |whole| || whole[e] == ' ' || (|line| == LINE && forall k :: s <= k <= e ==> whole[k] != ' '))
    && (e < |whole| ==> s + LINE < |whole| && forall k :: e < k <= s + LINE ==> whole[k] != ' ')
  }

  predicate Blank(whole: string, i: nat, j: nat) {
    i <= j <= |whole| && forall k :: i <= k < j ==> whole[k] == ' '
  }

  /** Line after line stands in the text where it is said to, and there is nothing but spaces before,
      between and behind them. */
  predicate InPlace(whole: string, base: nat, lines: seq<string>, starts: seq<nat>)
    requires |lines| == |starts|
    decreases |lines|
  {
    if |lines| == 0 then Blank(whole, base, |whole|)
    else
      && Blank(whole, base, starts[0]) && StandsAt(whole, lines[0], starts[0])
      && InPlace(whole, starts[0] + |lines[0]|, lines[1..], starts[1..])
  }

  lemma {:induction false} LinesInPlace(whole: string, base: nat)
    requires base <= |whole|
    ensures InPlace(whole, base, Lines(whole[base..]), Starts(whole, base))
    decreases |whole| - base
  {
    hide Lines, Starts, Skip, Take, StandsAt, Blank;
    BlankBefore(whole, base);
    FirstLine(whole, base);
    var p := Skip(whole[base..]);
    if |p| > 0 {
      var at, n := |whole| - |p|, Take(p);
      LinesInPlace(whole, at + n);
      LineEnds(whole, at);
      var lines, starts := Lines(whole[at + n..]), Starts(whole, at + n);
      assert ([p[..n]] + lines)[1..] == lines && ([at] + starts)[1..] == starts;
    }
  }

  lemma FirstLine(whole: string, base: nat)
    requires base <= |whole|
    ensures var p := Skip(whole[base..]); var at := |whole| - |p|;
      if |p| == 0 then Lines(whole[base..]) == [] && Starts(whole, base) == []
      else
        && base <= at && whole[at..] == p && Lines(whole[base..]) == [p[..Take(p)]] + Lines(whole[at + Take(p)..])
        && Starts(whole, base) == [at] + Starts(whole, at + Take(p))
  {
    hide Take, Skip;
    var p := Skip(whole[base..]);
    SkipDropsSpaces(whole[base..]);
    if |p| > 0 {
      var at := |whole| - |p|;
      assert whole[at..] == p && p[Take(p)..] == whole[at + Take(p)..];
    }
  }

  lemma BlankBefore(whole: string, base: nat)
    requires base <= |whole|
    ensures Blank(whole, base, |whole| - |Skip(whole[base..])|)
  {
    var text := whole[base..];
    SkipDropsSpaces(text);
    forall k | base <= k < |whole| - |Skip(text)| ensures whole[k] == ' ' {
      assert whole[k] == text[k - base];
    }
  }

  lemma LineEnds(whole: string, at: nat)
    requires at < |whole| && whole[at] != ' '
    ensures var p := whole[at..]; StandsAt(whole, p[..Take(p)], at)
  {
    var p := whole[at..];
    var n := Take(p);
    assert whole[at..at + n] == p[..n];
    forall k | at <= k <= at + n && k < |whole| ensures whole[k] == p[k - at] {
    }
  }

  // ---- How many lines

  /** Two consecutive lines use up at least 64 characters of the text, if anything is left after them. */
  lemma TwoLinesUse64(p: string)
    requires p != "" && p[0] != ' ' && |p| > LINE
    ensures var q := Skip(p[Take(p)..]);
      q != "" && Take(q) < |q| ==> |q[Take(q)..]| <= |p| - 64
  {
    hide Skip;
    var n := Take(p);
    var q := Skip(p[n..]);
    if q != "" && Take(q) < |q| && n < LINE {
      assert p[n] == ' ' && forall k :: n < k <= LINE ==> p[k] != ' ';
      OneSpaceSkipped(p, n);
      FirstWordFits(q, LINE - n);
    }
  }

  /** A cut at a space that is followed by ink skips that space alone. */
  lemma OneSpaceSkipped(p: string, n: nat)
    requires n < LINE < |p| && p[n] == ' ' && forall k :: n < k <= LINE ==> p[k] != ' '
    ensures Skip(p[n..]) == p[n + 1..]
  {
    assert p[n..][1..] == p[n + 1..];
    assert p[n + 1..][0] == p[n + 1] != ' ';
  }

  /** A line that does not end the text reaches at least to the end of its first stretch of ink. */
  lemma FirstWordFits(q: string, ink: nat)
    requires 0 < ink <= LINE && ink <= |q| && forall k :: 0 <= k < ink ==> q[k] != ' '
    ensures Take(q) >= ink
  {
  }

  /** A text of n characters needs at most 2 * (n / 64) + 1 lines. */
  lemma {:induction false} LineBound(text: string)
    ensures |Lines(text)| <= 2 * (|text| / 64) + 1
    decreases |text|
  {
    hide Skip, Take, Lines;
    var p := Skip(text);
    LinesSkip(text);
    NoLines();
    if p != "" {
      var rest := p[Take(p)..];
      var q := Skip(rest);
      LinesStep(p);
      if |p| <= LINE {
        LinesSkip(rest);
        WholeLine(p);
      } else if q != "" {
        var last := q[Take(q)..];
        LinesStep(q);
        LinesSkip(last);
        TwoLinesUse64(p);
        if last != "" {
          LineBound(last);
        }
      }
    }
  }

  lemma WholeLine(p: string)
    requires p != "" && p[0] != ' ' && |p| <= LINE
    ensures Lines(p[Take(p)..]) == []
  {
    assert p[Take(p)..] == "";
    NoLines();
  }

  /** The bound is reached: 127 characters without a space need three lines. */
  lemma BoundReached(text: string)
    requires |text| == 127 && forall i :: 0 <= i < 127 ==> text[i] != ' '
    ensures |Lines(text)| == 3 == 2 * (|text| / 64) + 1
  {
    hide Skip, Lines;
    var second := text[LINE..];
    var third := second[LINE..];
    NoSpaceTake(text);
    NoSpaceTake(second);
    NoSpaceTake(third);
    LinesStep(text);
    LinesStep(second);
    LinesStep(third);
    assert third[1..] == "";
    InkedSkip(second);
    InkedSkip(third);
    InkedSkip(third[1..]);
    NoLines();
  }

  lemma NoSpaceTake(p: string)
    requires p != "" && forall i :: 0 <= i < |p| ==> p[i] != ' '
    ensures Take(p) == Min(LINE, |p|)
  {
  }

  lemma InkedSkip(p: string)
    requires p == "" || p[0] != ' '
    ensures Skip(p) == p
  {
  }

  /** The message buffer always fits: no line of a message is ever dropped. */
  lemma MessageFits(text: string)
    requires |text| <= MESSAGE
    ensures |Lines(text)| <= MAX_LINES
  {
    LineBound(text);
  }
}
