/** Where the menu draws its games, and which game a mouse click lands on. */
module MenuView {
  import opened Common

  const FRAME_W := 80
  const FRAME_H := 24
  const INNER_W := FRAME_W - 2
  const CONTENT_ROWS := FRAME_H - 2
  const GAMES_TOP_ROW := 1
  const MAX_VISIBLE := 7
  const BANNER_TOP_ROW := 0
  const BANNER_RESERVE_ROWS := 4
  const IDENTITY_ROW := 16
  const FLASH_ROW := 18
  const FINGER_ROW := 20
  const ALPHA_ROWS := 11
  const ALPHA_CHECK_ROW := 6
  const ALPHA_CONTINUE_ROW := 8

  // ------------------------------------------------------------------ hitboxes

  /** A clickable rectangle in terminal cells; game rows carry the game's index. */
  datatype Box = Box(x: int, y: int, w: int, h: int, id: string, data: Option<int>)

  predicate Contains(b: Box, x: int, y: int) {
    b.x <= x < b.x + b.w && b.y <= y < b.y + b.h
  }

  /** `b` is the topmost, that is the last registered, box on the cell. */
  ghost predicate IsTopmost(boxes: seq<Box>, x: int, y: int, b: Box) {
    exists i :: 0 <= i < |boxes| && boxes[i] == b && Contains(b, x, y) &&
                forall j :: i < j < |boxes| ==> !Contains(boxes[j], x, y)
  }

  function TopBox(boxes: seq<Box>, x: int, y: int): (r: Option<Box>)
    ensures r.None? <==> forall i :: 0 <= i < |boxes| ==> !Contains(boxes[i], x, y)
    ensures r.Some? ==> IsTopmost(boxes, x, y, r.value)
  {
    if boxes == [] then None
    else
      var last := boxes[|boxes| - 1];
      if Contains(last, x, y) then Some(last) else TopBox(boxes[..|boxes| - 1], x, y)
  }

  class Hitboxes {
    var boxes: seq<Box>

    constructor ()
      ensures boxes == []
    {
      boxes := [];
    }

    method Reset()
      modifies this
      ensures boxes == []
    {
      boxes := [];
    }

    method Add(b: Box)
      modifies this
      ensures boxes == old(boxes) + [b]
    {
      boxes := boxes + [b];
    }

    method At(x: int, y: int) returns (r: Option<Box>)
      ensures r == TopBox(boxes, x, y)
    {
      var i := |boxes| - 1;
      assert boxes[..|boxes|] == boxes;
      while i >= 0
        invariant -1 <= i < |boxes|
        invariant TopBox(boxes, x, y) == TopBox(boxes[..i + 1], x, y)
      {
        assert boxes[..i + 1][..i] == boxes[..i];
        if Contains(boxes[i], x, y) {
          return Some(boxes[i]);
        }
        i := i - 1;
      }
      return None;
    }
  }

  // -------------------------------------------------------------------- layout

  function GamesOrigin(notice: bool): int {
    if notice then GAMES_TOP_ROW + BANNER_RESERVE_ROWS else GAMES_TOP_ROW
  }

  function MaxVisibleGames(notice: bool): int {
    if !notice then MAX_VISIBLE
    else
      var n := (IDENTITY_ROW - GamesOrigin(notice)) / 2;
      if n < 1 then 1 else if n > MAX_VISIBLE then MAX_VISIBLE else n
  }

  function ScrollOffset(games: nat, cursor: int, limit: int): int {
    if games <= limit then 0
    else
      var first := if cursor - limit + 1 < 0 then 0 else cursor - limit + 1;
      if first > games - limit then games - limit else first
  }

  /** What a row of the frame's interior shows. */
  datatype Line = Blank | Title | Message | Name(game: int) | Description(game: int)
                | IdentityNote | GuestCommand | Flash | Finger | AlphaText(row: nat)

  datatype Notice = Notice(enabled: bool, title: bool, message: bool)

  /** Everything about a menu that decides where things are drawn. */
  datatype Scene = Scene(
    width: int, height: int, alphaOpen: bool, aboutOpen: bool, guest: bool, flash: bool, fingerprint: bool,
    notice: Notice, ids: seq<string>, cursor: int)
  {
    function First(): int { ScrollOffset(|ids|, cursor, MaxVisibleGames(notice.enabled)) }

    /** How many games the window shows. */
    function Shown(): int {
      if |ids| < MaxVisibleGames(notice.enabled) then |ids| else MaxVisibleGames(notice.enabled)
    }

    predicate FrameFits() { FRAME_W <= width && FRAME_H <= height }
    function Left(): int requires FrameFits() { (width - FRAME_W) / 2 }
    function Top(): int requires FrameFits() { (height - FRAME_H) / 2 }

    /** Content row of the window's `i`-th game. */
    function Row(i: int): int { GamesOrigin(notice.enabled) + 2 * i }
  }

  /** The window lies within the list, contains the cursor, and fits between the banner and the identity row. */
  lemma WindowShowsCursor(s: Scene)
    requires s.ids != [] ==> 0 <= s.cursor < |s.ids|
    ensures 0 <= s.First() && s.First() + s.Shown() <= |s.ids|
    ensures s.ids != [] ==> s.First() <= s.cursor < s.First() + s.Shown()
    ensures s.Row(0) == GAMES_TOP_ROW + (if s.notice.enabled then BANNER_RESERVE_ROWS else 0)
    ensures s.Row(s.Shown()) <= IDENTITY_ROW - 1
  {}

  function RowBox(left: int, top: int, row: int, id: string, index: int): Box {
    Box(left + 1, top + 1 + row, INNER_W, 2, "game:" + id, Some(index))
  }

  function GameBox(s: Scene, i: int): Box
    requires s.FrameFits() && 0 <= s.First() + i < |s.ids|
  {
    RowBox(s.Left(), s.Top(), s.Row(i), s.ids[s.First() + i], s.First() + i)
  }

  /** The boxes a scene should have: one for every game in the window, or the two of the alpha warning. */
  ghost predicate BoxesOf(s: Scene, boxes: seq<Box>)
    requires s.ids != [] ==> 0 <= s.cursor < |s.ids|
  {
    WindowShowsCursor(s);
    if !s.FrameFits() then boxes == []
    else if s.alphaOpen then
      boxes == [Box(s.Left() + 1, s.Top() + 1 + ALPHA_CHECK_ROW, INNER_W, 1, "alpha:check", None),
                Box(s.Left() + 1, s.Top() + 1 + ALPHA_CONTINUE_ROW, INNER_W, 1, "alpha:continue", None)]
    else if s.aboutOpen then boxes == []
    else |boxes| == s.Shown() && forall i :: 0 <= i < |boxes| ==> boxes[i] == GameBox(s, i)
  }

  /** An enabled notice shows its title on the first row and its message on the row after it. */
  ghost predicate BannerDrawn(s: Scene, lines: seq<Line>)
    requires |lines| == CONTENT_ROWS
  {
    s.notice.enabled ==>
      && (s.notice.title ==> lines[BANNER_TOP_ROW] == Title)
      && (s.notice.message ==> lines[if s.notice.title then BANNER_TOP_ROW + 1 else BANNER_TOP_ROW] == Message)
  }

  predicate GameLine(line: Line) {
    line.Name? || line.Description?
  }

  /** Rows either kept what they showed or show something that is no game. */
  ghost predicate NoNewGames(before: seq<Line>, after: seq<Line>) {
    |before| == |after| && forall r :: 0 <= r < |after| ==> after[r] == before[r] || !GameLine(after[r])
  }

  /** The notes below the games. */
  ghost predicate NotesDrawn(s: Scene, lines: seq<Line>)
    requires |lines| == CONTENT_ROWS
  {
    && lines[IDENTITY_ROW] == IdentityNote
    && (s.guest ==> lines[IDENTITY_ROW + 1] == GuestCommand)
    && (s.flash ==> lines[FLASH_ROW] == Flash)
    && (s.guest || s.fingerprint ==> lines[FINGER_ROW] == Finger)
  }

  method FillBanner(s: Scene, content: array<Line>)
    requires content.Length == CONTENT_ROWS
    modifies content
    ensures BannerDrawn(s, content[..]) && NoNewGames(old(content[..]), content[..])
    ensures forall r :: 2 <= r < CONTENT_ROWS ==> content[r] == old(content[r])
    ensures !s.notice.enabled ==> content[..] == old(content[..])
  {
    if !s.notice.enabled {
      return;
    }
    if s.notice.title {
      content[BANNER_TOP_ROW] := Title;
    }
    if s.notice.message {
      var row := BANNER_TOP_ROW;
      if s.notice.title {
        row := row + 1;
      }
      if row < IDENTITY_ROW - 1 {
        content[row] := Message;
      }
    }
  }

  ghost predicate GamesDrawn(origin: int, first: int, n: int, lines: seq<Line>) {
    forall i :: 0 <= i < n ==>
      && 0 <= origin + 2 * i && origin + 2 * i + 1 < IDENTITY_ROW - 1 && origin + 2 * i + 1 < |lines|
      && lines[origin + 2 * i] == Name(first + i) && lines[origin + 2 * i + 1] == Description(first + i)
  }

  method DrawGame(id: string, index: int, row: int, left: int, top: int, content: array<Line>, hits: Hitboxes)
    requires content.Length == CONTENT_ROWS && 0 <= row && row + 1 < CONTENT_ROWS
    modifies content, hits
    ensures content[row] == Name(index) && content[row + 1] == Description(index)
    ensures forall r :: 0 <= r < CONTENT_ROWS && r != row && r != row + 1 ==> content[r] == old(content[r])
    ensures hits.boxes == old(hits.boxes) + [RowBox(left, top, row, id, index)]
  {
    content[row] := Name(index);
    content[row + 1] := Description(index);
    hits.Add(Box(left + 1, top + 1 + row, INNER_W, 2, "game:" + id, Some(index)));
  }

  /** Draws the window: two rows and one box for each visible game.  The early exit is never taken. */
  method DrawGames(
    ids: seq<string>, first: int, end: int, origin: int, left: int, top: int, content: array<Line>, hits: Hitboxes)
    requires content.Length == CONTENT_ROWS && hits.boxes == []
    requires 0 <= first <= end <= |ids| && 0 <= origin && origin + 2 * (end - first) <= IDENTITY_ROW - 1
    modifies content, hits
    ensures |hits.boxes| == end - first && GamesDrawn(origin, first, end - first, content[..])
    ensures forall r :: 0 <= r < CONTENT_ROWS && !(origin <= r < origin + 2 * (end - first)) ==>
              content[r] == old(content[r])
    ensures forall i :: 0 <= i < |hits.boxes| ==>
              hits.boxes[i] == RowBox(left, top, origin + 2 * i, ids[first + i], first + i)
  {
    for i := 0 to end - first
      invariant |hits.boxes| == i
      invariant forall j :: 0 <= j < i ==> hits.boxes[j] == RowBox(left, top, origin + 2 * j, ids[first + j], first + j)
      invariant GamesDrawn(origin, first, i, content[..])
      invariant forall r :: 0 <= r < CONTENT_ROWS && !(origin <= r < origin + 2 * i) ==> content[r] == old(content[r])
    {
      var row := origin + i * 2;
      if row + 1 >= IDENTITY_ROW - 1 {
        assert false;
        break;
      }
      DrawGame(ids[first + i], first + i, row, left, top, content, hits);
    }
  }

  /** Banner, games and notes are all there, and no row outside the window gained a game. */
  ghost predicate MenuDrawn(s: Scene, before: seq<Line>, lines: seq<Line>)
    requires |before| == |lines| == CONTENT_ROWS
  {
    && BannerDrawn(s, lines) && NotesDrawn(s, lines) && GamesDrawn(s.Row(0), s.First(), s.Shown(), lines)
    && forall r :: 0 <= r < CONTENT_ROWS && !(s.Row(0) <= r < s.Row(s.Shown())) ==>
         lines[r] == before[r] || !GameLine(lines[r])
  }

  /** Draws the banner, the window of games and the notes below it. */
  method FillMenu(s: Scene, content: array<Line>, hits: Hitboxes)
    requires content.Length == CONTENT_ROWS && s.FrameFits() && !s.alphaOpen && !s.aboutOpen && hits.boxes == []
    requires s.ids != [] ==> 0 <= s.cursor < |s.ids|
    modifies content, hits
    ensures BoxesOf(s, hits.boxes)
    ensures MenuDrawn(s, old(content[..]), content[..])
  {
    FillBanner(s, content);
    var origin := GamesOrigin(s.notice.enabled);
    var limit := MaxVisibleGames(s.notice.enabled);
    var first := ScrollOffset(|s.ids|, s.cursor, limit);
    WindowShowsCursor(s);
    var end := if first + limit < |s.ids| then first + limit else |s.ids|;
    DrawGames(s.ids, first, end, origin, s.Left(), s.Top(), content, hits);
    WindowBoxes(s, hits.boxes);
    ghost var drawn := content[..];
    FillNotes(s, content);
    DrawnStays(origin, first, s.Shown(), drawn, content[..]);
  }

  lemma DrawnStays(origin: int, first: int, n: int, before: seq<Line>, after: seq<Line>)
    requires GamesDrawn(origin, first, n, before) && |before| == |after| == CONTENT_ROWS
    requires forall r :: 0 <= r < IDENTITY_ROW ==> after[r] == before[r]
    ensures GamesDrawn(origin, first, n, after)
  {}

  lemma WindowBoxes(s: Scene, boxes: seq<Box>)
    requires s.FrameFits() && !s.alphaOpen && !s.aboutOpen && (s.ids != [] ==> 0 <= s.cursor < |s.ids|)
    requires |boxes| == s.Shown() && 0 <= s.First() && s.First() + s.Shown() <= |s.ids|
    requires forall i :: 0 <= i < |boxes| ==>
               boxes[i] == RowBox(s.Left(), s.Top(), s.Row(0) + 2 * i, s.ids[s.First() + i], s.First() + i)
    ensures BoxesOf(s, boxes)
  {}

  /** The rows below the games: identity, guest command, flash and fingerprint. */
  method FillNotes(s: Scene, content: array<Line>)
    requires content.Length == CONTENT_ROWS
    modifies content
    ensures forall r :: 0 <= r < IDENTITY_ROW ==> content[r] == old(content[r])
    ensures NotesDrawn(s, content[..]) && NoNewGames(old(content[..]), content[..])
  {
    content[IDENTITY_ROW] := IdentityNote;
    if s.guest {
      content[IDENTITY_ROW + 1] := GuestCommand;
    }
    if s.flash {
      content[FLASH_ROW] := Flash;
    }
    if s.guest || s.fingerprint {
      content[FINGER_ROW] := Finger;
    }
  }

  method FillAlphaWarn(s: Scene, content: array<Line>, hits: Hitboxes)
    requires content.Length == CONTENT_ROWS && s.FrameFits() && s.alphaOpen && hits.boxes == []
    requires s.ids != [] ==> 0 <= s.cursor < |s.ids|
    modifies content, hits
    ensures BoxesOf(s, hits.boxes)
    ensures forall r :: 0 <= r < CONTENT_ROWS ==> content[r] == if r < ALPHA_ROWS then AlphaText(r) else old(content[r])
  {
    for i := 0 to ALPHA_ROWS
      invariant hits.boxes == []
      invariant forall r :: 0 <= r < CONTENT_ROWS ==> content[r] == if r < i then AlphaText(r) else old(content[r])
    {
      content[i] := AlphaText(i);
    }
    hits.Add(Box(s.Left() + 1, s.Top() + 1 + ALPHA_CHECK_ROW, INNER_W, 1, "alpha:check", None));
    hits.Add(Box(s.Left() + 1, s.Top() + 1 + ALPHA_CONTINUE_ROW, INNER_W, 1, "alpha:continue", None));
    assert |hits.boxes| == 2;
  }

  /** What a scene should show: the menu with the window's games and no other, the warning, or no game at all. */
  ghost predicate Drawn(s: Scene, lines: seq<Line>)
    requires |lines| == CONTENT_ROWS
  {
    if !s.FrameFits() || (s.aboutOpen && !s.alphaOpen) then forall r :: 0 <= r < CONTENT_ROWS ==> !GameLine(lines[r])
    else if s.alphaOpen then
      forall r :: 0 <= r < CONTENT_ROWS ==> lines[r] == if r < ALPHA_ROWS then AlphaText(r) else Blank
    else
      && BannerDrawn(s, lines) && NotesDrawn(s, lines) && GamesDrawn(s.Row(0), s.First(), s.Shown(), lines)
      && forall r :: 0 <= r < CONTENT_ROWS ==> (GameLine(lines[r]) <==> s.Row(0) <= r < s.Row(s.Shown()))
  }

  /** A render: the rows and the boxes are rebuilt for what is on screen now. */
  method View(s: Scene, hits: Hitboxes) returns (content: array<Line>)
    requires s.ids != [] ==> 0 <= s.cursor < |s.ids|
    modifies hits
    ensures fresh(content) && content.Length == CONTENT_ROWS && Drawn(s, content[..]) && BoxesOf(s, hits.boxes)
  {
    hits.Reset();
    content := new Line[CONTENT_ROWS](i => Blank);
    if !s.FrameFits() {
      return;
    }
    ghost var blank := content[..];
    if s.alphaOpen {
      FillAlphaWarn(s, content, hits);
    } else if !s.aboutOpen {
      FillMenu(s, content, hits);
      DrawnOnBlank(s, blank, content[..]);
    }
  }

  lemma DrawnOnBlank(s: Scene, blank: seq<Line>, lines: seq<Line>)
    requires s.FrameFits() && !s.alphaOpen && !s.aboutOpen && (s.ids != [] ==> 0 <= s.cursor < |s.ids|)
    requires |blank| == |lines| == CONTENT_ROWS && MenuDrawn(s, blank, lines)
    requires forall r :: 0 <= r < CONTENT_ROWS ==> blank[r] == Blank
    ensures Drawn(s, lines)
  {
    WindowShowsCursor(s);
    forall r | s.Row(0) <= r < s.Row(s.Shown()) ensures GameLine(lines[r]) {
      var i := (r - s.Row(0)) / 2;
      assert r == s.Row(0) + 2 * i || r == s.Row(0) + 2 * i + 1;
    }
  }

  // ------------------------------------------------------------------- results

  /** Game boxes never overlap, and lie between the banner's rows and the identity row. */
  lemma GameBoxesAreDisjoint(s: Scene, boxes: seq<Box>, i: nat, j: nat, x: int, y: int)
    requires s.FrameFits() && !s.alphaOpen && !s.aboutOpen && (s.ids != [] ==> 0 <= s.cursor < |s.ids|)
    requires BoxesOf(s, boxes) && i < |boxes| && j < |boxes|
    requires Contains(boxes[i], x, y) && Contains(boxes[j], x, y)
    ensures i == j
    ensures s.Top() + 1 + GamesOrigin(s.notice.enabled) <= y < s.Top() + 1 + IDENTITY_ROW - 1
    ensures s.Left() < x < s.Left() + FRAME_W - 1
  {
    WindowShowsCursor(s);
    assert boxes[i] == GameBox(s, i) && boxes[j] == GameBox(s, j);
  }

  /** A click on any cell of a drawn game's two rows yields that game's index. */
  lemma ClickHitsDrawnGame(s: Scene, boxes: seq<Box>, i: nat, x: int, y: int)
    requires s.FrameFits() && !s.alphaOpen && !s.aboutOpen && (s.ids != [] ==> 0 <= s.cursor < |s.ids|)
    requires BoxesOf(s, boxes) && i < s.Shown()
    requires s.Left() < x < s.Left() + FRAME_W - 1 && s.Top() + 1 + s.Row(i) <= y <= s.Top() + 2 + s.Row(i)
    ensures TopBox(boxes, x, y).Some? && TopBox(boxes, x, y).value.data == Some(s.First() + i)
  {
    WindowShowsCursor(s);
    assert boxes[i] == GameBox(s, i) && Contains(boxes[i], x, y);
    OnlyBoxIsTop(s, boxes, i, x, y);
  }

  /** That box is the game's own, with its ID and index. */
  lemma ClickFindsGameBox(s: Scene, boxes: seq<Box>, i: nat, x: int, y: int)
    requires s.FrameFits() && !s.alphaOpen && !s.aboutOpen && (s.ids != [] ==> 0 <= s.cursor < |s.ids|)
    requires BoxesOf(s, boxes) && i < s.Shown()
    requires s.Left() < x < s.Left() + FRAME_W - 1 && s.Top() + 1 + s.Row(i) <= y <= s.Top() + 2 + s.Row(i)
    ensures TopBox(boxes, x, y).Some? && 0 <= s.First() + i < |s.ids|
    ensures TopBox(boxes, x, y).value.id == "game:" + s.ids[s.First() + i]
    ensures TopBox(boxes, x, y).value.data == Some(s.First() + i)
  {
    WindowShowsCursor(s);
    assert boxes[i] == GameBox(s, i) && Contains(boxes[i], x, y);
    OnlyBoxIsTop(s, boxes, i, x, y);
  }

  /** The window has room for seven games, or five below a banner, and scrolls no further than the cursor needs. */
  lemma WindowIsLeast(s: Scene)
    requires s.ids != [] ==> 0 <= s.cursor < |s.ids|
    ensures s.Shown() == var room := if s.notice.enabled then 5 else 7; if |s.ids| < room then |s.ids| else room
    ensures s.First() > 0 ==> s.First() + s.Shown() - 1 == s.cursor
    ensures forall i :: 0 <= i < s.Shown() ==> s.Row(i) == (if s.notice.enabled then 5 else 1) + 2 * i
  {}

  /** The frame is drawn on a terminal of at least 80 by 24 cells, and sits in the middle of it. */
  lemma FrameIsCentred(s: Scene)
    ensures s.FrameFits() <==> 80 <= s.width && 24 <= s.height
    ensures s.FrameFits() ==>
              0 <= s.width - 80 - 2 * s.Left() <= 1 && 0 <= s.height - 24 - 2 * s.Top() <= 1
  {}

  /** A cell of one game box belongs to no other, so that box is the topmost. */
  lemma {:induction false} OnlyBoxIsTop(s: Scene, boxes: seq<Box>, i: nat, x: int, y: int)
    requires s.FrameFits() && !s.alphaOpen && !s.aboutOpen && (s.ids != [] ==> 0 <= s.cursor < |s.ids|)
    requires BoxesOf(s, boxes) && i < |boxes| && Contains(boxes[i], x, y)
    ensures TopBox(boxes, x, y) == Some(boxes[i])
  {
    var top := TopBox(boxes, x, y).value;
    assert IsTopmost(boxes, x, y, top);
    forall k | 0 <= k < |boxes| && Contains(boxes[k], x, y) ensures k == i {
      GameBoxesAreDisjoint(s, boxes, i, k, x, y);
    }
  }

  /** A click anywhere else yields nothing. */
  lemma ClickElsewhereMisses(s: Scene, boxes: seq<Box>, x: int, y: int)
    requires s.FrameFits() && !s.alphaOpen && !s.aboutOpen && (s.ids != [] ==> 0 <= s.cursor < |s.ids|)
    requires BoxesOf(s, boxes) && TopBox(boxes, x, y).Some?
    ensures exists i :: 0 <= i < s.Shown() && s.Left() < x < s.Left() + FRAME_W - 1
                        && s.Top() + 1 + s.Row(i) <= y <= s.Top() + 2 + s.Row(i)
  {
    WindowShowsCursor(s);
    var k :| 0 <= k < |boxes| && Contains(boxes[k], x, y);
    assert boxes[k] == GameBox(s, k);
    assert s.Top() + 1 + s.Row(k) <= y <= s.Top() + 2 + s.Row(k);
  }
}
