/**
 * The report: the text of each cell, the widths of the columns before the
 * command, the room left for the command, and the rows of the table.
 */
module Output {
  import opened Common
  import opened Strings
  import opened Numbers
  import opened Smaps
  import opened PidOwners

  /** `kiloBytesToString` without the human-readable form: the value in decimal. */
  function KiloBytesToString(value: int): (s: string)
    ensures s != []
    ensures Int64Min <= value <= Int64Max ==> Atoi(s) == Some(value)
    ensures Utf8Len(s) == |s|
  {
    AtoiRange(value);
    Itoa(value)
  }

  lemma AtoiRange(value: int)
    ensures Int64Min <= value <= Int64Max ==> Atoi(Itoa(value)) == Some(value)
  {
    if Int64Min <= value <= Int64Max {
      AtoiItoa(value);
    }
  }

  /**
   * The user cell: the owner's name, or its uid in decimal when the name is empty;
   * a pid without an owner reads as the zero record, so its cell is "0".
   */
  function UserCell(owners: map<int, PidOwner>, pid: int): (u: string)
    ensures u != []
    ensures pid in owners && owners[pid].username != [] ==> u == owners[pid].username
    ensures pid in owners && owners[pid].username == [] ==> u == Itoa(owners[pid].uid)
    ensures pid !in owners ==> u == "0"
  {
    var o := ReadOr(owners, pid, NoOwner);
    if o.username == [] then Itoa(o.uid) else o.username
  }

  // ---------------------------------------------------------------------------
  // Column widths

  /** The widths, in bytes, of the pid, user, USS, PSS and RSS columns. */
  datatype Widths = Widths(pid: nat, user: nat, uss: nat, pss: nat, rss: nat)

  /** The widths the columns start from: those of the headers. */
  const MinWidths: Widths := Widths(3, 4, 3, 3, 3)

  /** The room taken by the spaces between the columns. */
  const SpacingWidth: nat := 11

  /**
   * The byte lengths of one rollup's cells: every cell is non-empty, the decimal
   * cells are ASCII, so their bytes are their runes, and the user cell takes at
   * least a byte per rune.
   */
  function RowWidths(r: SmemRollup, owners: map<int, PidOwner>): (w: Widths)
    ensures w.pid >= 1 && w.user >= 1 && w.uss >= 1 && w.pss >= 1 && w.rss >= 1
    ensures w.pid == |Itoa(r.pid)| && w.user >= |UserCell(owners, r.pid)|
    ensures w.uss == |KiloBytesToString(USS(r))| && w.pss == |KiloBytesToString(PSS(r))|
    ensures w.rss == |KiloBytesToString(RSS(r))|
  {
    Widths(Utf8Len(Itoa(r.pid)), Utf8Len(UserCell(owners, r.pid)),
           Utf8Len(KiloBytesToString(USS(r))), Utf8Len(KiloBytesToString(PSS(r))),
           Utf8Len(KiloBytesToString(RSS(r))))
  }

  function Max(a: nat, b: nat): (m: nat)
    ensures m >= a && m >= b && (m == a || m == b)
  {
    if a < b then b else a
  }

  /** The wider of two widths in each column. */
  function MaxWidths(w: Widths, v: Widths): (u: Widths)
    ensures Covers(u, w) && Covers(u, v)
  {
    Widths(Max(w.pid, v.pid), Max(w.user, v.user), Max(w.uss, v.uss), Max(w.pss, v.pss), Max(w.rss, v.rss))
  }

  /** The cell widths of each rollup, in order. */
  function CellWidths(rollups: seq<SmemRollup>, owners: map<int, PidOwner>): (ws: seq<Widths>)
    ensures |ws| == |rollups|
    ensures forall i :: 0 <= i < |rollups| ==> ws[i] == RowWidths(rollups[i], owners)
  {
    seq(|rollups|, i requires 0 <= i < |rollups| => RowWidths(rollups[i], owners))
  }

  /** The running maxima over the given cell widths, starting from the header widths. */
  function Widest(ws: seq<Widths>): (w: Widths)
    ensures Covers(w, MinWidths)
    ensures forall i :: 0 <= i < |ws| ==> Covers(w, ws[i])
  {
    if ws == [] then MinWidths else MaxWidths(Widest(ws[..|ws| - 1]), ws[|ws| - 1])
  }

  /** The widths of the columns: as wide as the headers and as every rollup's cells. */
  function WidthsOf(rollups: seq<SmemRollup>, owners: map<int, PidOwner>): (w: Widths)
    ensures Covers(w, MinWidths)
    ensures forall i :: 0 <= i < |rollups| ==> Covers(w, RowWidths(rollups[i], owners))
    ensures rollups == [] ==> w == MinWidths
  {
    Widest(CellWidths(rollups, owners))
  }

  /** The room the columns before the command take, at least that of the headers. */
  function Total(w: Widths): (t: nat)
    ensures t >= SpacingWidth
    ensures Covers(w, MinWidths) ==> t >= 27
    ensures w == MinWidths ==> t == 27
  {
    SpacingWidth + w.pid + w.user + w.uss + w.pss + w.rss
  }

  /** `a` is at least `b` in every column. */
  predicate Covers(a: Widths, b: Widths)
  {
    a.pid >= b.pid && a.user >= b.user && a.uss >= b.uss && a.pss >= b.pss && a.rss >= b.rss
  }

  /**
   * `otherColumnsWidth`: the running maximum of each column over the rows, from
   * the header widths, plus the spacing.
   */
  method OtherColumnsWidth(rollups: seq<SmemRollup>, owners: map<int, PidOwner>) returns (width: nat)
    ensures width == Total(WidthsOf(rollups, owners))
    ensures width >= 27
    ensures rollups == [] ==> width == 27
  {
    ghost var ws := CellWidths(rollups, owners);
    var pidWidth, userWidth, ussWidth, pssWidth, rssWidth := 3, 4, 3, 3, 3;
    for i := 0 to |rollups|
      invariant Widths(pidWidth, userWidth, ussWidth, pssWidth, rssWidth) == Widest(ws[..i])
    {
      var row := RowWidths(rollups[i], owners);
      assert row == ws[i];
      var w := Widen(Widths(pidWidth, userWidth, ussWidth, pssWidth, rssWidth), row);
      pidWidth, userWidth, ussWidth, pssWidth, rssWidth := w.pid, w.user, w.uss, w.pss, w.rss;
      PrefixSnoc(ws, i);
      TakeFront(ws[..i], [ws[i]]);
    }
    assert ws[..|rollups|] == ws;
    WidestFits(ws);
    width := SpacingWidth + pidWidth + userWidth + ussWidth + pssWidth + rssWidth;
  }

  /** The body of the loop of `otherColumnsWidth`: each column grows to the row's cell. */
  method Widen(w: Widths, row: Widths) returns (v: Widths)
    ensures v == MaxWidths(w, row)
  {
    var pidWidth, userWidth, ussWidth, pssWidth, rssWidth := w.pid, w.user, w.uss, w.pss, w.rss;
    if row.pid > pidWidth { pidWidth := row.pid; }
    if row.user > userWidth { userWidth := row.user; }
    if row.uss > ussWidth { ussWidth := row.uss; }
    if row.pss > pssWidth { pssWidth := row.pss; }
    if row.rss > rssWidth { rssWidth := row.rss; }
    v := Widths(pidWidth, userWidth, ussWidth, pssWidth, rssWidth);
  }

  /**
   * Each column is no wider than it must be: its width is the header's or that of
   * some row's cell.
   */
  lemma {:induction false} WidestFits(ws: seq<Widths>)
    ensures var w := Widest(ws);
      (w.pid == MinWidths.pid || exists i :: 0 <= i < |ws| && w.pid == ws[i].pid) &&
      (w.user == MinWidths.user || exists i :: 0 <= i < |ws| && w.user == ws[i].user) &&
      (w.uss == MinWidths.uss || exists i :: 0 <= i < |ws| && w.uss == ws[i].uss) &&
      (w.pss == MinWidths.pss || exists i :: 0 <= i < |ws| && w.pss == ws[i].pss) &&
      (w.rss == MinWidths.rss || exists i :: 0 <= i < |ws| && w.rss == ws[i].rss)
  {
    if ws != [] {
      var init := ws[..|ws| - 1];
      WidestFits(init);
      forall i | 0 <= i < |init| ensures ws[i] == init[i] { }
    }
  }

  // ---------------------------------------------------------------------------
  // Rows

  /** How the command column is laid out: its width, and whether commands are shown whole. */
  datatype Layout = Layout(cmdWidth: int, wide: bool)

  /**
   * The room for the command is what the terminal has left after the other
   * columns; with fewer than 7 columns left it is 7 and commands are shown whole.
   */
  function LayoutOf(terminalWidth: int, otherWidth: int, wide: bool): (l: Layout)
    ensures l.cmdWidth >= 7
    ensures terminalWidth - otherWidth >= 7 ==> l == Layout(terminalWidth - otherWidth, wide)
    ensures terminalWidth - otherWidth < 7 ==> l == Layout(7, true)
  {
    var cmdWidth := terminalWidth - otherWidth;
    if cmdWidth < 7 then Layout(7, true) else Layout(cmdWidth, wide)
  }

  /**
   * The command cell: the command line, cut to its first `cmdWidth` runes when
   * commands are not shown whole and it has more.
   */
  function CommandCell(command: string, layout: Layout): (c: string)
    requires layout.cmdWidth >= 0
    ensures c <= command
    ensures !layout.wide && |command| > layout.cmdWidth ==> |c| == layout.cmdWidth
    ensures layout.wide || |command| <= layout.cmdWidth ==> c == command
  {
    if !layout.wide && |command| > layout.cmdWidth then command[..layout.cmdWidth] else command
  }

  /** One row of the table. */
  datatype Row = Row(pid: int, user: string, uss: string, pss: string, rss: string, command: string)

  function RowOf(r: SmemRollup, owners: map<int, PidOwner>, cmdlines: map<int, string>, layout: Layout): (row: Row)
    requires layout.cmdWidth >= 0
    ensures row.pid == r.pid && row.user == UserCell(owners, r.pid)
    ensures row.command <= ReadOr(cmdlines, r.pid, [])
    ensures !layout.wide ==> |row.command| <= layout.cmdWidth
  {
    Row(r.pid, UserCell(owners, r.pid), KiloBytesToString(USS(r)), KiloBytesToString(PSS(r)),
        KiloBytesToString(RSS(r)), CommandCell(ReadOr(cmdlines, r.pid, []), layout))
  }

  /** The rows for the given rollups, one per rollup and in the same order. */
  function RowsOf(rollups: seq<SmemRollup>, owners: map<int, PidOwner>, cmdlines: map<int, string>, layout: Layout)
    : (rows: seq<Row>)
    requires layout.cmdWidth >= 0
    ensures |rows| == |rollups|
    ensures forall i :: 0 <= i < |rollups| ==> rows[i] == RowOf(rollups[i], owners, cmdlines, layout)
  {
    seq(|rollups|, i requires 0 <= i < |rollups| => RowOf(rollups[i], owners, cmdlines, layout))
  }

  /**
   * `render`, without the table drawing: the layout from the terminal width and
   * the other columns, then one row per rollup, in order.
   */
  method Render(rollups: seq<SmemRollup>, owners: map<int, PidOwner>, cmdlines: map<int, string>,
                wide: bool, terminalWidth: int) returns (layout: Layout, rows: seq<Row>)
    ensures layout == LayoutOf(terminalWidth, Total(WidthsOf(rollups, owners)), wide)
    ensures rows == RowsOf(rollups, owners, cmdlines, layout)
  {
    var other := OtherColumnsWidth(rollups, owners);
    var cmdWidth := terminalWidth - other;
    var isWide := wide;
    if cmdWidth < 7 {
      cmdWidth := 7;
      isWide := true;
    }
    layout := Layout(cmdWidth, isWide);
    rows := RenderRows(rollups, owners, cmdlines, layout);
  }

  /** The loop of `render` that appends one row per rollup. */
  method RenderRows(rollups: seq<SmemRollup>, owners: map<int, PidOwner>, cmdlines: map<int, string>,
                    layout: Layout) returns (rows: seq<Row>)
    requires layout.cmdWidth >= 0
    ensures rows == RowsOf(rollups, owners, cmdlines, layout)
  {
    ghost var expected := RowsOf(rollups, owners, cmdlines, layout);
    rows := [];
    for i := 0 to |rollups|
      invariant rows == expected[..i]
    {
      var r := rollups[i];
      var command := ReadOr(cmdlines, r.pid, []);
      if !layout.wide && |command| > layout.cmdWidth {
        command := command[..layout.cmdWidth];
      }
      var row := Row(r.pid, UserCell(owners, r.pid), KiloBytesToString(USS(r)),
                     KiloBytesToString(PSS(r)), KiloBytesToString(RSS(r)), command);
      assert row == expected[i];
      PrefixSnoc(expected, i);
      rows := rows + [row];
    }
    assert expected[..|rollups|] == expected;
  }

  /**
   * What a row shows: the pid; the name, else the uid ("0" without an owner); the
   * sums and stats in decimal, a missing stat counting 0; and a command that is
   * the command line or a prefix of it no longer than the command width.
   */
  lemma RowShows(r: SmemRollup, owners: map<int, PidOwner>, cmdlines: map<int, string>, layout: Layout)
    requires layout.cmdWidth >= 0
    requires Int64Min <= USS(r) <= Int64Max && Int64Min <= PSS(r) <= Int64Max && Int64Min <= RSS(r) <= Int64Max
    ensures var row := RowOf(r, owners, cmdlines, layout);
      && row.pid == r.pid
      && (r.pid !in owners ==> row.user == "0")
      && Atoi(row.uss) == Some(Stat(r, StatPrivateClean) + Stat(r, StatPrivateDirty))
      && Atoi(row.pss) == Some(Stat(r, StatPSS))
      && Atoi(row.rss) == Some(Stat(r, StatRSS))
      && row.command <= ReadOr(cmdlines, r.pid, [])
      && (!layout.wide ==> |row.command| <= layout.cmdWidth)
      && (r.pid !in cmdlines ==> row.command == [])
  {
  }

  /** A rollup without stats shows 0 in the three size columns. */
  lemma EmptyRollupShowsZero(r: SmemRollup, owners: map<int, PidOwner>, cmdlines: map<int, string>, layout: Layout)
    requires layout.cmdWidth >= 0 && r.stats == map[]
    ensures var row := RowOf(r, owners, cmdlines, layout); row.uss == "0" && row.pss == "0" && row.rss == "0"
  {
    assert Digits(0, 10) == "0";
  }
}
