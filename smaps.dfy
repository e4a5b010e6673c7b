/**
 * The memory-rollup source: the text of a process's `smaps_rollup` file is parsed
 * into an address-range header and a map from lower-cased stat name to kilobytes,
 * and the per-process results are gathered, keeping only rollups that have stats.
 */
module Smaps {
  import opened Common
  import opened Strings
  import opened Numbers
  import opened Delivery

  /** The address range on the header line; both values are 64-bit unsigned. */
  datatype SmemHeader = SmemHeader(start: nat, end: nat)

  /** One `Name:   value kB` line. */
  datatype SmemStat = SmemStat(name: string, value: int)

  /** The parsed rollup of one process. */
  datatype SmemRollup = SmemRollup(pid: int, header: SmemHeader, stats: map<string, int>)

  /** What the file reader hands to the parser: the text, or the fact that reading failed. */
  datatype SmemRollupRaw = SmemRollupRaw(pid: int, contents: string, failed: bool)

  /**
   * Why the whole run ends: `log.Fatal` on a number that does not parse, or an
   * index panic on a piece of the line that is not there.
   */
  datatype Abort = MalformedHex | MissingRangeEnd | MissingColon | MalformedValue

  /** A parse step: a value, an error returned to the caller, or the end of the run. */
  datatype Outcome<T> = Ok(value: T) | Err | Aborted(why: Abort)

  const StatPrivateClean: string := "private_clean"
  const StatPrivateDirty: string := "private_dirty"
  const StatPSS: string := "pss"
  const StatRSS: string := "rss"

  /** A stat read from the map; a missing key reads as 0, as a Go map does. */
  function Stat(r: SmemRollup, name: string): (v: int)
    ensures name in r.stats ==> v == r.stats[name]
    ensures name !in r.stats ==> v == 0
  {
    if name in r.stats then r.stats[name] else 0
  }

  /** Unique set size: the private clean plus the private dirty kilobytes, a missing one counting 0. */
  function USS(r: SmemRollup): (v: int)
    ensures StatPrivateClean in r.stats && StatPrivateDirty in r.stats ==>
      v == r.stats[StatPrivateClean] + r.stats[StatPrivateDirty]
    ensures StatPrivateClean in r.stats && StatPrivateDirty !in r.stats ==> v == r.stats[StatPrivateClean]
    ensures StatPrivateClean !in r.stats && StatPrivateDirty in r.stats ==> v == r.stats[StatPrivateDirty]
    ensures StatPrivateClean !in r.stats && StatPrivateDirty !in r.stats ==> v == 0
  {
    Stat(r, StatPrivateClean) + Stat(r, StatPrivateDirty)
  }

  /** Proportional set size: the `pss` stat, or 0 without one. */
  function PSS(r: SmemRollup): (v: int)
    ensures StatPSS in r.stats ==> v == r.stats[StatPSS]
    ensures StatPSS !in r.stats ==> v == 0
  {
    Stat(r, StatPSS)
  }

  /** Resident set size: the `rss` stat, or 0 without one. */
  function RSS(r: SmemRollup): (v: int)
    ensures StatRSS in r.stats ==> v == r.stats[StatRSS]
    ensures StatRSS !in r.stats ==> v == 0
  {
    Stat(r, StatRSS)
  }

  /**
   * `parseHeaderLine`: the first space-separated token is `<start>-<end>` in
   * hexadecimal. A start or end that is not a 64-bit hexadecimal number ends the
   * run, and so does a token without `-` (the index of the missing end panics).
   */
  function ParseHeaderLine(line: string): (r: Outcome<SmemHeader>)
    ensures !r.Err?
    ensures r.Ok? ==> r.value.start < Uint64Limit && r.value.end < Uint64Limit
  {
    var token := Split(line, ' ')[0];
    var range := Split(token, '-');
    match ParseUint(range[0], 16)
    case None => Aborted(MalformedHex)
    case Some(start) =>
      if |range| < 2 then Aborted(MissingRangeEnd)
      else
        match ParseUint(range[1], 16)
        case None => Aborted(MalformedHex)
        case Some(end) => Ok(SmemHeader(start, end))
  }

  /**
   * `parseStatLine`: the name is the text before the first `:`, unchanged; the
   * value is the first space-separated token of the trimmed text between the first
   * and the second `:`, read as a decimal. An empty line is an error; a line
   * without `:` (index panic) or with a value that is not a number ends the run.
   */
  function ParseStatLine(line: string): (r: Outcome<SmemStat>)
    ensures r.Err? <==> line == []
    ensures r.Ok? ==> Int64Min <= r.value.value <= Int64Max
    ensures line != [] && |Split(line, ':')| < 2 ==> r == Aborted(MissingColon)
    ensures r.Ok? ==>
      |Split(line, ':')| >= 2 && r.value.name == Split(line, ':')[0] &&
      Atoi(Split(TrimSpace(Split(line, ':')[1]), ' ')[0]) == Some(r.value.value)
    ensures line != [] && |Split(line, ':')| >= 2 && Atoi(Split(TrimSpace(Split(line, ':')[1]), ' ')[0]).None?
      ==> r == Aborted(MalformedValue)
  {
    if line == [] then Err
    else
      var parts := Split(line, ':');
      if |parts| < 2 then Aborted(MissingColon)
      else
        var token := Split(TrimSpace(parts[1]), ' ')[0];
        match Atoi(token)
        case None => Aborted(MalformedValue)
        case Some(v) => Ok(SmemStat(parts[0], v))
  }

  /** A header whose first token has no `-` ends the run; a parsed one had a `-`. */
  lemma HeaderLineNeedsRange(line: string)
    ensures ParseHeaderLine(line).Ok? ==> '-' in Split(line, ' ')[0]
    ensures '-' !in Split(line, ' ')[0] ==> ParseHeaderLine(line).Aborted?
  {
    SplitPieces(Split(line, ' ')[0], '-');
  }

  /**
   * A non-empty line without `:` ends the run; a parsed line is named by the text
   * before its first `:`, unchanged.
   */
  lemma StatLineName(line: string)
    ensures line != [] && ':' !in line ==> ParseStatLine(line) == Aborted(MissingColon)
    ensures ParseStatLine(line).Ok? ==>
      ':' in line && ParseStatLine(line).value.name == line[..IndexOf(line, ':')]
  {
    SplitPieces(line, ':');
  }

  /**
   * The stat lines folded into `stats`, first to last: empty lines are skipped, each
   * stat is stored under its lower-cased name, and the first line that ends the run
   * ends the fold.
   */
  function FoldStats(lines: seq<string>, stats: map<string, int>): (r: Outcome<map<string, int>>)
    ensures !r.Err?
    ensures r.Ok? ==> stats.Keys <= r.value.Keys
  {
    if lines == [] then Ok(stats)
    else if lines[0] == [] then FoldStats(lines[1..], stats)
    else
      match ParseStatLine(lines[0])
      case Aborted(why) => Aborted(why)
      case Err => assert false; Ok(stats)
      case Ok(stat) => FoldStats(lines[1..], stats[Lower(stat.name) := stat.value])
  }

  /** The rollup that the text of the file denotes: the header line, then the stat lines. */
  function RollupOf(pid: int, contents: string): (r: Outcome<SmemRollup>)
    ensures !r.Err?
    ensures r.Ok? ==> r.value.pid == pid && ParseHeaderLine(Split(contents, '\n')[0]) == Ok(r.value.header)
    ensures ParseHeaderLine(Split(contents, '\n')[0]).Aborted? ==> r.Aborted?
  {
    var lines := Split(contents, '\n');
    var header := ParseHeaderLine(lines[0]);
    if !header.Ok? then Aborted(header.why)
    else
      match FoldStats(lines[1..], map[])
      case Ok(stats) => Ok(SmemRollup(pid, header.value, stats))
      case Err => Err
      case Aborted(why) => Aborted(why)
  }

  /** One line of the fold: skipped when empty, the end of the run, or one more stat. */
  lemma FoldStatsHead(lines: seq<string>, stats: map<string, int>)
    requires lines != []
    ensures lines[0] == [] ==> FoldStats(lines, stats) == FoldStats(lines[1..], stats)
    ensures lines[0] != [] && ParseStatLine(lines[0]).Aborted? ==>
      FoldStats(lines, stats) == Aborted(ParseStatLine(lines[0]).why)
    ensures lines[0] != [] && ParseStatLine(lines[0]).Ok? ==>
      var stat := ParseStatLine(lines[0]).value;
      FoldStats(lines, stats) == FoldStats(lines[1..], stats[Lower(stat.name) := stat.value])
  {
  }

  /** `parseSmapsRollup`: the loop over the lines of the file. */
  method ParseSmapsRollup(pid: int, contents: string) returns (r: Outcome<SmemRollup>)
    ensures r == RollupOf(pid, contents)
  {
    var lines := Split(contents, '\n');
    var header := SmemHeader(0, 0);
    var stats: map<string, int> := map[];
    var i := 0;
    while i < |lines|
      invariant 0 <= i <= |lines|
      invariant i == 0 ==> stats == map[]
      invariant i > 0 ==> ParseHeaderLine(lines[0]) == Ok(header)
      invariant i > 0 ==> FoldStats(lines[i..], stats) == FoldStats(lines[1..], map[])
    {
      var line := lines[i];
      ghost var before := stats;
      if i == 0 {
        var h := ParseHeaderLine(line);
        if h.Aborted? {
          return Aborted(h.why);
        }
        header := h.value;
      } else if line != [] {
        var stat := ParseStatLine(line);
        if stat.Aborted? {
          return Aborted(stat.why);
        }
        if stat.Ok? {
          stats := stats[Lower(stat.value.name) := stat.value.value];
        }
      }
      if i > 0 {
        FoldStatsHead(lines[i..], before);
      }
      assert lines[i..][1..] == lines[i + 1..];
      i := i + 1;
    }
    assert lines[i..] == [];
    return Ok(SmemRollup(pid, header, stats));
  }

  /** `readSmapsRollup`: the file text, or an error when it cannot be read or is empty. */
  function ReadSmapsRollup(file: Option<string>): (r: Option<string>)
    ensures r.Some? <==> file.Some? && file.value != []
    ensures r.Some? ==> r.value == file.value
  {
    match file
    case None => None
    case Some(s) => if |s| == 0 then None else Some(s)
  }

  /** `smapsRollupReader`: the message the reader sends to the parser. */
  function SmapsRollupReader(pid: int, file: Option<string>): (raw: SmemRollupRaw)
    ensures raw.pid == pid
    ensures raw.failed <==> ReadSmapsRollup(file).None?
  {
    match ReadSmapsRollup(file)
    case Some(s) => SmemRollupRaw(pid, s, false)
    case None => SmemRollupRaw(pid, "", true)
  }

  /**
   * `smapsRollupParser`: a failed or empty read gives a rollup without stats, any
   * other text is parsed.
   */
  function SmapsRollupParser(pid: int, raw: SmemRollupRaw): (r: Outcome<SmemRollup>)
    ensures raw.failed || raw.contents == [] ==> r == Ok(SmemRollup(pid, SmemHeader(0, 0), map[]))
    ensures !raw.failed && raw.contents != [] ==> r == RollupOf(raw.pid, raw.contents)
  {
    if raw.failed || |raw.contents| == 0 then Ok(SmemRollup(pid, SmemHeader(0, 0), map[]))
    else RollupOf(raw.pid, raw.contents)
  }

  /** The rollups that have at least one stat, in the order received. */
  function KeepNonEmpty(rs: seq<SmemRollup>): (kept: seq<SmemRollup>)
    ensures |kept| <= |rs|
    ensures forall k :: 0 <= k < |kept| ==> |kept[k].stats| > 0 && kept[k] in rs
  {
    if rs == [] then []
    else
      var init := KeepNonEmpty(rs[..|rs| - 1]);
      assert forall r :: r in rs[..|rs| - 1] ==> r in rs;
      var last := rs[|rs| - 1];
      if |last.stats| > 0 then init + [last] else init
  }

  /** One more rollup is kept exactly when it has a stat. */
  lemma KeepNonEmptySnoc(rs: seq<SmemRollup>, r: SmemRollup)
    ensures KeepNonEmpty(rs + [r]) == if |r.stats| > 0 then KeepNonEmpty(rs) + [r] else KeepNonEmpty(rs)
  {
    TakeFront(rs, [r]);
  }

  /** `reduceSmemRollupParsers`: one receive per channel, in map-iteration order. */
  method ReduceSmemRollupParsers(delivered: seq<SmemRollup>) returns (rollups: seq<SmemRollup>)
    ensures rollups == KeepNonEmpty(delivered)
  {
    rollups := [];
    for i := 0 to |delivered|
      invariant rollups == KeepNonEmpty(delivered[..i])
    {
      var rollup := delivered[i];
      if |rollup.stats| > 0 {
        rollups := rollups + [rollup];
      }
      PrefixSnoc(delivered, i);
      KeepNonEmptySnoc(delivered[..i], rollup);
    }
    assert delivered[..|delivered|] == delivered;
  }

  /**
   * `reduceSmemRollupParsersSelect`: `results[c]` is what channel `c` delivers and
   * `picks` is the order in which the select receives them. A received channel is
   * disabled in `open` (its case is set to nil), so it is never chosen again.
   */
  method ReduceSmemRollupParsersSelect(results: seq<SmemRollup>, picks: seq<nat>)
    returns (rollups: seq<SmemRollup>)
    requires IsSchedule(picks, |results|)
    ensures rollups == KeepNonEmpty(Reorder(results, picks))
    ensures multiset(rollups) == multiset(KeepNonEmpty(results))
    ensures |rollups| <= |results|
  {
    var open := new bool[|results|](_ => true);
    rollups := [];
    var remaining := |results|;
    var step := 0;
    while remaining > 0
      invariant 0 <= step <= |picks| && remaining == |picks| - step
      invariant forall c :: 0 <= c < open.Length ==> (open[c] <==> c !in picks[..step])
      invariant rollups == KeepNonEmpty(Reorder(results, picks[..step]))
    {
      var chosen := picks[step];
      var rollup := results[chosen];
      remaining := remaining - 1;
      Disable(open, picks, step);
      if |rollup.stats| > 0 {
        rollups := rollups + [rollup];
      }
      SelectStep(results, picks, step);
      step := step + 1;
    }
    assert picks[..step] == picks;
    SelectKeepsAll(results, picks);
  }

  /** Receiving channel `picks[k]` appends its rollup when it has stats. */
  lemma SelectStep(results: seq<SmemRollup>, picks: seq<nat>, k: nat)
    requires IsSchedule(picks, |results|) && k < |picks|
    ensures var r := results[picks[k]];
      KeepNonEmpty(Reorder(results, picks[..k + 1])) ==
        if |r.stats| > 0 then KeepNonEmpty(Reorder(results, picks[..k])) + [r]
        else KeepNonEmpty(Reorder(results, picks[..k]))
  {
    ReorderSnoc(results, picks, k);
    KeepNonEmptySnoc(Reorder(results, picks[..k]), results[picks[k]]);
  }

  /** Whatever the order of receipt, the kept rollups are those of the results. */
  lemma SelectKeepsAll(results: seq<SmemRollup>, picks: seq<nat>)
    requires IsSchedule(picks, |results|)
    ensures multiset(KeepNonEmpty(Reorder(results, picks))) == multiset(KeepNonEmpty(results))
    ensures |KeepNonEmpty(Reorder(results, picks))| <= |results|
  {
    ReorderPermutes(results, picks);
    KeepNonEmptyPermutation(Reorder(results, picks), results);
  }

  /** A rollup occurs among the kept ones as often as among all, if it has stats, else never. */
  lemma {:induction false} KeepNonEmptyCount(rs: seq<SmemRollup>)
    ensures forall r :: multiset(KeepNonEmpty(rs))[r] == if |r.stats| > 0 then multiset(rs)[r] else 0
  {
    if rs != [] {
      var init := rs[..|rs| - 1];
      KeepNonEmptyCount(init);
      assert rs == init + [rs[|rs| - 1]];
    }
  }

  /** Keeping the non-empty rollups does not depend on the order in which they arrive. */
  lemma KeepNonEmptyPermutation(a: seq<SmemRollup>, b: seq<SmemRollup>)
    requires multiset(a) == multiset(b)
    ensures multiset(KeepNonEmpty(a)) == multiset(KeepNonEmpty(b))
  {
    KeepNonEmptyCount(a);
    KeepNonEmptyCount(b);
    assert forall r :: multiset(KeepNonEmpty(a))[r] == multiset(KeepNonEmpty(b))[r];
  }

  /**
   * The two reducers keep the same rollups: whatever order the iterative reducer
   * meets the channels in, and whatever order the select receives them in.
   */
  lemma ReducersAgree(results: seq<SmemRollup>, delivered: seq<SmemRollup>, picks: seq<nat>)
    requires multiset(delivered) == multiset(results)
    requires IsSchedule(picks, |results|)
    ensures multiset(KeepNonEmpty(delivered)) == multiset(KeepNonEmpty(Reorder(results, picks)))
  {
    ReorderPermutes(results, picks);
    KeepNonEmptyPermutation(delivered, Reorder(results, picks));
  }

  // ---------------------------------------------------------------------------
  // Properties of the parser

  /** Every key that the fold stores is lower-case. */
  lemma {:induction false} FoldStatsKeysLower(lines: seq<string>, acc: map<string, int>)
    requires forall k :: k in acc ==> Lower(k) == k
    ensures FoldStats(lines, acc).Ok? ==> forall k :: k in FoldStats(lines, acc).value ==> Lower(k) == k
  {
    if lines != [] {
      if lines[0] == [] {
        FoldStatsKeysLower(lines[1..], acc);
      } else {
        match ParseStatLine(lines[0])
        case Aborted(_) =>
        case Err =>
        case Ok(stat) =>
          LowerIdempotent(stat.name);
          FoldStatsKeysLower(lines[1..], acc[Lower(stat.name) := stat.value]);
      }
    }
  }

  /** In a parsed rollup every stat name is lower-cased. */
  lemma RollupKeysLower(pid: int, contents: string)
    requires RollupOf(pid, contents).Ok?
    ensures forall k :: k in RollupOf(pid, contents).value.stats ==> Lower(k) == k
  {
    FoldStatsKeysLower(Split(contents, '\n')[1..], map[]);
  }

  /** The value of the last stat line whose lower-cased name is `key`, if there is one. */
  function LastValue(lines: seq<string>, key: string): Option<int>
  {
    if lines == [] then None
    else
      var later := LastValue(lines[1..], key);
      if later.Some? then later
      else
        match ParseStatLine(lines[0])
        case Ok(stat) => if Lower(stat.name) == key then Some(stat.value) else None
        case _ => None
  }

  /**
   * A later line with the same lower-cased name overwrites an earlier one: the fold
   * holds, for each key, the value of the last line with that key, and keeps what
   * it started with for keys that no line names.
   */
  lemma {:induction false} FoldStatsLastWins(lines: seq<string>, acc: map<string, int>, key: string)
    requires FoldStats(lines, acc).Ok?
    ensures LastValue(lines, key).Some? ==>
      key in FoldStats(lines, acc).value && FoldStats(lines, acc).value[key] == LastValue(lines, key).value
    ensures LastValue(lines, key).None? ==>
      (key in FoldStats(lines, acc).value <==> key in acc) &&
      (key in acc ==> FoldStats(lines, acc).value[key] == acc[key])
  {
    if lines != [] {
      if lines[0] == [] {
        FoldStatsLastWins(lines[1..], acc, key);
      } else {
        match ParseStatLine(lines[0])
        case Err =>
        case Ok(stat) => FoldStatsLastWins(lines[1..], acc[Lower(stat.name) := stat.value], key);
      }
    }
  }

  /** In a parsed rollup, each stat is the value of the last line naming it, and only named stats occur. */
  lemma RollupLastWins(pid: int, contents: string, key: string)
    requires RollupOf(pid, contents).Ok?
    ensures var stats := RollupOf(pid, contents).value.stats;
      match LastValue(Split(contents, '\n')[1..], key)
      case Some(v) => key in stats && stats[key] == v
      case None => key !in stats
  {
    FoldStatsLastWins(Split(contents, '\n')[1..], map[], key);
  }

  /** An empty line among the stat lines adds nothing. */
  lemma {:induction false} EmptyLineIgnored(a: seq<string>, b: seq<string>, acc: map<string, int>)
    ensures FoldStats(a + [[]] + b, acc) == FoldStats(a + b, acc)
  {
    if a == [] {
      assert a + [[]] + b == [[]] + b;
      assert ([[]] + b)[1..] == b;
      assert a + b == b;
    } else {
      assert (a + [[]] + b)[1..] == a[1..] + [[]] + b;
      assert (a + b)[1..] == a[1..] + b;
      assert (a + [[]] + b)[0] == (a + b)[0] == a[0];
      if a[0] == [] {
        EmptyLineIgnored(a[1..], b, acc);
      } else {
        match ParseStatLine(a[0])
        case Aborted(_) =>
        case Err =>
        case Ok(stat) => EmptyLineIgnored(a[1..], b, acc[Lower(stat.name) := stat.value]);
      }
    }
  }

  /** The fold never fails softly, and it ends the run exactly when some line does. */
  lemma {:induction false} FoldStatsAborts(lines: seq<string>, acc: map<string, int>)
    ensures !FoldStats(lines, acc).Err?
    ensures FoldStats(lines, acc).Aborted? <==>
      exists i :: 0 <= i < |lines| && ParseStatLine(lines[i]).Aborted?
  {
    if lines != [] {
      var rest := lines[1..];
      assert forall i :: 0 <= i < |rest| ==> rest[i] == lines[i + 1];
      if lines[0] == [] {
        FoldStatsAborts(rest, acc);
        assert !ParseStatLine(lines[0]).Aborted?;
        if FoldStats(lines, acc).Aborted? {
          var i :| 0 <= i < |rest| && ParseStatLine(rest[i]).Aborted?;
          assert ParseStatLine(lines[i + 1]).Aborted?;
        }
      } else {
        match ParseStatLine(lines[0])
        case Aborted(_) =>
        case Err =>
        case Ok(stat) =>
          FoldStatsAborts(rest, acc[Lower(stat.name) := stat.value]);
          if FoldStats(lines, acc).Aborted? {
            var i :| 0 <= i < |rest| && ParseStatLine(rest[i]).Aborted?;
            assert ParseStatLine(lines[i + 1]).Aborted?;
          }
      }
    }
  }

  /**
   * Malformed input ends the run rather than skipping the line: a non-empty stat
   * line without `:`, or whose value is not a decimal number (the cases that
   * `ParseStatLine`'s contract and `StatLineMalformedValue` spell out), makes the
   * whole parse end, whatever the other lines hold.
   */
  lemma MalformedStatLineAborts(pid: int, contents: string, i: nat)
    requires 1 <= i < |Split(contents, '\n')|
    requires ParseStatLine(Split(contents, '\n')[i]).Aborted?
    ensures RollupOf(pid, contents).Aborted?
  {
    var lines := Split(contents, '\n');
    assert lines[1..][i - 1] == lines[i];
    FoldStatsAborts(lines[1..], map[]);
  }

  /** The header line never adds a stat: the stats are those of the lines after it. */
  lemma StatsAfterHeader(pid: int, headerLine: string, rest: string)
    requires '\n' !in headerLine && ParseHeaderLine(headerLine).Ok?
    requires FoldStats(Split(rest, '\n'), map[]).Ok?
    ensures RollupOf(pid, headerLine + "\n" + rest) ==
      Ok(SmemRollup(pid, ParseHeaderLine(headerLine).value, FoldStats(Split(rest, '\n'), map[]).value))
  {
    SplitAt(headerLine, '\n', rest);
    assert ([headerLine] + Split(rest, '\n'))[1..] == Split(rest, '\n');
  }

  /** A header line whose first token is two hexadecimal numbers joined by `-` yields them. */
  lemma HeaderLineRoundTrip(a: string, b: string, rest: string)
    requires ParseUint(a, 16).Some? && ParseUint(b, 16).Some?
    requires rest == [] || rest[0] == ' '
    ensures ParseHeaderLine(a + "-" + b + rest) == Ok(SmemHeader(Value(a, 16), Value(b, 16)))
  {
    var token := a + "-" + b;
    RangeToken(a, b);
    FirstToken(token, rest);
    assert a + "-" + b + rest == token + rest;
  }

  /**
   * A header whose first token is `<start>-<end>` with a start or an end that is
   * not a 64-bit hexadecimal number ends the run.
   */
  lemma HeaderLineMalformedHex(a: string, b: string, rest: string)
    requires '-' !in a && '-' !in b && ' ' !in a && ' ' !in b
    requires rest == [] || rest[0] == ' '
    requires ParseUint(a, 16).None? || ParseUint(b, 16).None?
    ensures ParseHeaderLine(a + "-" + b + rest) == Aborted(MalformedHex)
  {
    var token := a + "-" + b;
    assert token == a + ['-'] + b;
    assert ' ' !in token;
    FirstToken(token, rest);
    SplitOnce(a, '-', b);
  }

  /** Two hexadecimal numbers joined by `-` hold no space and split back at the `-`. */
  lemma RangeToken(a: string, b: string)
    requires ParseUint(a, 16).Some? && ParseUint(b, 16).Some?
    ensures ' ' !in a + "-" + b
    ensures Split(a + "-" + b, '-') == [a, b]
  {
    assert DigitValue(' ') == 16 && DigitValue('-') == 16;
    var token := a + "-" + b;
    assert forall k :: 0 <= k < |token| ==> token[k] == '-' || DigitValue(token[k]) < 16;
    assert '-' !in a && '-' !in b;
    assert token == a + ['-'] + b;
    SplitAt(a, '-', b);
    SplitNone(b, '-');
  }

  // ---------------------------------------------------------------------------
  // Round trip: rendering stats as `name: value kB` lines and parsing them back

  /**
   * A stat line as printed: the name, `:`, a run of `pad` spaces, the value in
   * decimal and ` kB`. The kernel writes capitalised names padded to a column;
   * any case and any padding is allowed here.
   */
  datatype StatText = StatText(name: string, pad: nat, value: int)

  function Spaces(n: nat): (s: string)
    ensures |s| == n && forall k :: 0 <= k < n ==> s[k] == ' '
  {
    seq(n, _ => ' ')
  }

  /** The text of one stat line. */
  function StatLine(e: StatText): string
  {
    e.name + ":" + Spaces(e.pad) + Itoa(e.value) + " kB"
  }

  /** Stat lines, each ended by a newline. */
  function StatBlock(entries: seq<StatText>): string
  {
    if entries == [] then [] else StatLine(entries[0]) + "\n" + StatBlock(entries[1..])
  }

  /** The lines of the block. */
  function StatLines(entries: seq<StatText>): seq<string>
  {
    if entries == [] then [] else [StatLine(entries[0])] + StatLines(entries[1..])
  }

  /** The map the entries denote, keyed by lower-cased name, later entries winning. */
  function StatsMap(entries: seq<StatText>): map<string, int>
  {
    if entries == [] then map[]
    else map[Lower(entries[0].name) := entries[0].value] + StatsMap(entries[1..])
  }

  /** A name without `:` or newline, with a 64-bit value. */
  predicate PlainStat(e: StatText)
  {
    ':' !in e.name && '\n' !in e.name && Int64Min <= e.value <= Int64Max
  }

  /** A value token: non-empty, without spaces and without `:`. */
  predicate ValueToken(v: string)
  {
    v != [] && forall k :: 0 <= k < |v| ==> !IsSpace(v[k]) && v[k] != ':'
  }

  lemma SplitOnce(a: string, sep: char, b: string)
    requires sep !in a && sep !in b
    ensures Split(a + [sep] + b, sep) == [a, b]
  {
    SplitAt(a, sep, b);
    SplitNone(b, sep);
  }

  /**
   * After `name:`, a run of spaces, a value token and a tail that is empty or starts
   * with a space, the line splits at its one `:` and the value token is the first
   * word of the trimmed second piece.
   */
  lemma ValueAfterColon(name: string, pad: nat, v: string, rest: string)
    requires ':' !in name && ValueToken(v) && ':' !in rest
    requires rest == [] || rest[0] == ' '
    ensures Split(name + ":" + Spaces(pad) + v + rest, ':') == [name, Spaces(pad) + v + rest]
    ensures Split(TrimSpace(Spaces(pad) + v + rest), ' ')[0] == v
  {
    ColonFree(pad, v, rest);
    Regroup(name, Spaces(pad), v, rest);
    SplitOnce(name, ':', Spaces(pad) + v + rest);
    TrimmedToken(pad, v, rest);
  }

  lemma Regroup(name: string, p: string, v: string, rest: string)
    ensures name + ":" + p + v + rest == name + [':'] + (p + v + rest)
  {
  }

  lemma ColonFree(pad: nat, v: string, rest: string)
    requires ValueToken(v) && ':' !in rest
    ensures ':' !in Spaces(pad) + v + rest
  {
    assert ':' !in v;
  }

  /** Trimming a run of spaces, a value token and a space-led tail leaves the token first. */
  lemma TrimmedToken(pad: nat, v: string, rest: string)
    requires ValueToken(v)
    requires rest == [] || rest[0] == ' '
    ensures Split(TrimSpace(Spaces(pad) + v + rest), ' ')[0] == v
  {
    var x := Spaces(pad) + v + rest;
    assert forall k :: 0 <= k < pad ==> x[k] == ' ';
    assert forall k :: pad <= k < pad + |v| ==> x[k] == v[k - pad];
    assert x[pad..pad + |v|] == v;
    FirstWord(x, pad, pad + |v|);
  }

  /** A decimal rendering is a value token. */
  lemma ItoaIsToken(n: int)
    ensures ValueToken(Itoa(n))
  {
  }

  /** A stat line printed with any padding parses back to its name and value. */
  lemma StatLineRoundTrip(e: StatText)
    requires ':' !in e.name && Int64Min <= e.value <= Int64Max
    ensures ParseStatLine(StatLine(e)) == Ok(SmemStat(e.name, e.value))
  {
    ItoaIsToken(e.value);
    ValueAfterColon(e.name, e.pad, Itoa(e.value), " kB");
    AtoiItoa(e.value);
  }

  /**
   * A value token that `strconv.Atoi` rejects, after `name:` and a run of spaces,
   * ends the run, whatever follows it after a space.
   */
  lemma StatLineMalformedValue(name: string, pad: nat, v: string, rest: string)
    requires ':' !in name && ValueToken(v) && ':' !in rest
    requires rest == [] || rest[0] == ' '
    requires Atoi(v).None?
    ensures ParseStatLine(name + ":" + Spaces(pad) + v + rest) == Aborted(MalformedValue)
  {
    ValueAfterColon(name, pad, v, rest);
  }

  /** Splitting the block gives its lines, and one empty line after the last newline. */
  lemma {:induction false} SplitStatBlock(entries: seq<StatText>)
    requires forall i :: 0 <= i < |entries| ==> PlainStat(entries[i])
    ensures Split(StatBlock(entries), '\n') == StatLines(entries) + [[]]
  {
    if entries == [] {
      SplitNone([], '\n');
    } else {
      var e := entries[0];
      assert '\n' !in Itoa(e.value);
      assert '\n' !in StatLine(e);
      SplitStatBlock(entries[1..]);
      assert StatBlock(entries) == StatLine(e) + ['\n'] + StatBlock(entries[1..]);
      SplitAt(StatLine(e), '\n', StatBlock(entries[1..]));
    }
  }

  /** One stat line in front of the rest stores its stat and goes on. */
  lemma FoldStatsCons(lines: seq<string>, acc: map<string, int>, e: SmemStat)
    requires lines != [] && lines[0] != [] && ParseStatLine(lines[0]) == Ok(e)
    ensures FoldStats(lines, acc) == FoldStats(lines[1..], acc[Lower(e.name) := e.value])
  {
  }

  lemma UnionStep(acc: map<string, int>, k: string, v: int, rest: map<string, int>)
    ensures acc[k := v] + rest == acc + (map[k := v] + rest)
  {
  }

  /** Each line is non-empty and parses to the name and value of the entry at its place. */
  predicate ParsesTo(lines: seq<string>, entries: seq<StatText>)
  {
    |lines| == |entries| &&
    (lines != [] ==>
      lines[0] != [] && ParseStatLine(lines[0]) == Ok(SmemStat(entries[0].name, entries[0].value)) &&
      ParsesTo(lines[1..], entries[1..]))
  }

  /** Lines that parse to the entries, then an empty line, fold to the entries' map. */
  lemma {:induction false} FoldParsedLines(lines: seq<string>, entries: seq<StatText>, acc: map<string, int>)
    requires ParsesTo(lines, entries)
    ensures FoldStats(lines + [[]], acc) == Ok(acc + StatsMap(entries))
  {
    if lines == [] {
      assert lines + [[]] == [[]];
      UnionEmpty(acc);
    } else {
      var e := entries[0];
      var full := lines + [[]];
      DropFront(lines, [[]]);
      FoldStatsCons(full, acc, SmemStat(e.name, e.value));
      FoldParsedLines(lines[1..], entries[1..], acc[Lower(e.name) := e.value]);
      UnionStep(acc, Lower(e.name), e.value, StatsMap(entries[1..]));
    }
  }

  /** The lines printed for plain entries parse back to them. */
  lemma {:induction false} StatLinesParse(entries: seq<StatText>)
    requires forall i :: 0 <= i < |entries| ==> PlainStat(entries[i])
    ensures ParsesTo(StatLines(entries), entries)
  {
    if entries != [] {
      assert PlainStat(entries[0]);
      StatLineRoundTrip(entries[0]);
      StatLinesParse(entries[1..]);
    }
  }

  /** The block's lines, then an empty line, fold to the entries' map. */
  lemma FoldStatBlock(entries: seq<StatText>)
    requires forall i :: 0 <= i < |entries| ==> PlainStat(entries[i])
    ensures FoldStats(StatLines(entries) + [[]], map[]) == Ok(StatsMap(entries))
  {
    StatLinesParse(entries);
    FoldParsedLines(StatLines(entries), entries, map[]);
    UnionEmpty(StatsMap(entries));
  }

  /** The lower-cased names of the entries. */
  function Names(entries: seq<StatText>): set<string>
  {
    if entries == [] then {} else {Lower(entries[0].name)} + Names(entries[1..])
  }

  /** The map's keys are the entries' lower-cased names. */
  lemma {:induction false} StatsMapKeys(entries: seq<StatText>)
    ensures StatsMap(entries).Keys == Names(entries)
  {
    if entries != [] {
      StatsMapKeys(entries[1..]);
    }
  }

  /** With distinct lower-cased names, the map holds each entry's value under its lower-cased name. */
  lemma {:induction false} StatsMapExact(entries: seq<StatText>)
    requires forall i, j :: 0 <= i < j < |entries| ==> Lower(entries[i].name) != Lower(entries[j].name)
    ensures forall i :: 0 <= i < |entries| ==>
      Lower(entries[i].name) in StatsMap(entries) && StatsMap(entries)[Lower(entries[i].name)] == entries[i].value
  {
    if entries != [] {
      var tail := entries[1..];
      StatsMapExact(tail);
      forall i | 0 <= i < |entries|
        ensures Lower(entries[i].name) in StatsMap(entries) && StatsMap(entries)[Lower(entries[i].name)] == entries[i].value
      {
        if i > 0 {
          assert entries[i] == tail[i - 1];
        } else {
          StatsMapKeys(tail);
          NamesMember(tail, Lower(entries[0].name));
          assert Lower(entries[0].name) !in StatsMap(tail);
        }
      }
    }
  }

  /** A key is among the names exactly when some entry's name lower-cases to it. */
  lemma {:induction false} NamesMember(entries: seq<StatText>, name: string)
    ensures name in Names(entries) <==> exists i :: 0 <= i < |entries| && Lower(entries[i].name) == name
  {
    if entries != [] {
      NamesMember(entries[1..], name);
      if name in Names(entries[1..]) {
        var i :| 0 <= i < |entries[1..]| && Lower(entries[1..][i].name) == name;
        assert Lower(entries[i + 1].name) == name;
      }
      if exists i :: 0 <= i < |entries| && Lower(entries[i].name) == name {
        var i :| 0 <= i < |entries| && Lower(entries[i].name) == name;
        if i > 0 {
          assert Lower(entries[1..][i - 1].name) == name;
        }
      }
    }
  }

  /** The stat block splits into its lines and folds to the entries' map. */
  lemma StatBlockFolds(entries: seq<StatText>)
    requires forall i :: 0 <= i < |entries| ==> PlainStat(entries[i])
    ensures FoldStats(Split(StatBlock(entries), '\n'), map[]) == Ok(StatsMap(entries))
  {
    SplitStatBlock(entries);
    FoldStatBlock(entries);
  }

  /**
   * Round trip: a valid header line followed by `Name:   value kB` lines, with
   * names of any case free of `:` and newlines and any padding, parses back to the
   * map those lines denote, keyed by lower-cased name, a repeated key keeping its
   * last value.
   */
  lemma RollupRoundTrip(pid: int, headerLine: string, entries: seq<StatText>)
    requires '\n' !in headerLine && ParseHeaderLine(headerLine).Ok?
    requires forall i :: 0 <= i < |entries| ==> PlainStat(entries[i])
    ensures RollupOf(pid, headerLine + "\n" + StatBlock(entries))
      == Ok(SmemRollup(pid, ParseHeaderLine(headerLine).value, StatsMap(entries)))
  {
    var block := StatBlock(entries);
    StatBlockFolds(entries);
    StatsAfterHeader(pid, headerLine, block);
  }

  // ---------------------------------------------------------------------------
  // Properties of reading and gathering

  /** An unreadable or empty file gives a rollup without stats, which no reducer keeps. */
  lemma UnreadableRollupDropped(pid: int, file: Option<string>)
    requires file.None? || file == Some([])
    ensures SmapsRollupParser(pid, SmapsRollupReader(pid, file)) == Ok(SmemRollup(pid, SmemHeader(0, 0), map[]))
    ensures KeepNonEmpty([SmemRollup(pid, SmemHeader(0, 0), map[])]) == []
  {
    assert [SmemRollup(pid, SmemHeader(0, 0), map[])][..0] == [];
  }
}
