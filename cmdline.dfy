/**
 * The command-line source: the text of a process's `cmdline` file (its arguments,
 * each ended by a NUL) becomes one line of text, and the per-process results are
 * gathered into a map from process id to command line.
 */
module CmdLines {
  import opened Common
  import opened Strings

  /** What a reader sends: the process, its command line, and whether reading failed. */
  datatype CmdLine = CmdLine(pid: int, cmdline: string, failed: bool)

  predicate IsNul(c: char)
  {
    c == '\0'
  }

  /** `strings.NewReplacer("\x00", " ")`: every NUL becomes a space. */
  function ReplaceNul(s: string): (r: string)
    ensures |r| == |s|
  {
    if s == [] then [] else [if s[0] == '\0' then ' ' else s[0]] + ReplaceNul(s[1..])
  }

  /**
   * `readCmdLine`: `file` is the content of the file, or `None` when it cannot be
   * read. The NULs at both ends are trimmed and the others become spaces; a read
   * error, and a text that is empty after trimming, give an error (`None`).
   */
  function ReadCmdLine(file: Option<string>): (r: Option<string>)
    ensures file.None? ==> r.None?
    ensures file.Some? ==>
      (r.None? <==> forall k :: 0 <= k < |file.value| ==> file.value[k] == '\0')
    ensures r.Some? ==> r.value != [] && '\0' !in r.value
  {
    match file
    case None => None
    case Some(contents) =>
      var s := ReplaceNul(Trim(contents, IsNul));
      ReplaceNulNone(Trim(contents, IsNul));
      TrimIsSlice(contents, IsNul);
      if |s| == 0 then None else Some(s)
  }

  /** `cmdLineReader`: the message for the reducer; a failed read sends an empty line. */
  function CmdLineReader(pid: int, file: Option<string>): (c: CmdLine)
    ensures c.pid == pid
    ensures c.failed <==> ReadCmdLine(file).None?
    ensures !c.failed ==> c.cmdline == ReadCmdLine(file).value
    ensures c.failed ==> c.cmdline == []
  {
    match ReadCmdLine(file)
    case Some(s) => CmdLine(pid, s, false)
    case None => CmdLine(pid, [], true)
  }

  // ---------------------------------------------------------------------------
  // Replacing and trimming NULs

  /** The replacement is pointwise: NUL becomes space, anything else stays. */
  lemma {:induction false} ReplaceNulAt(s: string)
    ensures forall k :: 0 <= k < |s| ==> ReplaceNul(s)[k] == if s[k] == '\0' then ' ' else s[k]
  {
    if s != [] {
      ReplaceNulAt(s[1..]);
      forall k | 0 < k < |s| ensures ReplaceNul(s)[k] == ReplaceNul(s[1..])[k - 1] {
      }
    }
  }

  /** No NUL remains after the replacement. */
  lemma ReplaceNulNone(s: string)
    ensures '\0' !in ReplaceNul(s)
  {
    ReplaceNulAt(s);
  }

  /** The replacement distributes over concatenation. */
  lemma {:induction false} ReplaceNulAppend(a: string, b: string)
    ensures ReplaceNul(a + b) == ReplaceNul(a) + ReplaceNul(b)
  {
    if a != [] {
      DropFront(a, b);
      ReplaceNulAppend(a[1..], b);
      var x := [if a[0] == '\0' then ' ' else a[0]];
      assert ReplaceNul(a + b) == x + ReplaceNul(a[1..] + b);
      assert ReplaceNul(a) == x + ReplaceNul(a[1..]);
      assert ReplaceNul(a) + ReplaceNul(b) == x + (ReplaceNul(a[1..]) + ReplaceNul(b));
    } else {
      assert a + b == b;
    }
  }

  /** A text without NUL is left as it is. */
  lemma {:induction false} ReplaceNulKeeps(s: string)
    requires '\0' !in s
    ensures ReplaceNul(s) == s
  {
    if s != [] {
      ReplaceNulKeeps(s[1..]);
    }
  }

  /**
   * What the command line holds, character by character: the file with its leading
   * and trailing NULs dropped and each remaining NUL shown as a space.
   */
  lemma ReadCmdLineChars(contents: string)
    requires ReadCmdLine(Some(contents)).Some?
    ensures var r := ReadCmdLine(Some(contents)).value; var i := TrimStart(contents, IsNul);
      && i + |r| <= |contents|
      && (forall k :: 0 <= k < |r| ==> r[k] == if contents[i + k] == '\0' then ' ' else contents[i + k])
      && (forall k :: 0 <= k < i ==> contents[k] == '\0')
      && (forall k :: i + |r| <= k < |contents| ==> contents[k] == '\0')
      && contents[i] != '\0' && contents[i + |r| - 1] != '\0'
  {
    var t := Trim(contents, IsNul);
    TrimIsSlice(contents, IsNul);
    ReplaceNulAt(t);
  }

  /** A command line read back as a file (it has no NUL) gives itself. */
  lemma ReadCmdLineStable(file: Option<string>)
    requires ReadCmdLine(file).Some?
    ensures ReadCmdLine(ReadCmdLine(file)) == ReadCmdLine(file)
  {
    var s := ReadCmdLine(file).value;
    assert forall k :: 0 <= k < |s| ==> !IsNul(s[k]);
    ReplaceNulKeeps(s);
  }

  /** The file the kernel writes: every argument followed by a NUL. */
  function ArgvFile(args: seq<string>): string
  {
    if args == [] then [] else args[0] + "\0" + ArgvFile(args[1..])
  }

  /** The arguments joined by single spaces, as `ps` shows them. */
  function ArgvLine(args: seq<string>): string
    requires args != []
  {
    Join(args, ' ')
  }

  /** With no NUL inside an argument, the file is the NUL-joined arguments and one last NUL. */
  lemma {:induction false} ArgvFileJoin(args: seq<string>)
    requires args != []
    ensures ArgvFile(args) == Join(args, '\0') + "\0"
  {
    if |args| > 1 {
      ArgvFileJoin(args[1..]);
    } else {
      assert args[1..] == [];
    }
  }

  /** Replacing the separators of the NUL-joined arguments gives the space-joined ones. */
  lemma {:induction false} ReplaceNulJoin(args: seq<string>)
    requires args != []
    requires forall i :: 0 <= i < |args| ==> '\0' !in args[i]
    ensures ReplaceNul(Join(args, '\0')) == Join(args, ' ')
  {
    ReplaceNulKeeps(args[0]);
    if |args| > 1 {
      ReplaceNulJoin(args[1..]);
      ReplaceNulAppend(args[0] + "\0", Join(args[1..], '\0'));
      ReplaceNulAppend(args[0], "\0");
    }
  }

  /** The joined text starts with the first argument's first character. */
  lemma {:induction false} JoinFirst(args: seq<string>, sep: char)
    requires args != [] && args[0] != []
    ensures Join(args, sep) != [] && Join(args, sep)[0] == args[0][0]
  {
  }

  /** The joined text ends with the last argument's last character. */
  lemma {:induction false} JoinLast(args: seq<string>, sep: char)
    requires args != [] && args[|args| - 1] != []
    ensures Join(args, sep) != []
    ensures Join(args, sep)[|Join(args, sep)| - 1] == args[|args| - 1][|args[|args| - 1]| - 1]
  {
    if |args| > 1 {
      assert args[1..][|args[1..]| - 1] == args[|args| - 1];
      JoinLast(args[1..], sep);
    }
  }

  /**
   * Round trip: the file the kernel writes for arguments without NUL, whose first
   * and last arguments are not empty, reads back as the arguments joined by spaces.
   */
  lemma ReadCmdLineArgv(args: seq<string>)
    requires args != [] && args[0] != [] && args[|args| - 1] != []
    requires forall i :: 0 <= i < |args| ==> '\0' !in args[i]
    ensures ReadCmdLine(Some(ArgvFile(args))) == Some(ArgvLine(args))
  {
    var joined := Join(args, '\0');
    ArgvFileJoin(args);
    JoinFirst(args, '\0');
    JoinLast(args, '\0');
    assert args[0][0] in args[0];
    assert args[|args| - 1][|args[|args| - 1]| - 1] in args[|args| - 1];
    var file := joined + "\0";
    assert TrimLeft(file, IsNul) == file;
    assert file[..|file| - 1] == joined;
    assert TrimRight(joined, IsNul) == joined;
    assert Trim(file, IsNul) == joined;
    ReplaceNulJoin(args);
    JoinFirst(args, ' ');
  }

  // ---------------------------------------------------------------------------
  // Gathering

  /**
   * The map built from the messages in the order they are received: a message
   * without error stores its command line under its pid.
   */
  function CmdLinesOf(delivered: seq<CmdLine>): (m: map<int, string>)
    ensures |m| <= |delivered|
    ensures delivered != [] && !delivered[|delivered| - 1].failed ==>
      delivered[|delivered| - 1].pid in m && m[delivered[|delivered| - 1].pid] == delivered[|delivered| - 1].cmdline
  {
    if delivered == [] then map[]
    else
      var m := CmdLinesOf(delivered[..|delivered| - 1]);
      var c := delivered[|delivered| - 1];
      if c.failed then m else m[c.pid := c.cmdline]
  }

  /** One more message. */
  lemma CmdLinesSnoc(delivered: seq<CmdLine>, c: CmdLine)
    ensures CmdLinesOf(delivered + [c]) ==
      if c.failed then CmdLinesOf(delivered) else CmdLinesOf(delivered)[c.pid := c.cmdline]
  {
    TakeFront(delivered, [c]);
  }

  /** `reduceCmdLines`: one receive per channel, in map-iteration order. */
  method ReduceCmdLines(delivered: seq<CmdLine>) returns (cmdlines: map<int, string>)
    ensures cmdlines == CmdLinesOf(delivered)
  {
    cmdlines := map[];
    for i := 0 to |delivered|
      invariant cmdlines == CmdLinesOf(delivered[..i])
    {
      var c := delivered[i];
      if !c.failed {
        cmdlines := cmdlines[c.pid := c.cmdline];
      }
      PrefixSnoc(delivered, i);
      CmdLinesSnoc(delivered[..i], c);
    }
    assert delivered[..|delivered|] == delivered;
  }

  /**
   * A pid has a command line exactly when an error-free message for it was
   * received, and the line is that of such a message.
   */
  lemma {:induction false} CmdLinesContents(delivered: seq<CmdLine>)
    ensures forall pid :: pid in CmdLinesOf(delivered) <==>
      exists c :: c in delivered && !c.failed && c.pid == pid
    ensures forall pid :: pid in CmdLinesOf(delivered) ==>
      CmdLine(pid, CmdLinesOf(delivered)[pid], false) in delivered
  {
    if delivered != [] {
      var init := delivered[..|delivered| - 1];
      var c := delivered[|delivered| - 1];
      CmdLinesContents(init);
      assert delivered == init + [c];
      assert forall x :: x in delivered <==> x in init || x == c;
    }
  }

  /**
   * The map does not depend on the order in which the messages arrive, as long
   * as no two of them are about the same pid (each channel is for its own pid).
   */
  lemma CmdLinesOrderFree(d1: seq<CmdLine>, d2: seq<CmdLine>)
    requires forall i, j :: 0 <= i < j < |d1| ==> d1[i].pid != d1[j].pid
    requires multiset(d1) == multiset(d2)
    ensures CmdLinesOf(d1) == CmdLinesOf(d2)
  {
    CmdLinesContents(d1);
    CmdLinesContents(d2);
    SameElements(d1, d2);
    var m1 := CmdLinesOf(d1);
    var m2 := CmdLinesOf(d2);
    forall pid ensures pid in m1 <==> pid in m2 {
      if pid in m1 {
        assert CmdLine(pid, m1[pid], false) in d2;
      }
      if pid in m2 {
        assert CmdLine(pid, m2[pid], false) in d1;
      }
    }
    forall pid | pid in m1 ensures m1[pid] == m2[pid] {
      OnePerKey(d1, (c: CmdLine) => c.pid, CmdLine(pid, m1[pid], false), CmdLine(pid, m2[pid], false));
    }
  }
}
