/**
 * The command line of the program: the sort-key validation, with its exit code, and
 * the choice of the processes to report, from the pid arguments or, without any,
 * from the entries of `/proc`.
 */
module Arguments {
  import opened Common
  import opened Strings
  import opened Numbers
  import opened Sorting

  const ExitInvalidArguments: int := 1

  /** The sort key when neither `--key` nor `-k` is given. */
  const DefaultSortKey: string := "pid"

  /** The keys the program sorts on, in lower case. */
  const AllowedSortKeys: set<string> := {"pid", "rss", "pss", "uss", "user", "command"}

  /**
   * The sort-key validation: `None` lets the program go on, `Some(code)` ends it with
   * that exit code.
   */
  function CheckSortKey(key: string): (exit: Option<int>)
    ensures exit.None? <==> Lower(key) in AllowedSortKeys
    ensures exit.Some? ==> exit.value == ExitInvalidArguments
  {
    if Lower(key) in AllowedSortKeys then None else Some(ExitInvalidArguments)
  }

  /**
   * A key passes validation exactly when the sorter has a comparator for it, so
   * the sort never meets a key it cannot order by.
   */
  lemma CheckedKeySorts(key: string)
    ensures CheckSortKey(key).None? <==> SortKeyOf(key).Some?
  {
    var k := Lower(key);
    if k in AllowedSortKeys {
      assert k == "pid" || k == "rss" || k == "pss" || k == "uss" || k == "user" || k == "command";
    }
  }

  /** The default key passes validation. */
  lemma DefaultSortKeyAllowed()
    ensures CheckSortKey(DefaultSortKey) == None
  {
    assert Lower(DefaultSortKey) == "pid";
  }

  // ---------------------------------------------------------------------------
  // Choosing the processes

  /** The pid arguments that parse as decimal integers and are positive, in order. */
  function PositivePids(args: seq<string>): (pids: seq<int>)
    ensures |pids| <= |args|
    ensures forall p :: p in pids ==> 0 < p <= Int64Max
  {
    if args == [] then []
    else
      var pid := Atoi(args[|args| - 1]);
      PositivePids(args[..|args| - 1]) + if pid.Some? && pid.value > 0 then [pid.value] else []
  }

  /** The names of the entries of `/proc` that parse as decimal integers, in order. */
  function ProcessIds(names: seq<string>): (ids: seq<int>)
    ensures |ids| <= |names|
    ensures forall p :: p in ids ==> Int64Min <= p <= Int64Max
  {
    if names == [] then []
    else
      var pid := Atoi(names[|names| - 1]);
      ProcessIds(names[..|names| - 1]) + if pid.Some? then [pid.value] else []
  }

  /** The positive elements, in order. */
  function KeepPositive(xs: seq<int>): (ys: seq<int>)
    ensures |ys| <= |xs|
    ensures forall y :: y in ys ==> y in xs && y > 0
  {
    if xs == [] then []
    else KeepPositive(xs[..|xs| - 1]) + if xs[|xs| - 1] > 0 then [xs[|xs| - 1]] else []
  }

  /** The loop of the pid selection over the arguments. */
  method PidsFromArgs(args: seq<string>) returns (pids: seq<int>)
    ensures pids == PositivePids(args)
  {
    pids := [];
    for i := 0 to |args|
      invariant pids == PositivePids(args[..i])
    {
      var pid := Atoi(args[i]);
      if pid.Some? && pid.value > 0 {
        pids := pids + [pid.value];
      }
      PrefixSnoc(args, i);
      assert args[..i + 1][..i] == args[..i];
    }
    assert args[..|args|] == args;
  }

  /** `allProcesses`: `names` are the entries of `/proc`, in the order they are listed. */
  method AllProcesses(names: seq<string>) returns (processes: seq<int>)
    ensures processes == ProcessIds(names)
  {
    processes := [];
    for i := 0 to |names|
      invariant processes == ProcessIds(names[..i])
    {
      var pid := Atoi(names[i]);
      if pid.Some? {
        processes := processes + [pid.value];
      }
      PrefixSnoc(names, i);
      assert names[..i + 1][..i] == names[..i];
    }
    assert names[..|names|] == names;
  }

  /** The pids to report: from the arguments when there are any, else every process. */
  method SelectPids(args: seq<string>, procNames: seq<string>) returns (pids: seq<int>)
    ensures args != [] ==> pids == PositivePids(args)
    ensures args == [] ==> pids == ProcessIds(procNames)
  {
    if |args| > 0 {
      pids := PidsFromArgs(args);
    } else {
      pids := AllProcesses(procNames);
    }
  }

  /**
   * A pid is chosen from the arguments exactly when some argument parses to it
   * and it is positive.
   */
  lemma {:induction false} PositivePidsContents(args: seq<string>)
    ensures forall p :: p in PositivePids(args) <==> p > 0 && exists i :: 0 <= i < |args| && Atoi(args[i]) == Some(p)
  {
    PositivePidsFromIds(args);
    ProcessIdsContents(args);
    KeepPositiveContents(ProcessIds(args));
  }

  /** The positive filter keeps exactly the positive values of its input. */
  lemma {:induction false} KeepPositiveContents(xs: seq<int>)
    ensures forall y :: y in KeepPositive(xs) <==> y in xs && y > 0
  {
    if xs != [] {
      var init := xs[..|xs| - 1];
      KeepPositiveContents(init);
      assert xs == init + [xs[|xs| - 1]];
    }
  }

  /** A name of `/proc` gives a pid exactly when it parses, whatever its sign. */
  lemma {:induction false} ProcessIdsContents(names: seq<string>)
    ensures forall p :: p in ProcessIds(names) <==> exists i :: 0 <= i < |names| && Atoi(names[i]) == Some(p)
  {
    if names != [] {
      var init := names[..|names| - 1];
      ProcessIdsContents(init);
      forall i | 0 <= i < |init| ensures names[i] == init[i] { }
    }
  }

  /** The selection keeps the order of the arguments: it distributes over concatenation. */
  lemma {:induction false} PositivePidsAppend(a: seq<string>, b: seq<string>)
    ensures PositivePids(a + b) == PositivePids(a) + PositivePids(b)
  {
    if b == [] {
      assert a + b == a;
    } else {
      DropBack(a, b);
      PositivePidsAppend(a, b[..|b| - 1]);
    }
  }

  /**
   * The arguments are filtered as `/proc` names are, and then only the positive
   * pids are kept.
   */
  lemma {:induction false} PositivePidsFromIds(args: seq<string>)
    ensures PositivePids(args) == KeepPositive(ProcessIds(args))
  {
    if args != [] {
      var init := args[..|args| - 1];
      PositivePidsFromIds(init);
      var pid := Atoi(args[|args| - 1]);
      var ids := ProcessIds(init) + if pid.Some? then [pid.value] else [];
      assert ProcessIds(args) == ids;
      if pid.Some? {
        assert ids[..|ids| - 1] == ProcessIds(init);
      } else {
        assert ids == ProcessIds(init);
      }
    }
  }
}
