/**
 * Ordering the rollups: a comparator picked by the lower-cased sort key from a
 * table of getters, each compared with `cmp.Compare`, negated for reverse order,
 * and an in-place sort of the rollups by it.
 */
module Sorting {
  import opened Common
  import opened Strings
  import opened Smaps
  import opened PidOwners

  /** The keys of the comparator table. */
  datatype SortKey = ByPid | ByUss | ByPss | ByRss | ByUser | ByCommand

  /** The comparator table, looked up by the lower-cased key; any other key has none. */
  function SortKeyOf(key: string): (k: Option<SortKey>)
    ensures k.Some? <==> Lower(key) in {"pid", "uss", "pss", "rss", "user", "command"}
  {
    match Lower(key)
    case "pid" => Some(ByPid)
    case "uss" => Some(ByUss)
    case "pss" => Some(ByPss)
    case "rss" => Some(ByRss)
    case "user" => Some(ByUser)
    case "command" => Some(ByCommand)
    case _ => None
  }

  /** `cmp.Compare` on integers. */
  function CompareInt(a: int, b: int): (c: int)
    ensures -1 <= c <= 1
    ensures c < 0 <==> a < b
    ensures c == 0 <==> a == b
  {
    if a < b then -1 else if a > b then 1 else 0
  }

  /**
   * Go's `<` on strings, which compares the UTF-8 bytes; on strings held as code
   * points that is the order of the code points, a proper prefix coming first.
   */
  predicate StringLess(a: string, b: string)
  {
    if a == [] then b != []
    else if b == [] then false
    else if a[0] != b[0] then a[0] < b[0]
    else StringLess(a[1..], b[1..])
  }

  lemma {:induction false} StringLessIrreflexive(a: string)
    ensures !StringLess(a, a)
  {
    if a != [] {
      StringLessIrreflexive(a[1..]);
    }
  }

  /** Of two different strings exactly one is the smaller. */
  lemma {:induction false} StringLessTotal(a: string, b: string)
    ensures a == b || StringLess(a, b) || StringLess(b, a)
    ensures !(StringLess(a, b) && StringLess(b, a))
  {
    if a != [] && b != [] && a[0] == b[0] {
      StringLessTotal(a[1..], b[1..]);
      if a[1..] == b[1..] {
        assert a == [a[0]] + a[1..] && b == [b[0]] + b[1..];
      }
    }
  }

  lemma {:induction false} StringLessTransitive(a: string, b: string, c: string)
    requires StringLess(a, b) && StringLess(b, c)
    ensures StringLess(a, c)
  {
    if a != [] && a[0] == b[0] && b[0] == c[0] {
      StringLessTransitive(a[1..], b[1..], c[1..]);
    }
  }

  /** `cmp.Compare` on strings. */
  function CompareStrings(a: string, b: string): (c: int)
    ensures -1 <= c <= 1
    ensures c < 0 <==> StringLess(a, b)
    ensures c == 0 <==> a == b
    ensures c > 0 <==> StringLess(b, a)
  {
    StringLessIrreflexive(a);
    StringLessTotal(a, b);
    if a == b then 0 else if StringLess(a, b) then -1 else 1
  }

  /**
   * The string getters: the owner's name and the command line of the pid, read
   * from the maps as Go reads them, so a pid without an entry has the empty text.
   */
  function UserKey(owners: map<int, PidOwner>, r: SmemRollup): string
  {
    ReadOr(owners, r.pid, NoOwner).username
  }

  function CommandKey(cmdlines: map<int, string>, r: SmemRollup): string
  {
    ReadOr(cmdlines, r.pid, [])
  }

  /**
   * `makeComparator` over the getter that the key selects: -1, 0 or 1, and 0 for
   * two rollups that agree on the key.
   */
  function KeyCompare(key: SortKey, owners: map<int, PidOwner>, cmdlines: map<int, string>,
                      a: SmemRollup, b: SmemRollup): (c: int)
    ensures -1 <= c <= 1
    ensures a == b ==> c == 0
    ensures key == ByPid ==> (c < 0 <==> a.pid < b.pid) && (c == 0 <==> a.pid == b.pid)
    ensures key == ByUser && a.pid !in owners && b.pid !in owners ==> c == 0
    ensures key == ByCommand && a.pid !in cmdlines && b.pid !in cmdlines ==> c == 0
  {
    match key
    case ByPid => CompareInt(a.pid, b.pid)
    case ByUss => CompareInt(USS(a), USS(b))
    case ByPss => CompareInt(PSS(a), PSS(b))
    case ByRss => CompareInt(RSS(a), RSS(b))
    case ByUser => CompareStrings(UserKey(owners, a), UserKey(owners, b))
    case ByCommand => CompareStrings(CommandKey(cmdlines, a), CommandKey(cmdlines, b))
  }

  /** A key whose lower-case form is one of the six names selects that name's getter. */
  lemma SortKeyTable(key: string)
    ensures Lower(key) == "pid" ==> SortKeyOf(key) == Some(ByPid)
    ensures Lower(key) == "uss" ==> SortKeyOf(key) == Some(ByUss)
    ensures Lower(key) == "pss" ==> SortKeyOf(key) == Some(ByPss)
    ensures Lower(key) == "rss" ==> SortKeyOf(key) == Some(ByRss)
    ensures Lower(key) == "user" ==> SortKeyOf(key) == Some(ByUser)
    ensures Lower(key) == "command" ==> SortKeyOf(key) == Some(ByCommand)
  {
  }

  /**
   * Each key compares what its getter reads from the rollup and the maps: the sum
   * of the two private stats, the `pss` or the `rss` stat (a missing stat reading
   * 0), the pid's user name or its command line (a missing entry reading empty).
   */
  lemma KeyCompareGetters(owners: map<int, PidOwner>, cmdlines: map<int, string>, a: SmemRollup, b: SmemRollup)
    ensures KeyCompare(ByUss, owners, cmdlines, a, b) ==
      CompareInt(ReadOr(a.stats, StatPrivateClean, 0) + ReadOr(a.stats, StatPrivateDirty, 0),
                 ReadOr(b.stats, StatPrivateClean, 0) + ReadOr(b.stats, StatPrivateDirty, 0))
    ensures KeyCompare(ByPss, owners, cmdlines, a, b) ==
      CompareInt(ReadOr(a.stats, StatPSS, 0), ReadOr(b.stats, StatPSS, 0))
    ensures KeyCompare(ByRss, owners, cmdlines, a, b) ==
      CompareInt(ReadOr(a.stats, StatRSS, 0), ReadOr(b.stats, StatRSS, 0))
    ensures KeyCompare(ByUser, owners, cmdlines, a, b) ==
      CompareStrings(ReadOr(owners, a.pid, NoOwner).username, ReadOr(owners, b.pid, NoOwner).username)
    ensures KeyCompare(ByCommand, owners, cmdlines, a, b) ==
      CompareStrings(ReadOr(cmdlines, a.pid, []), ReadOr(cmdlines, b.pid, []))
  {
  }

  /** Swapping the arguments negates the key's comparison. */
  lemma KeyCompareSwap(key: SortKey, owners: map<int, PidOwner>, cmdlines: map<int, string>,
                       a: SmemRollup, b: SmemRollup)
    ensures KeyCompare(key, owners, cmdlines, a, b) == -KeyCompare(key, owners, cmdlines, b, a)
  {
    match key
    case ByUser => StringLessTotal(UserKey(owners, a), UserKey(owners, b));
    case ByCommand => StringLessTotal(CommandKey(cmdlines, a), CommandKey(cmdlines, b));
    case _ =>
  }

  /**
   * The function given to `slices.SortFunc`: the key's comparison, and in reverse
   * order the comparison with the arguments swapped (its negation).
   */
  function RollupCompare(key: SortKey, reverse: bool, owners: map<int, PidOwner>,
                         cmdlines: map<int, string>, a: SmemRollup, b: SmemRollup): (c: int)
    ensures -1 <= c <= 1
    ensures !reverse ==> c == KeyCompare(key, owners, cmdlines, a, b)
    ensures reverse ==> c == KeyCompare(key, owners, cmdlines, b, a)
  {
    KeyCompareSwap(key, owners, cmdlines, a, b);
    var c := KeyCompare(key, owners, cmdlines, a, b);
    if reverse then -c else c
  }

  // ---------------------------------------------------------------------------
  // The comparator is a total preorder

  /** Every comparison is -1, 0 or 1, and swapping the arguments negates it. */
  lemma CompareAntisymmetric(key: SortKey, reverse: bool, owners: map<int, PidOwner>,
                             cmdlines: map<int, string>, a: SmemRollup, b: SmemRollup)
    ensures -1 <= RollupCompare(key, reverse, owners, cmdlines, a, b) <= 1
    ensures RollupCompare(key, reverse, owners, cmdlines, a, b) == -RollupCompare(key, reverse, owners, cmdlines, b, a)
  {
    KeyCompareSwap(key, owners, cmdlines, a, b);
  }

  /** `a` before `b` before `c` puts `a` before `c`. */
  lemma CompareTransitive(key: SortKey, reverse: bool, owners: map<int, PidOwner>,
                          cmdlines: map<int, string>, a: SmemRollup, b: SmemRollup, c: SmemRollup)
    requires RollupCompare(key, reverse, owners, cmdlines, a, b) <= 0
    requires RollupCompare(key, reverse, owners, cmdlines, b, c) <= 0
    ensures RollupCompare(key, reverse, owners, cmdlines, a, c) <= 0
  {
    match key
    case ByUser =>
      var x, y, z := UserKey(owners, a), UserKey(owners, b), UserKey(owners, c);
      StringsTransitive(x, y, z, reverse);
    case ByCommand =>
      var x, y, z := CommandKey(cmdlines, a), CommandKey(cmdlines, b), CommandKey(cmdlines, c);
      StringsTransitive(x, y, z, reverse);
    case _ =>
  }

  lemma StringsTransitive(x: string, y: string, z: string, reverse: bool)
    requires (if reverse then -CompareStrings(x, y) else CompareStrings(x, y)) <= 0
    requires (if reverse then -CompareStrings(y, z) else CompareStrings(y, z)) <= 0
    ensures (if reverse then -CompareStrings(x, z) else CompareStrings(x, z)) <= 0
  {
    if !reverse && x != y && y != z {
      StringLessTransitive(x, y, z);
    } else if reverse && x != y && y != z {
      StringLessTransitive(z, y, x);
    }
  }

  // ---------------------------------------------------------------------------
  // Sorting

  /** Every neighbour pair is in order by the comparator of the key. */
  predicate Sorted(s: seq<SmemRollup>, key: SortKey, reverse: bool,
                   owners: map<int, PidOwner>, cmdlines: map<int, string>)
  {
    SortedBy(s, (a, b) => RollupCompare(key, reverse, owners, cmdlines, a, b))
  }

  /** Swapping the arguments negates the comparison. */
  ghost predicate Antisymmetric<T(!new)>(cmp: (T, T) -> int)
  {
    forall x, y :: cmp(x, y) == -cmp(y, x)
  }

  /** Every neighbour pair is in order by `cmp`. */
  predicate SortedBy<T>(s: seq<T>, cmp: (T, T) -> int)
  {
    forall i :: 0 < i < |s| ==> cmp(s[i - 1], s[i]) <= 0
  }

  /**
   * `slices.SortFunc`: sorts `a` in place by `cmp`, which need only be
   * antisymmetric for every neighbour pair to end up in order. Elements are only
   * exchanged, so the result is a permutation of the input.
   */
  method SortFunc<T(!new)>(a: array<T>, cmp: (T, T) -> int)
    requires Antisymmetric(cmp)
    modifies a
    ensures multiset(a[..]) == multiset(old(a[..]))
    ensures SortedBy(a[..], cmp)
  {
    for i := 0 to a.Length
      invariant multiset(a[..]) == multiset(old(a[..]))
      invariant forall p :: 0 < p < i ==> cmp(a[p - 1], a[p]) <= 0
    {
      Insert(a, i, cmp);
    }
  }

  /** Moves `a[i]` down past the larger elements before it, so that `a[..i + 1]` is in order. */
  method Insert<T(!new)>(a: array<T>, i: nat, cmp: (T, T) -> int)
    requires Antisymmetric(cmp)
    requires i < a.Length
    requires forall p :: 0 < p < i ==> cmp(a[p - 1], a[p]) <= 0
    modifies a
    ensures multiset(a[..]) == multiset(old(a[..]))
    ensures forall p :: 0 < p <= i ==> cmp(a[p - 1], a[p]) <= 0
  {
    var j := i;
    while j > 0 && cmp(a[j - 1], a[j]) > 0
      invariant 0 <= j <= i
      invariant multiset(a[..]) == multiset(old(a[..]))
      invariant forall p :: 0 < p <= i && p != j ==> cmp(a[p - 1], a[p]) <= 0
      invariant 0 < j < i ==> cmp(a[j - 1], a[j + 1]) <= 0
    {
      SwapDown(a, j);
      j := j - 1;
    }
  }

  /** Exchanges `a[j - 1]` and `a[j]`. */
  method SwapDown<T>(a: array<T>, j: nat)
    requires 0 < j < a.Length
    modifies a
    ensures a[j - 1] == old(a[j]) && a[j] == old(a[j - 1])
    ensures forall p :: 0 <= p < a.Length && p != j - 1 && p != j ==> a[p] == old(a[p])
    ensures multiset(a[..]) == multiset(old(a[..]))
  {
    a[j - 1], a[j] := a[j], a[j - 1];
  }

  /**
   * `sortRollups`: sorts `rollups` in place by the comparator of the key (which
   * `main` has validated, so the table has it). The result is a permutation of
   * the input with every neighbour pair in order. `slices.SortFunc` is not
   * stable, and neither is this sort required to be.
   */
  method SortRollups(rollups: array<SmemRollup>, owners: map<int, PidOwner>, cmdlines: map<int, string>,
                     key: string, reverse: bool)
    requires SortKeyOf(key).Some?
    modifies rollups
    ensures multiset(rollups[..]) == multiset(old(rollups[..]))
    ensures Sorted(rollups[..], SortKeyOf(key).value, reverse, owners, cmdlines)
  {
    var k := SortKeyOf(key).value;
    var cmp := (a: SmemRollup, b: SmemRollup) => RollupCompare(k, reverse, owners, cmdlines, a, b);
    forall x, y ensures cmp(x, y) == -cmp(y, x) {
      CompareAntisymmetric(k, reverse, owners, cmdlines, x, y);
    }
    SortFunc(rollups, cmp);
  }

  /** Neighbours in order put every earlier element before every later one. */
  lemma {:induction false} SortedAll(s: seq<SmemRollup>, key: SortKey, reverse: bool,
                                     owners: map<int, PidOwner>, cmdlines: map<int, string>)
    requires Sorted(s, key, reverse, owners, cmdlines)
    ensures forall i, j :: 0 <= i < j < |s| ==> RollupCompare(key, reverse, owners, cmdlines, s[i], s[j]) <= 0
  {
    if |s| > 1 {
      var init := s[..|s| - 1];
      assert Sorted(init, key, reverse, owners, cmdlines);
      SortedAll(init, key, reverse, owners, cmdlines);
      forall i | 0 <= i < |s| - 1
        ensures RollupCompare(key, reverse, owners, cmdlines, s[i], s[|s| - 1]) <= 0
      {
        if i < |s| - 2 {
          assert RollupCompare(key, reverse, owners, cmdlines, init[i], init[|s| - 2]) <= 0;
          CompareTransitive(key, reverse, owners, cmdlines, s[i], s[|s| - 2], s[|s| - 1]);
        }
      }
    }
  }

  /** Reverse order lists the neighbours from larger to smaller. */
  lemma SortedReverse(s: seq<SmemRollup>, key: SortKey, owners: map<int, PidOwner>, cmdlines: map<int, string>)
    requires Sorted(s, key, true, owners, cmdlines)
    ensures forall i :: 0 < i < |s| ==> KeyCompare(key, owners, cmdlines, s[i - 1], s[i]) >= 0
  {
    forall i | 0 < i < |s| ensures KeyCompare(key, owners, cmdlines, s[i - 1], s[i]) >= 0 {
      assert RollupCompare(key, true, owners, cmdlines, s[i - 1], s[i]) <= 0;
    }
  }

  // ---------------------------------------------------------------------------
  // Keys and examples

  /** The key is looked up case-insensitively. */
  lemma SortKeyCaseFree(key: string)
    ensures SortKeyOf(key) == SortKeyOf(Lower(key))
  {
    LowerIdempotent(key);
  }

  /** A rollup with only a pid. */
  function Bare(pid: int): SmemRollup
  {
    SmemRollup(pid, SmemHeader(0, 0), map[])
  }

  /** A permutation of three elements holds exactly those three. */
  lemma PermutationOfThree<T>(s: seq<T>, x: T, y: T, z: T)
    requires multiset(s) == multiset([x, y, z])
    ensures |s| == 3 && x in s && y in s && z in s
    ensures forall i :: 0 <= i < |s| ==> s[i] == x || s[i] == y || s[i] == z
  {
    assert |s| == |multiset(s)| == 3;
    assert x in multiset(s) && y in multiset(s) && z in multiset(s);
    forall i | 0 <= i < |s| ensures s[i] == x || s[i] == y || s[i] == z {
      assert s[i] in multiset(s);
    }
  }

  /** By `pid`, `a` is before `b` exactly when its pid is not larger (not smaller in reverse). */
  lemma PidOrder(a: SmemRollup, b: SmemRollup, reverse: bool, owners: map<int, PidOwner>, cmdlines: map<int, string>)
    ensures RollupCompare(ByPid, reverse, owners, cmdlines, a, b) <= 0 <==>
      if reverse then a.pid >= b.pid else a.pid <= b.pid
  {
  }

  /** A permutation of the rollups with pids 5, 1 and 3 is those rollups in some order. */
  lemma ThreeBare(s: seq<SmemRollup>)
    requires multiset(s) == multiset([Bare(5), Bare(1), Bare(3)])
    ensures |s| == 3 && s == [Bare(s[0].pid), Bare(s[1].pid), Bare(s[2].pid)]
    ensures forall i :: 0 <= i < 3 ==> s[i].pid == 1 || s[i].pid == 3 || s[i].pid == 5
    ensures (s[0].pid == 1 || s[1].pid == 1 || s[2].pid == 1) && (s[0].pid == 3 || s[1].pid == 3 || s[2].pid == 3)
    ensures s[0].pid == 5 || s[1].pid == 5 || s[2].pid == 5
  {
    PermutationOfThree(s, Bare(5), Bare(1), Bare(3));
    assert s == [s[0], s[1], s[2]];
  }

  /** By `pid`, sorted rollups have ascending pids (descending in reverse). */
  lemma SortedPids(s: seq<SmemRollup>, reverse: bool, owners: map<int, PidOwner>, cmdlines: map<int, string>)
    requires Sorted(s, ByPid, reverse, owners, cmdlines)
    ensures forall i :: 0 < i < |s| ==> if reverse then s[i - 1].pid >= s[i].pid else s[i - 1].pid <= s[i].pid
  {
    forall i | 0 < i < |s| ensures if reverse then s[i - 1].pid >= s[i].pid else s[i - 1].pid <= s[i].pid {
      assert RollupCompare(ByPid, reverse, owners, cmdlines, s[i - 1], s[i]) <= 0;
      PidOrder(s[i - 1], s[i], reverse, owners, cmdlines);
    }
  }

  /** Three ascending values, each 1, 3 or 5 and with all three present, are 1, 3, 5. */
  lemma OneThreeFive(p: int, q: int, r: int)
    requires p <= q <= r
    requires (p == 1 || p == 3 || p == 5) && (q == 1 || q == 3 || q == 5) && (r == 1 || r == 3 || r == 5)
    requires (p == 1 || q == 1 || r == 1) && (p == 3 || q == 3 || r == 3) && (p == 5 || q == 5 || r == 5)
    ensures p == 1 && q == 3 && r == 5
  {
  }

  /** Three rollups with pids 5, 1 and 3, sorted by pid, come out as 1, 3, 5 (or 5, 3, 1 in reverse). */
  lemma PidsSorted(s: seq<SmemRollup>, reverse: bool, owners: map<int, PidOwner>, cmdlines: map<int, string>)
    requires multiset(s) == multiset([Bare(5), Bare(1), Bare(3)])
    requires Sorted(s, ByPid, reverse, owners, cmdlines)
    ensures !reverse ==> s == [Bare(1), Bare(3), Bare(5)]
    ensures reverse ==> s == [Bare(5), Bare(3), Bare(1)]
  {
    ThreeBare(s);
    var x, y, z := s[0], s[1], s[2];
    SortedPids(s, reverse, owners, cmdlines);
    if reverse {
      OneThreeFive(z.pid, y.pid, x.pid);
    } else {
      OneThreeFive(x.pid, y.pid, z.pid);
    }
  }

  /** By `uss`, a rollup with 10 private clean and 5 private dirty kB comes after one with none. */
  lemma UssOrder(owners: map<int, PidOwner>, cmdlines: map<int, string>)
    ensures var light := SmemRollup(1, SmemHeader(0, 0), map[StatPrivateClean := 0, StatPrivateDirty := 0]);
      var heavy := SmemRollup(2, SmemHeader(0, 0), map[StatPrivateClean := 10, StatPrivateDirty := 5]);
      RollupCompare(ByUss, false, owners, cmdlines, light, heavy) < 0 &&
      RollupCompare(ByUss, false, owners, cmdlines, heavy, light) > 0
  {
    var heavy := SmemRollup(2, SmemHeader(0, 0), map[StatPrivateClean := 10, StatPrivateDirty := 5]);
    assert USS(heavy) == 15;
  }
}
