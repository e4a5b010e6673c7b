/**
 * The owner source: the user id that owns `/proc/<pid>`, and its user name looked
 * up through a process-wide cache, gathered per process into a map from pid to
 * owner.
 */
module PidOwners {
  import opened Common
  import opened Numbers
  import opened Delivery

  /** What an owner reader sends; a failed `stat` has uid -1 and an empty name. */
  datatype PidOwner = PidOwner(pid: int, uid: int, username: string, failed: bool)

  /** The zero value of the record, which a read of a missing pid gives: uid 0 and no name. */
  const NoOwner: PidOwner := PidOwner(0, 0, [], false)

  /**
   * The user name the account database gives for `uid`, or the empty name when
   * it has none. `lookup` stands for `user.LookupId`, called with the uid in
   * decimal.
   */
  function UserName(uid: int, lookup: string -> Option<string>): (name: string)
    ensures lookup(Itoa(uid)).Some? ==> name == lookup(Itoa(uid)).value
    ensures lookup(Itoa(uid)).None? ==> name == []
  {
    match lookup(Itoa(uid))
    case Some(name) => name
    case None => ""
  }

  /**
   * The uid-to-name cache. `names` is the cache map; `lookups` records, for the
   * proofs only, every id text that was passed to the account database.
   */
  class UidCache {
    var names: map<int, string>
    ghost var lookups: seq<string>

    /** Every cached name is the one the account database gives. */
    ghost predicate Agrees(lookup: string -> Option<string>)
      reads this
    {
      forall uid :: uid in names ==> lookup(Itoa(uid)) == Some(names[uid])
    }

    /** The cache starts empty, as the package-level map does. */
    constructor ()
      ensures names == map[] && lookups == []
    {
      names := map[];
      lookups := [];
    }

    /**
     * `userFromUID`: a cached name is returned without a lookup; otherwise the
     * database is asked, and a name it gives is cached and returned, while a miss
     * returns the empty name and caches nothing.
     */
    method UserFromUid(uid: int, lookup: string -> Option<string>) returns (name: string)
      modifies this
      ensures uid in old(names) ==> name == old(names)[uid] && names == old(names) && lookups == old(lookups)
      ensures uid !in old(names) ==> lookups == old(lookups) + [Itoa(uid)]
      ensures uid !in old(names) && lookup(Itoa(uid)).Some? ==>
        name == lookup(Itoa(uid)).value && names == old(names)[uid := name]
      ensures uid !in old(names) && lookup(Itoa(uid)).None? ==> name == "" && names == old(names)
      ensures old(Agrees(lookup)) ==> Agrees(lookup) && name == UserName(uid, lookup)
    {
      if uid in names {
        return names[uid];
      }
      lookups := lookups + [Itoa(uid)];
      var user := lookup(Itoa(uid));
      if user.Some? {
        names := names[uid := user.value];
        return user.value;
      }
      return "";
    }
  }

  /**
   * `pidOwner`: `statUid` is the owner uid from `stat` of `/proc/<pid>`, or
   * `None` when `stat` fails. A failure is reported with uid -1 and no name.
   */
  method PidOwnerOf(pid: int, statUid: Option<int>, cache: UidCache, lookup: string -> Option<string>)
    returns (owner: PidOwner)
    modifies cache
    ensures owner.pid == pid
    ensures statUid.None? ==>
      owner == PidOwner(pid, -1, "", true) && cache.names == old(cache.names) && cache.lookups == old(cache.lookups)
    ensures statUid.Some? ==> !owner.failed && owner.uid == statUid.value
    ensures statUid.Some? && statUid.value in old(cache.names) ==>
      owner.username == old(cache.names)[statUid.value] && cache.names == old(cache.names) &&
      cache.lookups == old(cache.lookups)
    ensures statUid.Some? && statUid.value !in old(cache.names) ==>
      owner.username == UserName(statUid.value, lookup) &&
      cache.lookups == old(cache.lookups) + [Itoa(statUid.value)] &&
      cache.names == (if lookup(Itoa(statUid.value)).Some? then old(cache.names)[statUid.value := owner.username]
                      else old(cache.names))
    ensures statUid.Some? && old(cache.Agrees(lookup)) ==>
      cache.Agrees(lookup) && owner.username == UserName(statUid.value, lookup)
  {
    match statUid
    case None =>
      owner := PidOwner(pid, -1, "", true);
    case Some(uid) =>
      var username := cache.UserFromUid(uid, lookup);
      owner := PidOwner(pid, uid, username, false);
  }

  // ---------------------------------------------------------------------------
  // Gathering

  /**
   * The map built from the messages in the order they are received: a message
   * without error is stored under its pid.
   */
  function OwnersOf(delivered: seq<PidOwner>): (m: map<int, PidOwner>)
    ensures |m| <= |delivered|
    ensures delivered != [] && !delivered[|delivered| - 1].failed ==>
      delivered[|delivered| - 1].pid in m && m[delivered[|delivered| - 1].pid] == delivered[|delivered| - 1]
    ensures forall pid :: pid in m ==> m[pid].pid == pid && !m[pid].failed
  {
    if delivered == [] then map[]
    else
      var m := OwnersOf(delivered[..|delivered| - 1]);
      var o := delivered[|delivered| - 1];
      if o.failed then m else m[o.pid := o]
  }

  /** One more message. */
  lemma OwnersSnoc(delivered: seq<PidOwner>, o: PidOwner)
    ensures OwnersOf(delivered + [o]) == if o.failed then OwnersOf(delivered) else OwnersOf(delivered)[o.pid := o]
  {
    TakeFront(delivered, [o]);
  }

  /** `reducePidOwners`: one receive per channel, in map-iteration order. */
  method ReducePidOwners(delivered: seq<PidOwner>) returns (owners: map<int, PidOwner>)
    ensures owners == OwnersOf(delivered)
  {
    owners := map[];
    for i := 0 to |delivered|
      invariant owners == OwnersOf(delivered[..i])
    {
      var o := delivered[i];
      if !o.failed {
        owners := owners[o.pid := o];
      }
      PrefixSnoc(delivered, i);
      OwnersSnoc(delivered[..i], o);
    }
    assert delivered[..|delivered|] == delivered;
  }

  /**
   * `reducePidOwnersSelect`: `results[c]` is what channel `c` delivers and `picks`
   * the order in which the select receives them. A received channel's case is
   * disabled in `open`, so it is never chosen again; since a disabled case is never
   * chosen, the branch for a closed channel is not reached.
   */
  method ReducePidOwnersSelect(results: seq<PidOwner>, picks: seq<nat>) returns (owners: map<int, PidOwner>)
    requires IsSchedule(picks, |results|)
    ensures owners == OwnersOf(Reorder(results, picks))
  {
    var open := new bool[|results|](_ => true);
    owners := map[];
    var remaining := |results|;
    var step := 0;
    while remaining > 0
      invariant 0 <= step <= |picks| && remaining == |picks| - step
      invariant forall c :: 0 <= c < open.Length ==> (open[c] <==> c !in picks[..step])
      invariant owners == OwnersOf(Reorder(results, picks[..step]))
    {
      var chosen := picks[step];
      var o := results[chosen];
      remaining := remaining - 1;
      Disable(open, picks, step);
      if !o.failed {
        owners := owners[o.pid := o];
      }
      ReorderSnoc(results, picks, step);
      OwnersSnoc(Reorder(results, picks[..step]), o);
      step := step + 1;
    }
    assert picks[..step] == picks;
  }

  /**
   * A pid has an owner exactly when an error-free message for it was received,
   * and the owner is such a message.
   */
  lemma {:induction false} OwnersContents(delivered: seq<PidOwner>)
    ensures forall pid :: pid in OwnersOf(delivered) <==>
      exists o :: o in delivered && !o.failed && o.pid == pid
    ensures forall pid :: pid in OwnersOf(delivered) ==>
      var o := OwnersOf(delivered)[pid]; o in delivered && !o.failed && o.pid == pid
  {
    if delivered != [] {
      var init := delivered[..|delivered| - 1];
      var o := delivered[|delivered| - 1];
      OwnersContents(init);
      assert delivered == init + [o];
      assert forall x :: x in delivered <==> x in init || x == o;
    }
  }

  /**
   * The map does not depend on the order in which the messages arrive, as long
   * as no two of them are about the same pid (each channel is for its own pid).
   */
  lemma OwnersOrderFree(d1: seq<PidOwner>, d2: seq<PidOwner>)
    requires forall i, j :: 0 <= i < j < |d1| ==> d1[i].pid != d1[j].pid
    requires multiset(d1) == multiset(d2)
    ensures OwnersOf(d1) == OwnersOf(d2)
  {
    OwnersContents(d1);
    OwnersContents(d2);
    SameElements(d1, d2);
    var m1 := OwnersOf(d1);
    var m2 := OwnersOf(d2);
    forall pid ensures pid in m1 <==> pid in m2 {
      if pid in m1 {
        assert m1[pid] in d2;
      }
      if pid in m2 {
        assert m2[pid] in d1;
      }
    }
    forall pid | pid in m1 ensures m1[pid] == m2[pid] {
      OnePerKey(d1, (o: PidOwner) => o.pid, m1[pid], m2[pid]);
    }
  }

  /**
   * The two reducers build the same map, whatever order the iterative one meets
   * the channels in and whatever order the select receives them in.
   */
  lemma OwnerReducersAgree(results: seq<PidOwner>, delivered: seq<PidOwner>, picks: seq<nat>)
    requires forall i, j :: 0 <= i < j < |results| ==> results[i].pid != results[j].pid
    requires multiset(delivered) == multiset(results)
    requires IsSchedule(picks, |results|)
    ensures OwnersOf(delivered) == OwnersOf(Reorder(results, picks))
  {
    ReorderPermutes(results, picks);
    OwnersOrderFree(results, delivered);
    OwnersOrderFree(results, Reorder(results, picks));
  }
}
