/**
 What one call of `receive_principals_that_follow_me_from_individual_user_canister_impl`
 does to the backup map, as a function of the map before the call, and the
 properties of that function: the two guards, the union, idempotence,
 commutativity, and that no other record and no other field is touched.
 */
module FollowerMerge {
  import opened BackupTypes

  /** The ownership guard: there is a record for `owner` and the canister
      recorded as owning it is the one making the call. */
  predicate Accepts(m: BackupMap, caller: Principal, owner: Principal)
  {
    owner in m && m[owner].userCanisterId == caller
  }

  /** Insert the incoming principals into `followers` one at a time, first to
      last, as the Rust `for_each` over the pushed list does; the result is the
      set union. */
  function InsertAll(followers: set<Principal>, incoming: seq<Principal>): (r: set<Principal>)
    ensures r == followers + Elements(incoming)
    decreases |incoming|
  {
    if incoming == [] then followers
    else
      assert Elements(incoming) == {incoming[0]} + Elements(incoming[1..]);
      InsertAll(followers + {incoming[0]}, incoming[1..])
  }

  /** The backup map after one call: no change without a record for `owner`
      or when `caller` is not the owning canister; otherwise the fetched
      record, with the incoming principals inserted into its follower set, is
      written back under the same key. */
  function Merge(m: BackupMap, incoming: seq<Principal>, caller: Principal, owner: Principal): (r: BackupMap)
    ensures r.Keys == m.Keys
    ensures !Accepts(m, caller, owner) ==> r == m
    ensures Accepts(m, caller, owner) ==>
              r[owner] == WithFollowers(m[owner], FollowersOf(m, owner) + Elements(incoming))
    ensures forall k :: k in m && k != owner ==> r[k] == m[k]
    ensures forall k :: k in m ==>
              && r[k].userPrincipalId == m[k].userPrincipalId
              && r[k].userCanisterId == m[k].userCanisterId
              && r[k].canisterData.principalsIFollow == m[k].canisterData.principalsIFollow
              && r[k].canisterData.rest == m[k].canisterData.rest
    ensures forall k :: k in m ==> FollowersOf(m, k) <= FollowersOf(r, k)
  {
    if !Accepts(m, caller, owner) then m
    else
      var existingEntry := m[owner];
      var followers := InsertAll(existingEntry.canisterData.principalsThatFollowMe, incoming);
      m[owner := WithFollowers(existingEntry, followers)]
  }

  /** A merge leaves the guard's outcome unchanged for every later call. */
  lemma MergePreservesOwnership(m: BackupMap, incoming: seq<Principal>, caller: Principal, owner: Principal,
                                caller': Principal, owner': Principal)
    ensures Accepts(Merge(m, incoming, caller, owner), caller', owner') == Accepts(m, caller', owner')
  {
  }

  /** The follower set after the call is the old one plus the incoming
      principals when the guard accepts, and the old one otherwise. */
  lemma MergeFollowers(m: BackupMap, incoming: seq<Principal>, caller: Principal, owner: Principal)
    ensures FollowersOf(Merge(m, incoming, caller, owner), owner)
         == if Accepts(m, caller, owner) then FollowersOf(m, owner) + Elements(incoming)
            else FollowersOf(m, owner)
  {
  }

  /** Applying the same follower list twice gives the map that applying it once gives. */
  lemma MergeIdempotent(m: BackupMap, incoming: seq<Principal>, caller: Principal, owner: Principal)
    ensures Merge(Merge(m, incoming, caller, owner), incoming, caller, owner) == Merge(m, incoming, caller, owner)
  {
  }

  /** Only the distinct principals of the list matter: order and duplicates add nothing. */
  lemma MergeDependsOnlyOnElements(m: BackupMap, xs: seq<Principal>, ys: seq<Principal>,
                                   caller: Principal, owner: Principal)
    requires Elements(xs) == Elements(ys)
    ensures Merge(m, xs, caller, owner) == Merge(m, ys, caller, owner)
  {
  }

  /** A list sent with its principals repeated merges exactly as the list itself. */
  lemma MergeIgnoresDuplicates(m: BackupMap, incoming: seq<Principal>, caller: Principal, owner: Principal)
    ensures Merge(m, incoming + incoming, caller, owner) == Merge(m, incoming, caller, owner)
  {
    assert Elements(incoming + incoming) == Elements(incoming) by {
      forall x | x in incoming + incoming ensures x in incoming {
      }
    }
    MergeDependsOnlyOnElements(m, incoming + incoming, incoming, caller, owner);
  }

  /** Two calls, whatever their callers and owners, reach the same map in either order. */
  lemma MergeCommutes(m: BackupMap, xs: seq<Principal>, cx: Principal, ox: Principal,
                      ys: seq<Principal>, cy: Principal, oy: Principal)
    ensures Merge(Merge(m, xs, cx, ox), ys, cy, oy) == Merge(Merge(m, ys, cy, oy), xs, cx, ox)
  {
    MergePreservesOwnership(m, xs, cx, ox, cy, oy);
    MergePreservesOwnership(m, ys, cy, oy, cx, ox);
    var mx, my := Merge(m, xs, cx, ox), Merge(m, ys, cy, oy);
    var left, right := Merge(mx, ys, cy, oy), Merge(my, xs, cx, ox);
    forall k | k in m ensures left[k] == right[k] {
      if k == ox && k == oy && Accepts(m, cx, ox) && Accepts(m, cy, oy) {
        assert FollowersOf(left, k) == FollowersOf(m, k) + Elements(xs) + Elements(ys);
        assert FollowersOf(right, k) == FollowersOf(m, k) + Elements(ys) + Elements(xs);
      }
    }
    assert left == right;
  }

  /** The call leaves the map exactly as it was if and only if the guard
      rejects it or every incoming principal is already a follower. */
  lemma MergeUnchangedIff(m: BackupMap, incoming: seq<Principal>, caller: Principal, owner: Principal)
    ensures Merge(m, incoming, caller, owner) == m
        <==> !Accepts(m, caller, owner) || Elements(incoming) <= FollowersOf(m, owner)
  {
    var r := Merge(m, incoming, caller, owner);
    if Accepts(m, caller, owner) {
      if Elements(incoming) <= FollowersOf(m, owner) {
        assert FollowersOf(m, owner) + Elements(incoming) == FollowersOf(m, owner);
        assert r[owner] == m[owner];
        assert r == m;
      } else {
        var x :| x in Elements(incoming) && x !in FollowersOf(m, owner);
        assert x in FollowersOf(r, owner);
        assert r != m;
      }
    }
  }

  /** The follower count grows by exactly the number of incoming principals
      that were not yet followers, and by nothing when the guard rejects. */
  lemma MergeFollowerCount(m: BackupMap, incoming: seq<Principal>, caller: Principal, owner: Principal)
    ensures |FollowersOf(Merge(m, incoming, caller, owner), owner)|
         == |FollowersOf(m, owner)|
            + if Accepts(m, caller, owner) then |Elements(incoming) - FollowersOf(m, owner)| else 0
  {
  }
}
