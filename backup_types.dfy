/**
 The records the data-backup canister keeps per user: who the user is, which
 individual user canister owns the user's live state, and the state itself.
 Only the set of followers is looked into by the merge; everything else the
 user canister owns travels along untouched.
 */
module BackupTypes {

  /** An Internet Computer principal: an opaque, immutable identifier of a user
      or of a canister, compared by its bytes. */
  datatype Principal = Principal(bytes: seq<bv8>)

  /** Profile, posts, token ledger and the rest of the user canister's state,
      kept as the opaque serialized payload the merge never inspects. */
  datatype OpaqueOwnedData = OpaqueOwnedData(serialized: seq<bv8>)

  /** The state an individual user canister owns for its user. */
  datatype UserOwnedCanisterData = UserOwnedCanisterData(
    principalsThatFollowMe: set<Principal>,
    principalsIFollow: set<Principal>,
    rest: OpaqueOwnedData)

  /** The backup record for one user. */
  datatype AllUserData = AllUserData(
    userPrincipalId: Principal,
    userCanisterId: Principal,
    canisterData: UserOwnedCanisterData)

  /** The backup map, keyed by the user's principal. */
  type BackupMap = map<Principal, AllUserData>

  /** `UserOwnedCanisterData::default()`: no followers, no followees, no data. */
  const DefaultOwnedData: UserOwnedCanisterData :=
    UserOwnedCanisterData({}, {}, OpaqueOwnedData([]))

  /** The followers recorded for `owner`, or the empty set when there is no record. */
  function FollowersOf(m: BackupMap, owner: Principal): set<Principal>
  {
    if owner in m then m[owner].canisterData.principalsThatFollowMe else {}
  }

  /** The set of distinct principals listed in `xs`. */
  function Elements(xs: seq<Principal>): set<Principal>
  {
    set x | x in xs
  }

  /** `e` with its follower set replaced by `followers` and nothing else changed. */
  function WithFollowers(e: AllUserData, followers: set<Principal>): AllUserData
  {
    e.(canisterData := e.canisterData.(principalsThatFollowMe := followers))
  }
}
