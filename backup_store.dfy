/**
 The data-backup canister's state and the update that individual user
 canisters call to push the principals that follow their user.
 */
module BackupStore {
  import opened BackupTypes
  import opened FollowerMerge

  /** The canister's stored data: the backup record of every user, keyed by
      the user's principal. */
  class CanisterData {
    var userPrincipalIdToAllUserDataMap: BackupMap

    /** `CanisterData::default()`: no records. */
    constructor ()
      ensures userPrincipalIdToAllUserDataMap == map[]
    {
      userPrincipalIdToAllUserDataMap := map[];
    }

    /** Merge the followers pushed by `caller` into the record of
        `canisterOwnerPrincipalId`, if that record exists and `caller` is the
        canister it records as owning the user; otherwise do nothing. */
    method ReceivePrincipalsThatFollowMe(principalsThatFollowMe: seq<Principal>,
                                         callerPrincipalId: Principal,
                                         canisterOwnerPrincipalId: Principal)
      modifies this
      ensures userPrincipalIdToAllUserDataMap
           == Merge(old(userPrincipalIdToAllUserDataMap), principalsThatFollowMe,
                    callerPrincipalId, canisterOwnerPrincipalId)
    {
      if canisterOwnerPrincipalId !in userPrincipalIdToAllUserDataMap {
        return;
      }
      var existingEntry := userPrincipalIdToAllUserDataMap[canisterOwnerPrincipalId];
      if existingEntry.userCanisterId != callerPrincipalId {
        return;
      }
      ghost var fetched := existingEntry;
      var i := 0;
      while i < |principalsThatFollowMe|
        invariant 0 <= i <= |principalsThatFollowMe|
        invariant existingEntry
               == WithFollowers(fetched, fetched.canisterData.principalsThatFollowMe
                                         + Elements(principalsThatFollowMe[..i]))
      {
        existingEntry := WithFollowers(existingEntry,
                                       existingEntry.canisterData.principalsThatFollowMe + {principalsThatFollowMe[i]});
        assert principalsThatFollowMe[..i + 1] == principalsThatFollowMe[..i] + [principalsThatFollowMe[i]];
        i := i + 1;
      }
      assert principalsThatFollowMe[..i] == principalsThatFollowMe;
      userPrincipalIdToAllUserDataMap := userPrincipalIdToAllUserDataMap[canisterOwnerPrincipalId := existingEntry];
    }
  }

  /** The Rust unit test
      `test_receive_principals_that_follow_me_from_individual_user_canister_impl`,
      on a fresh store: a push for a user without a record creates none; a push
      from a canister other than the recorded owner keeps the record and leaves
      its (empty) follower set empty; a push from the recorded owner of two
      distinct principals keeps the record and leaves two followers. */
  method ReceiveFollowersScenario(alicePrincipalId: Principal, bobPrincipalId: Principal,
                                  aliceCanisterId: Principal, bobCanisterId: Principal)
    returns (createdWithoutRecord: bool,
             recordKeptAfterRejectedPush: bool, followersAfterRejectedPush: nat,
             recordKeptAfterAcceptedPush: bool, followersAfterAcceptedPush: nat)
    requires alicePrincipalId != bobPrincipalId && aliceCanisterId != bobCanisterId
    ensures !createdWithoutRecord
    ensures recordKeptAfterRejectedPush && followersAfterRejectedPush == 0
    ensures recordKeptAfterAcceptedPush && followersAfterAcceptedPush == 2
  {
    var canisterData := new CanisterData();
    var followers := [alicePrincipalId, bobPrincipalId];

    canisterData.ReceivePrincipalsThatFollowMe(followers, aliceCanisterId, alicePrincipalId);
    createdWithoutRecord := alicePrincipalId in canisterData.userPrincipalIdToAllUserDataMap;

    canisterData.userPrincipalIdToAllUserDataMap :=
      canisterData.userPrincipalIdToAllUserDataMap[alicePrincipalId :=
        AllUserData(alicePrincipalId, bobCanisterId, DefaultOwnedData)];
    canisterData.ReceivePrincipalsThatFollowMe(followers, aliceCanisterId, alicePrincipalId);
    recordKeptAfterRejectedPush := alicePrincipalId in canisterData.userPrincipalIdToAllUserDataMap;
    followersAfterRejectedPush :=
      |canisterData.userPrincipalIdToAllUserDataMap[alicePrincipalId].canisterData.principalsThatFollowMe|;

    canisterData.userPrincipalIdToAllUserDataMap :=
      canisterData.userPrincipalIdToAllUserDataMap[alicePrincipalId :=
        AllUserData(alicePrincipalId, aliceCanisterId, DefaultOwnedData)];
    canisterData.ReceivePrincipalsThatFollowMe(followers, aliceCanisterId, alicePrincipalId);
    assert Elements(followers) == {alicePrincipalId, bobPrincipalId};
    recordKeptAfterAcceptedPush := alicePrincipalId in canisterData.userPrincipalIdToAllUserDataMap;
    followersAfterAcceptedPush :=
      |canisterData.userPrincipalIdToAllUserDataMap[alicePrincipalId].canisterData.principalsThatFollowMe|;
  }
}
