# Follower merge of the data-backup canister

The data-backup canister keeps one backup record per user. The map
`user_principal_id_to_all_user_data_map` is keyed by the user's principal.
Each record (`AllUserData`) holds three things: the user's principal, the id of
the individual user canister that owns the user, and the state that canister
owns (`UserOwnedCanisterData`).

An individual user canister pushes the principals that follow its user with
`receive_principals_that_follow_me_from_individual_user_canister`. The
backup canister accepts the push only under two conditions. There must already
be a record for the claimed owner principal. The calling canister must be the
one that record names as `user_canister_id`. If both hold, each pushed
principal is inserted into the record's `principals_that_follow_me` set, and
the record is written back under the same key. In every other case nothing
happens, and no error is reported.

The model has three modules:

- `BackupTypes` (`backup_types.dfy`): principals, records and the backup map, as values.
- `FollowerMerge` (`follower_merge.dfy`): `Merge`, the effect of one call as a function of
  the map before the call, and the lemmas about it. These cover the two guards, the union,
  idempotence, indifference to order and duplicates, commutativity of calls, the exact
  condition for "nothing changed", and how the follower count grows.
- `BackupStore` (`backup_store.dfy`): the canister's data as a class `CanisterData` with the map
  as a field. The update is a method that fetches the record, inserts the followers one at a
  time in a loop, and writes the record back. Its postcondition says the new map is
  `Merge` of the old one. The Rust unit test in the same source file is a client method of the class.

The caller principal, which the canister reads from the runtime (`ic_cdk::caller()`), is an
explicit parameter. The guard compares the stored `user_canister_id` with that caller, and
not with a claimed owner: the claimed owner principal is only the key of the record.

## Model

| member | source | states |
|---|---|---|
| `FollowerMerge.InsertAll` | src/canister/data_backup/src/api/individual_user_backup/receive_principals_that_follow_me_from_individual_user_canister.rs:48-56 | Inserting the pushed principals one at a time, in list order, into a follower set gives that set unioned with the set of principals in the list. |
| `FollowerMerge.Merge` | src/canister/data_backup/src/api/individual_user_backup/receive_principals_that_follow_me_from_individual_user_canister.rs:25-62 | The keys of the map never change. With no record for the owner, or when the recorded canister is not the caller, the map is unchanged. No record is created. Otherwise the owner's record gets the old followers plus the pushed principals. Every other key keeps its value. In every record the user principal, the canister id, the followees and the rest of the owned data are preserved. No follower set shrinks. |
| `FollowerMerge.MergePreservesOwnership` | src/canister/data_backup/src/api/individual_user_backup/receive_principals_that_follow_me_from_individual_user_canister.rs:39-61 | Writing the fetched record back never changes the canister id recorded as owner. So whether a later call passes the guard is the same before and after any call. |
| `FollowerMerge.MergeFollowers` | src/canister/data_backup/src/api/individual_user_backup/receive_principals_that_follow_me_from_individual_user_canister.rs:31-56 | The owner's follower set after the call is the old set plus the pushed principals when the guard accepts, and the old set when it rejects. |
| `FollowerMerge.MergeIdempotent` | src/canister/data_backup/src/api/individual_user_backup/receive_principals_that_follow_me_from_individual_user_canister.rs:52-55 | Applying the same push twice gives exactly the map that applying it once gives. |
| `FollowerMerge.MergeDependsOnlyOnElements` | src/canister/data_backup/src/api/individual_user_backup/receive_principals_that_follow_me_from_individual_user_canister.rs:48-56 | Two pushes listing the same set of principals, in any order and with any repetitions, give the same map. |
| `FollowerMerge.MergeIgnoresDuplicates` | src/canister/data_backup/src/api/individual_user_backup/receive_principals_that_follow_me_from_individual_user_canister.rs:52-55 | A list sent with every principal repeated merges exactly as the list itself. |
| `FollowerMerge.MergeCommutes` | src/canister/data_backup/src/api/individual_user_backup/receive_principals_that_follow_me_from_individual_user_canister.rs:31-61 | Two calls, with any callers, owners and lists, give the same map in either order. |
| `FollowerMerge.MergeUnchangedIff` | src/canister/data_backup/src/api/individual_user_backup/receive_principals_that_follow_me_from_individual_user_canister.rs:31-61 | The call leaves the map exactly as it was if and only if the guard rejects it or every pushed principal already follows the owner. |
| `FollowerMerge.MergeFollowerCount` | src/canister/data_backup/src/api/individual_user_backup/receive_principals_that_follow_me_from_individual_user_canister.rs:48-56 | The owner's follower count grows by exactly the number of pushed principals that were not yet followers. It does not change when the guard rejects. |
| `BackupStore.CanisterData.constructor` | src/canister/data_backup/src/api/individual_user_backup/receive_principals_that_follow_me_from_individual_user_canister.rs:78 | A default canister data holds no records. |
| `BackupStore.CanisterData.ReceivePrincipalsThatFollowMe` | src/canister/data_backup/src/api/individual_user_backup/receive_principals_that_follow_me_from_individual_user_canister.rs:25-62 | The map after the call is `Merge` of the map before it. The loop inserts the followers one at a time into the fetched record, and the record is written back under the same key. |
| `BackupStore.ReceiveFollowersScenario` | src/canister/data_backup/src/api/individual_user_backup/receive_principals_that_follow_me_from_individual_user_canister.rs:76-158 | The unit test's outcomes. Alice and Bob have distinct principals and distinct canister ids, and both are pushed as Alice's followers. With no record for Alice, no record is created. With a record owned by Bob's canister, the record is kept and its follower set stays empty. With a record owned by Alice's canister, the record is kept and Alice has exactly two followers. |

## Left out

- The `#[ic_cdk::update]` entry point (src/canister/data_backup/src/api/individual_user_backup/receive_principals_that_follow_me_from_individual_user_canister.rs:6-23) only reads the caller from the runtime and borrows the thread-local canister data. The caller is a parameter of the model instead.
- The stable-memory map (`StorablePrincipal` keys, the memory layout of `CanisterData`) is modelled as a Dafny `map`. Its serialisation is not part of this model.
- A principal is an opaque byte string. The 29-byte limit on Internet Computer principals is not modelled, because the merge only compares principals for equality.
- The profile, posts and token ledger of `UserOwnedCanisterData` are one opaque payload, carried along unchanged. The types that define them are not part of this model.
- The fan-out backup pass (`backup_all_individual_user_canisters`), the snapshot export and ingest, the backup statistics (`get_current_backup_statistics`) and the restore (`send_restore_data_back_to_user_index_canister`) are other endpoints and are not part of this model.
- The function returns nothing and drops rejected pushes silently; the model's method has no result either.
