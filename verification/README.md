# KPI permissions, and six neighbouring algorithms

A Dafny model of the code in KPI (the form library and data API of KoboToolbox) whose correctness
depends on more than one function: permissions on a forest of assets, and the smaller algorithms
around it that rewrite tables, lists or remote state in place. `dafny verify dfyconfig.toml`
checks everything.

## Permissions

Every asset has rows `(user, permission, deny, inherited)`. Effective permissions are meant to be a
recursive definition: explicit grants, and what ownership or the parent's effective permissions
give, less explicit denials. The code stores inherited rows instead, and keeps them up to date.

- `Implication`, `AllImpliedPerms`: the implication table as a graph, and its worklist closure.
- `PermissionTables`: the tables an asset class defines, the conditions (`Wf`) that the theorems
  need, and the proof that the real tables of `Asset` meet them.
- `AssetPermissions`: what those tables amount to, type by type: who can be given what, what an owner gets,
  what a child inherits, what a grant brings along or drops, whose filters go where.
- `PermissionRows`: the rows of one asset, and what one call of `assign_perm` or `remove_perm`
  makes of them in closed form, whatever the order of the recursion.
- `PermissionInvariants`, `PermissionInheritance`, `PermissionRemoval`: the invariants of one asset,
  its relation to its parent, and how long a removal lasts.
- `AssetForest`, `DescendantWalk`: the tree, the recursive definition, the recalculation.
- `PermissionShifts`: what a change of one asset does to those below it, and which it leaves behind.
- `PermissionSaves`: what a save with another owner or type keeps, and exactly when.
- `PermissionSteps`, `PermissionConsistency`, `PermissionAgreement`, `CopyPermissions`, `CopyWrites`,
  `CopySteps`, `PermissionRuns`: saves, transfers of ownership, assignments, removals, copies of
  permissions and moves into and out of the trash as steps on the forest, what each keeps, and runs of
  them.
- `AssignRecursion`, `AssetStore`: the methods themselves, as a class over a mutable table, each
  proved against the closed forms and the steps of the runs. Where the source raises inside a
  transaction, the table is put back.
- `CopyOrder`, `CopyPartial`: when a copy depends on the order of the source rows, when it is faithful,
  and what becomes of stored filters.
- `PermissionQueries`: reading permissions.

Conditions of the theorems, all stated in `Wf` and `OwnersOk`: nothing implies the partial permission
and what it implies implies nothing; heritable permissions are translated injectively and consistently
with implication; the anonymous user's permissions are closed under both; types with children cannot be
given the partial permission; contradicted permissions are never heritable, are closed upwards, do not
occur together in one grant, and are answered; no asset is owned by the anonymous user.
`AssetTablesAreWf` proves them for the real tables. Cycles of implications are allowed everywhere but
for `remove_perm`, whose recursion does not end on them. Any asset can be the parent of any other, of
whatever types, as long as the links close no loop.

The theorems on runs:

- agreement of the stored permissions with the recursive definition (`EveryRunAgrees`; spelled out in
  `EveryRunFollowsParents`, and for owners in `EveryOwnerHolds`) needs every
  operation to be made where its result lasts (`Lasts`), which `StepIsSettledIff` proves necessary too.
  For a removal this is the condition of `RemovedIsSettledIff`, for a copy that of `CopySettlesIff`; and
  no operation may strand an asset that the walk passes by. While types with children keep them and the
  trash holds no child, nothing is stranded (`VisitedLasts`);
- the consistency of the rows (`EveryRunIsConsistent`, `PublicRowsAreAllowed`) needs nothing at all;
- that explicit grants do not contradict each other needs each save to leave explicit rows for
  permissions of the asset's type, or a symmetric table (`SavesFit`); `AssignedAgreesIff` says for one
  call when they do not, `PartialUserOfTemplate` is an input that fails;
- closure under implication (`EveryRunIsClosed`) needs each save to leave the explicit rows sound under
  the new owner and type (`SavesHold`). `StepIsSoundIff` shows that a save keeps the row invariants in
  no other case, and `NewOwnerIsClosedIff` and `NewTypeIsClosedIff` when closure itself survives. Moves,
  new assets and owners without rows meet it (`OrdinarySaveHolds`), unless the type is one that cannot
  be given what it inherits, as the unused type `text`; transfers need no hypothesis.

## The other algorithms

- `PartialPermissions`, `PartialAccess`: row-level filters passed on to implied permissions, and the
  check of bulk operations whose callers read an empty result as full access.
- `MediaSync`: media records reconciled with the remote server in one pass and a sweep.
- `ChunkedDelete`: deletion in chunks with a query about the table that it deletes from.
- `Translations`: the list of languages and the cells parallel to it.
- `SurveyPaths`, `FlatPaths`, `FlatQuestions`: paths of survey rows, in Python and in TypeScript.
- `ZipImport`: the tree of an imported archive and its pruning.

`Wrappers` and `Sequences` hold shared definitions.

## Where the code does not do what it says or seems to

The model follows the code. Each point is a lemma with the exact condition, or a concrete case.

- `remove_perm` documents that an inherited permission is replaced by a denial. After a removal, a
  direct grant and a second removal there is no inherited row left to replace, and the permission
  returns (`SecondRemovalComesBack`); `RemovedIsSettledIff` says exactly when a removal lasts.
- With a save in between, the second removal raises instead, because assigning the partial
  permission's denial again reaches `_update_partial_permissions` without filters
  (`SecondRemovalIsRefused`, `ViewAssetRemovalIsRefused`).
- `recalculate_descendants_perms` takes it for impossible that an asset of a type without children has
  descendants, but the type of an asset can be changed, and children keep inheriting from it. Nor does it
  come to children in the trash. `WalkSettlesOtherIff` says exactly which assets a change leaves behind;
  `RetypedCollectionLeavesChild` and `TrashedChildKeeps` are inputs for which a removed permission stays.
- `get_all_implied_perms` passes its asset in the position of `reverse` (`AgreesWithDocumentedIff`).
- `has_perm` looks for exactly one pair and finds two when user and public both hold the permission;
  `HasPerm` has the exact condition, and `PublicRowsAreAllowed` that it holds in every state of every run.
- A save with a new owner or type can break the closure under implication, and the row invariants with
  it. `NewOwnerIsClosedIff` and `NewTypeIsClosedIff` say exactly when, `OwnRowsStaySoundIff` when the
  invariants survive; `OwnRowsOfNewOwnerMatter` and `EmptyAssetSavedAsSurvey` are inputs that fail, and
  `PartialUserOfTemplate` is one after which a grant contradicts an older one. The
  transfer of ownership deletes the new owner's rows first; an import into an empty asset deletes
  nothing.
- `copy_permissions_from` depends on the order of the source rows exactly when the rows of a user, with
  what comes with them, both grant and deny something, or grant two permissions that contradict each
  other (`CopyIsOrderFreeIff`; with exceptions and all users, `CopyIsWhollyOrderFreeIff`). The former happens after any removal of an inherited permission followed
  by a save (`RemovedAndSavedClashes`). The copy is faithful in every order exactly when, in addition,
  the grants are complete and the target's parent adds nothing (`CopyIsFaithfulIff`).
- The last recalculation of a copy stops at the target, so that children can keep what they no longer
  inherit, or lack what they should inherit. `CopySettlesIff` has the exact condition, which for children
  that the copy recalculates is one on the state before the call (`VisitedCopyReachesIff`);
  `CopyLeavesChildBehind` and `CopyCutsChildOff` are families that fail.
- `update_partial_perms_to_include_implied` is said to copy the dictionary it is given; it copies the
  keys only, and extends the caller's lists in place. `UpdateSharedLists` says exactly which of them
  change, and `ChangeFiltersReachCallersViewList` is an input for which one does.
- The repeat counter of `getFlatQuestionsList` counts mismatched ends too: `CounterLaw` says what it
  counts, `FlagIsRightIff` when the flag is right, `MismatchedEndHidesRepeat` has an input where it is not.
- The default value of `query` in `validate_access_with_partial_perms` is one dictionary that searches
  change; `ValidateAccessWithPartialPerms` shows that it has no influence on calls with ids.

## Model

| member | source | states |
|---|---|---|
| `Implication.ImpliedPerms` | `kpi/mixins/object_permission.py:379-406` | The worklist terminates on every graph, cyclic ones included, and returns exactly what is reachable in one edge or more (who reaches it, in reverse mode), cut down to the given permissions if there are any. |
| `Implication.ReverseGraph` | `kpi/mixins/object_permission.py:380-385` | The reversed dictionary has exactly the reversed edges. |
| `Implication.TransposeReaches` | `kpi/mixins/object_permission.py:379-385` | q is implied by p exactly when p is found from q in reverse mode. |
| `Implication.ReachesTransitive` | `kpi/mixins/object_permission.py:387-397` | Implication is transitive. |
| `AllImpliedPerms.GetAllImpliedPerms` | `kpi/mixins/object_permission.py:408-441` | For every codename of the table: what it implies, but, when an asset is passed, what implies it, unrestricted. |
| `AllImpliedPerms.AgreesWithDocumentedIff` | `kpi/mixins/object_permission.py:409-441` | With an asset, the documented result is given exactly for the permissions that nothing implies and that imply nothing the asset can be given, and, on a cycle of implications, for those whose cycle is all that implies them and all they imply among what the asset can be given. |
| `AllImpliedPerms.ChangeAssetIsReversed` | `kpi/mixins/object_permission.py:438-441` | With the real table and a survey, change_asset is listed as implying manage_asset and not view_asset. |
| `PermissionTables.ConeClosed` | `kpi/mixins/object_permission.py:533-538` | Everything that comes with a member of a cone is in the cone already, in both directions. |
| `PermissionTables.AssetImplies` | `kpi/models/asset.py:372-391` | The transitive closure of the real table, permission by permission. |
| `PermissionTables.AssetImplicationIsOk` | `kpi/models/asset.py:372-391` | The real implications have no cycle; nothing implies the partial permission, and what it implies implies nothing more. |
| `PermissionTables.AssetAnonymousIsOk` | `kobo/settings/base.py:719-724` | What the anonymous user may have is closed under implication and under inheritance. |
| `PermissionTables.AssetHeritableIsOk` | `kpi/models/asset.py:366-370` | Inheritance is injective, never yields the partial permission, and respects implication. |
| `PermissionTables.AssetContradictionsAreNarrow` | `kpi/models/asset.py:393-405` | Contradicted permissions are never heritable; everything but the partial permission contradicts that one only; what implies a contradicted permission is contradicted. |
| `PermissionTables.AssetContradictionsAreConsistent` | `kpi/models/asset.py:393-405` | No grant contradicts what comes with it, and each contradiction is answered by the contradicted permission or by something granted with it, although manage_asset is missing from the table. |
| `PermissionTables.AssetAddingLeavesPartial` | `kpi/models/asset.py:393-405` | Granting the right to add submissions never contradicts the partial permission. |
| `PermissionTables.AssetPartialImpliesOne` | `kpi/models/asset.py:384` | The partial permission implies view_asset only. |
| `PermissionTables.AssetTablesAreWf` | `kpi/models/asset.py:325-405` | The tables of the asset class meet every condition that the general theorems ask of them, and have no cycle. |
| `PermissionTables.CyclesAreAllowed` | `kpi/mixins/object_permission.py:485-538` | A table with a cycle of implications can meet the conditions too: the theorems on saves, assignments, transfers and copies cover such tables. |
| `AssetPermissions.UserCanBeGiven` | `kpi/models/asset.py:325-357` | A permission other than the partial one can be granted or denied to a user exactly on the types that it is listed for, written out for each type. |
| `AssetPermissions.PublicCanBeGranted` | `kobo/settings/base.py:719-724` | The public can be granted viewing, adding and viewing submissions on a survey, viewing and discovering on a collection, viewing on other types, and nothing else. |
| `AssetPermissions.PartialCanBeGranted` | `kpi/models/asset.py:325-337` | The partial permission can be granted exactly on surveys with an owner, to users who are neither that owner nor the public, with filters. |
| `AssetPermissions.CanBeTaken` | `kpi/mixins/object_permission.py:673-710` | remove_perm refuses delete_asset, and what is inherited though the type cannot be given it, and nothing else, unless the partial permission is concerned. |
| `AssetPermissions.OwnerIsGiven` | `kpi/mixins/object_permission.py:292-313` | The owner's inherited rows after a save, type by type: on surveys and collections viewing, changing and managing among them. |
| `AssetPermissions.ChildIsGiven` | `kpi/models/asset.py:366-370` | Others inherit viewing and changing, where effective on the parent, and nothing else. |
| `AssetPermissions.SurveyGrantBrings` | `kpi/models/asset.py:372-391` | What each grant on a survey brings along. |
| `AssetPermissions.SurveyDenialTakes` | `kpi/models/asset.py:372-391` | What each denial or removal on a survey takes along. |
| `AssetPermissions.GrantDrops` | `kpi/mixins/object_permission.py:500-518` | A new grant of the partial permission drops every row of the user, granted, denied or inherited, for viewing, changing, deleting and validating submissions and managing the asset; a new grant of one of the first four drops every row for the partial permission. |
| `AssetPermissions.SurveyPassesOn` | `kpi/models/asset_user_partial_permission.py:135-150` | Whose filters go where on a survey: those for changing submissions to viewing and adding them, those for deleting and validating to viewing, those for managing the asset to all five. |
| `AssetPermissions.WalkVisits` | `kpi/mixins/object_permission.py:253-271` | The recalculation of descendants goes from collections to their children outside the trash, and nowhere else. |
| `PermissionRows.AssignedComposes` | `kpi/mixins/object_permission.py:485-538` | Assigning one set of permissions after another is assigning both at once: the order of the recursion does not matter, as long as the grants do not contradict each other. |
| `PermissionRows.AssignedComposesForDenials` | `kpi/mixins/object_permission.py:485-538` | The same for denials, unconditionally. |
| `PermissionRows.GrantConeIsConflictFree` | `kpi/mixins/object_permission.py:506-515` | What is granted together never contradicts itself. |
| `PermissionRows.RemovedComposes` | `kpi/mixins/object_permission.py:689-701` | Removing one set and then another is removing both at once, although each removal can leave denials that the next one meets. |
| `PermissionInvariants.NodeOkIsClosed` | `kpi/mixins/object_permission.py:204-218` | Rows that satisfy the row invariants give effective permissions closed under implication. |
| `PermissionInvariants.AssignSucceedsIff` | `kpi/mixins/object_permission.py:464-480` | assign_perm succeeds exactly when the permission is assignable and, for a grant to the public, allowed; a new denial does not meet a partial permission denied already; and a partial permission comes with filters, for somebody who is not the owner of an asset with an owner, and can bring along what they bring along. |
| `PermissionInvariants.AssignedKeepsInherited` | `kpi/mixins/object_permission.py:500-515` | assign_perm never deletes or creates an inherited row, although the contradictory filter does not exclude them. |
| `PermissionInvariants.AssignedKeepsRowsFit` | `kpi/mixins/object_permission.py:464-480` | After assign_perm the rows still name assignable permissions, and grant the anonymous user only what it may have. |
| `PermissionInvariants.AssignedKeepsNotBoth` | `kpi/mixins/object_permission.py:499-527` | Whatever the rows are, assign_perm leaves nothing both granted and denied explicitly that was not before. |
| `PermissionInvariants.AssignedAgreesIff` | `kpi/mixins/object_permission.py:499-515` | After a grant no two explicit grants contradict each other if and only if every older grant that contradicts something newly granted is contradicted by something newly granted, and so deleted. |
| `PermissionInvariants.AssignedKeepsNoContradiction` | `kpi/mixins/object_permission.py:499-538` | That is so whenever the explicit rows name permissions of the asset's type, or the table of contradictions is symmetric. |
| `PermissionInvariants.AssignedKeepsGrantsClosed` | `kpi/mixins/object_permission.py:499-538` | After assign_perm the explicit grants are closed downwards, even where rows were deleted as contradictory. |
| `PermissionInvariants.AssignedKeepsDenialsClosed` | `kpi/mixins/object_permission.py:499-538` | After assign_perm the denials of what can be inherited are closed upwards. |
| `PermissionInvariants.AssignedKeepsNodeOk` | `kpi/mixins/object_permission.py:499-538` | assign_perm keeps all the row invariants. |
| `PermissionInvariants.AssignedTakesEffect` | `kpi/mixins/object_permission.py:485-542` | On every table, cyclic ones included, and whatever is closed under implication: a new grant leaves p and all it implies explicitly granted and effective; a new denial leaves p and all that implies it explicitly denied and not effective. |
| `PermissionInvariants.AssignOutcomeTakesEffect` | `kpi/mixins/object_permission.py:485-556` | The same for a whole call that succeeds, for the partial permission with what it brings along, and with the early return on an identical row. |
| `PermissionInvariants.AssignOutcomeKeepsNodeOk` | `kpi/mixins/object_permission.py:443-556` | The same invariants for a whole call, with the identical-row case and the permissions that partial permissions bring along. |
| `PermissionInvariants.RemovedKeepsNoContradiction` | `kpi/mixins/object_permission.py:689-701` | remove_perm leaves nothing both granted and denied, and no contradicting grants. |
| `PermissionInvariants.RemovedKeepsGrantsClosed` | `kpi/mixins/object_permission.py:689-701` | remove_perm leaves the explicit grants closed downwards. |
| `PermissionInvariants.RemovedKeepsInheritedClosed` | `kpi/mixins/object_permission.py:689-701` | remove_perm leaves the inherited grants closed downwards. |
| `PermissionInvariants.RemovedKeepsDenialsClosed` | `kpi/mixins/object_permission.py:697-701` | remove_perm leaves the denials of what can be inherited closed upwards. |
| `PermissionInvariants.RemovedKeepsNodeOk` | `kpi/mixins/object_permission.py:650-721` | remove_perm keeps all the row invariants. |
| `PermissionInvariants.RemovedTakesEffect` | `kpi/mixins/object_permission.py:653-668` | Whatever the rows are, removing p takes p and all that implies it from the user, and nothing else from anyone. |
| `PermissionInheritance.RecalculatedIsIdempotent` | `kpi/mixins/object_permission.py:273-357` | Recalculating the inherited rows twice is doing it once. |
| `PermissionInheritance.InheritsIsClosed` | `kpi/mixins/object_permission.py:324-346` | What a child inherits is closed under implication, translations included. |
| `PermissionInheritance.InheritsFits` | `kpi/mixins/object_permission.py:324-346` | What a child inherits is allowed where the user is anonymous, and assignable to it if its type can be given all that is heritable. |
| `PermissionInheritance.RecalculatedFits` | `kpi/mixins/object_permission.py:273-357` | Whatever the explicit rows are, a recalculation leaves inherited rows that grant, and grant what can be inherited, and nothing to the public but what it may have. |
| `PermissionInheritance.RecalculatedIsNodeOk` | `kpi/mixins/object_permission.py:273-357` | From sound explicit rows a recalculation establishes all row invariants, whatever the stale inherited rows were. |
| `PermissionInheritance.RecalculatedIsSettled` | `kpi/mixins/object_permission.py:273-357` | After a recalculation the stored effective permissions are those of a recalculation. |
| `PermissionInheritance.AssignOutcomeKeepsSettled` | `kpi/mixins/object_permission.py:443-556` | assign_perm on an asset that agrees with a recalculation leaves one that does, without recalculating the asset itself. |
| `PermissionInheritance.RemovedIsSettledIff` | `kpi/mixins/object_permission.py:650-721` | Whatever the rows are: after remove_perm the asset agrees with a recalculation if and only if each affected permission that would be inherited again still had its inherited row, was denied already, or implies one that is now turned into a denial. |
| `PermissionRemoval.RemovalSurvives` | `kpi/mixins/object_permission.py:650-721` | From freshly recalculated rows: after remove_perm and any number of recalculations, p and all that implies it are gone for the user, and every other effective permission of everyone is as before. |
| `PermissionRemoval.SecondRemovalComesBack` | `kpi/mixins/object_permission.py:685-701` | An inherited permission removed, granted and removed again leaves no denial: the next recalculation gives it back. |
| `PermissionRemoval.SecondRemovalIsRefused` | `kpi/models/asset.py:1321-1334` | With a save between grant and second removal, the removal of a permission that the partial one implies raises and changes nothing, because the partial permission is denied already. |
| `PermissionRemoval.ViewAssetRemovalIsRefused` | `kpi/models/asset.py:1321-1334` | With the real tables this happens to view_asset on any project that inherits it. |
| `PermissionRemoval.RemovalDeniesPartial` | `kpi/mixins/object_permission.py:697-701` | The first removal leaves a denial of the partial permission. |
| `PermissionRemoval.GrantKeepsPartialDenied` | `kpi/mixins/object_permission.py:499-538` | The grant afterwards does not clear that denial. |
| `PermissionSaves.OwnRowsStaySoundIff` | `kpi/mixins/object_permission.py:157-165` | The explicit rows of an asset satisfy the row invariants under a new owner and type if and only if they name permissions of the new type, no grant implies what only the new type can be given, and what becomes inheritable and implies a denied permission is denied. |
| `PermissionSaves.OwnRowsStaySound` | `kpi/mixins/object_permission.py:157-165` | They always do when the asset only moves, or gets an owner without rows of its own. |
| `PermissionSaves.SavedIsClosedIff` | `kpi/mixins/object_permission.py:533-538` | After any save, effective permissions are closed under implication if and only if what explicit grants imply beyond the old type is inherited, and what is inherited and implies a denied permission is denied. |
| `PermissionSaves.NewOwnerIsClosedIff` | `kpi/mixins/object_permission.py:293-313` | With a new owner: if and only if each permission an owner gets that implies one denied to the new owner is denied to it as well. |
| `PermissionSaves.OwnRowsOfNewOwnerMatter` | `kobo/apps/project_ownership/models/transfer.py:167-168` | An input for which it fails: a partial user denied adding submissions and made owner of the survey may change submissions, but not add them, which changing them implies. |
| `PermissionSaves.NewTypeIsClosedIff` | `kpi/models/import_export_task.py:444-445` | With a new type: if and only if no user but the owner was granted what implies a permission of the new type only, and the owner is denied nothing that such a permission implies. |
| `PermissionSaves.EmptyAssetSavedAsSurvey` | `kpi/models/import_export_task.py:444-445` | A family for which it fails: whoever but the owner was granted manage_asset on an empty asset holds it without add_submissions once the asset is saved as a survey. |
| `PermissionSaves.ManagerOfEmptyAsset` | `kpi/models/import_export_task.py:444-445` | One call of assign_perm on a new empty asset leads there. |
| `PermissionSaves.PartialUserOfTemplate` | `kpi/serializers/v2/asset.py:293` | An input after which explicit grants contradict each other: a partial user of a survey that is saved as a template and then granted manage_asset holds both. |
| `AssetForest.SettledIsEntitled` | `kpi/mixins/object_permission.py:190-218` | Where every asset agrees with a recalculation from its parent, the stored effective permissions of every asset are the recursively defined ones. |
| `AssetForest.RecalculatedBelowIsUnique` | `kpi/mixins/object_permission.py:253-271` | The recalculated table is a function of the table it starts from, whatever the order of the children. |
| `AssetForest.RecalculatedBelowIsOk` | `kpi/mixins/object_permission.py:253-271` | A recalculation of descendants keeps the row invariants of the whole forest. |
| `AssetForest.RecalculatedBelowSettles` | `kpi/mixins/object_permission.py:253-271` | It settles whatever the walk comes to, and unsettles nothing but children of those that the walk passes by. |
| `AssetForest.RecalculatedBelowKeepsExplicit` | `kpi/mixins/object_permission.py:262-269` | It changes no explicit row. |
| `AssetForest.RecalculatedBelowIsIdempotent` | `kpi/mixins/object_permission.py:253-271` | Done again it changes nothing. |
| `DescendantWalk.SubtreesAreDisjoint` | `kpi/mixins/object_permission.py:257-271` | The subtrees of two children never meet, and never hold the parent. |
| `DescendantWalk.OneMoreChild` | `kpi/mixins/object_permission.py:261-271` | One round of the loop recalculates one child and its subtree, and nothing else. |
| `DescendantWalk.AllChildrenDone` | `kpi/mixins/object_permission.py:257-271` | Once every child is done, exactly the descendants are recalculated. |
| `PermissionShifts.UnmovedIff` | `kpi/mixins/object_permission.py:315-346` | A child that agrees with one state of its parent agrees with another if and only if it has an explicit row, or is owned by the user, wherever the two states differ in something heritable. |
| `PermissionShifts.WalkMovesIff` | `kpi/mixins/object_permission.py:253-271` | After the rows of one asset changed and the walk was made, a user has a permission on another asset that it had not before, or the reverse, if and only if the change travels there through translations, links that the walk follows and assets without explicit rows for it: told from the table before the walk. |
| `PermissionShifts.WalkSettlesOtherIff` | `kpi/mixins/object_permission.py:254-256` | After the walk an asset agrees with a recalculation if and only if it is not stranded: the walk comes to it, or nothing it takes from its parent moves. The walk passes by children of an asset whose type has none, and children in the trash. |
| `PermissionShifts.WalkSettlesIff` | `kpi/mixins/object_permission.py:253-271` | The whole forest stays settled if and only if the changed asset is, and nothing is stranded. |
| `AssignRecursion.MissingShrinks` | `kpi/mixins/object_permission.py:533-538` | Each recursive call of assign_perm has strictly fewer rows to create, even around a cycle of implications. |
| `AssignRecursion.AssigningNext` | `kpi/mixins/object_permission.py:536-538` | A recursive call adds the cone of its permission, or finds it assigned; it raises only where the whole call is to raise. |
| `AssignRecursion.AssigningDone` | `kpi/mixins/object_permission.py:533-542` | After the last recursive call the rows are those of the whole cone. |
| `AssignRecursion.ConeOfOtherIsOthers` | `kpi/mixins/object_permission.py:689-694` | What implies a permission that implies p implies p, and the recursion of remove_perm shrinks. |
| `AssignRecursion.RemovingNext` | `kpi/mixins/object_permission.py:692-694` | A recursive call of remove_perm removes the cone of its permission and never raises. |
| `AssignRecursion.RemovingDone` | `kpi/mixins/object_permission.py:695-701` | The last part of remove_perm, with the nested denial, completes the removal of the whole cone or raises for it. |
| `PermissionSteps.SaveIsSoundIff` | `kpi/mixins/object_permission.py:157-165` | A save keeps every row invariant if and only if the explicit rows satisfy the row invariants under the new owner and type, and the new type can be given what it can inherit. |
| `PermissionSteps.OrdinarySaveHolds` | `kpi/mixins/object_permission.py:157-165` | They do when the asset is new or moves, keeps what its type can be given, can be given what it can inherit, and keeps its owner or gets one without rows on it. |
| `PermissionSteps.SavedRows` | `kpi/mixins/object_permission.py:273-357` | After any save the owner has one inherited row for each permission that the type can be given, the partial one aside; everybody else has one for each permission that the parent effectively gives them, translated; explicit rows are as before. |
| `PermissionSteps.SavedOwnerHolds` | `kpi/mixins/object_permission.py:292-313` | So the owner holds each of these permissions exactly when no explicit row denies it. |
| `PermissionSteps.ChangeIsSound` | `kpi/mixins/object_permission.py:554-556` | Changing the rows of one asset and recalculating below keeps every row invariant. |
| `PermissionSteps.AssignIsSound` | `kpi/mixins/object_permission.py:443-556` | assign_perm keeps every row invariant. |
| `PermissionSteps.AssignKeepsRest` | `kpi/mixins/object_permission.py:499-542` | assign_perm leaves alone every row of other users, and those of the user for permissions that neither come with the assigned one nor are contradicted by what does. |
| `PermissionSteps.RemoveIsSound` | `kpi/mixins/object_permission.py:650-721` | remove_perm keeps every row invariant. |
| `PermissionSteps.RemoveKeepsRest` | `kpi/mixins/object_permission.py:650-721` | remove_perm takes nothing but grants of the user, of p and what implies it, and adds nothing but denials of those. |
| `PermissionSteps.HandOverIsSound` | `kobo/apps/project_ownership/models/transfer.py:164-212` | A transfer of ownership, the final grant to the former owner included, keeps every row invariant, whatever the new owner held before. |
| `PermissionSteps.HandOverGives` | `kobo/apps/project_ownership/models/transfer.py:164-212` | Where the sender can be given manage_asset, a transfer does not raise: the new owner owns the asset, the sender is granted manage_asset, and a new owner other than the sender has one inherited row for each permission of the type but the partial one and no explicit row. Otherwise nothing changes. |
| `PermissionSteps.HandOverKeepsOthers` | `kobo/apps/project_ownership/models/transfer.py:164-168` | The explicit rows of everybody but the sender are as before, those of the new owner gone. |
| `PermissionSteps.ToggleIsSound` | `kobo/apps/trash_bin/models/project.py:69-82` | So does putting assets into the trash or taking them out. |
| `PermissionConsistency.SaveIsConsistent` | `kpi/mixins/object_permission.py:157-165` | Any save, with whatever explicit rows, keeps the weaker invariant: inherited rows fit, nothing is both granted and denied explicitly, public grants are allowed; and, if the explicit rows name permissions of the new type, that no explicit grants contradict each other. |
| `PermissionAgreement.SaveSettles` | `kpi/mixins/object_permission.py:157-165` | Any save settles the saved asset and whatever the walk comes to, in whatever state they were. |
| `PermissionAgreement.SaveSettlesIff` | `kpi/mixins/object_permission.py:157-165` | A save keeps a settled forest settled if and only if it strands nothing, as a collection with children that becomes a survey can. |
| `PermissionAgreement.ChangeSettlesIff` | `kpi/mixins/object_permission.py:554-556` | When the rows of one asset change and its descendants are recalculated, a settled forest stays settled if and only if the asset itself does and nothing is stranded. |
| `PermissionAgreement.EarlyReturnWalksNowhere` | `kpi/mixins/object_permission.py:491-497` | Where assign_perm returns early and changes rows all the same, no walk would have come to anything. |
| `PermissionAgreement.AssignSettlesIff` | `kpi/mixins/object_permission.py:443-556` | assign_perm keeps a settled forest settled if and only if it raises or strands nothing, whatever the explicit rows. |
| `PermissionAgreement.RemoveSettlesIff` | `kpi/mixins/object_permission.py:650-721` | remove_perm keeps a settled forest settled if and only if it raises, or its condition holds and it strands nothing. |
| `PermissionAgreement.HandOverSettlesIff` | `kobo/apps/project_ownership/models/transfer.py:164-212` | A transfer of ownership keeps a settled forest settled if and only if it raises or, as a whole, strands nothing. |
| `PermissionAgreement.ToggleKeepsSettled` | `kobo/apps/trash_bin/models/project.py:69-82` | The trash changes no agreement. |
| `PermissionAgreement.ChildPassedByKeeps` | `kpi/mixins/object_permission.py:254-256` | What is removed from a user on an asset stays with it on a child that the walk passes by. |
| `PermissionAgreement.RetypedCollectionLeavesChild` | `kpi/mixins/object_permission.py:254-256` | An input: a collection is saved as a survey, and view_asset then removed from one of its viewers; a child that inherited it goes on giving it, although the removal itself would outlive a recalculation. |
| `PermissionAgreement.TrashedChildKeeps` | `kpi/models/asset.py:126-127` | Another: a child in the trash while a permission is removed on its parent; taken out again, it still gives it. |
| `CopyWrites.CopyDecidesIff` | `kpi/mixins/object_permission.py:137-151` | In every order of the source rows: the copy leaves an explicit row of a user for a permission that nothing contradicts if and only if some source row of that user decides it, by itself, by what comes with it or by what partial permissions bring along. |
| `CopySteps.CopyIsSound` | `kpi/mixins/object_permission.py:92-155` | copy_permissions_from keeps every row invariant. |
| `CopySteps.CopyIsConsistent` | `kpi/mixins/object_permission.py:92-155` | It keeps the weaker invariant, whatever the explicit rows. |
| `CopySteps.ShiftsIff` | `kpi/mixins/object_permission.py:125-155` | What a user has on the target in the end but had not when a child was last recalculated, or the reverse. If the copy recalculated the child: what the target's parent hands down and no source row decides, whatever the order. With source rows of the owner only: what the parent hands down and the user had not, or the reverse. |
| `CopySteps.ChildSettledIff` | `kpi/mixins/object_permission.py:152-155` | A child of the target agrees with it in the end if and only if it has an explicit row of its own wherever something it could inherit shifts so. |
| `CopySteps.CopySettlesIff` | `kpi/mixins/object_permission.py:92-155` | The copy keeps a settled forest settled if and only if it raises, or every child is shielded like that and the copied rows strand nothing further down. |
| `CopySteps.CopyReplacesRows` | `kpi/mixins/object_permission.py:125-155` | A copy that does not raise leaves the explicit rows of the target's owner as they were, and no explicit row to anybody of whom the source has none. |
| `CopySteps.VisitedCopyReachesIff` | `kpi/mixins/object_permission.py:125-155` | Where the walk passes nothing by, that can be told before the call and does not depend on the order of the source rows. |
| `CopySteps.CopyLeavesChildBehind` | `kpi/mixins/object_permission.py:125-155` | A family that fails: when the source has rows of the owner only, what the copy takes from a user on the target stays effective on the child. |
| `CopySteps.CopyCutsChildOff` | `kpi/mixins/object_permission.py:125-155` | Another: what the target's parent hands down and no source row decides is effective on the target in the end, and not on the child. |
| `PermissionRuns.StepIsSoundIff` | `kpi/mixins/object_permission.py:92-721` | Every operation keeps every row invariant, a save if and only if the explicit rows stay sound under it. |
| `PermissionRuns.StepIsConsistent` | `kpi/mixins/object_permission.py:92-721` | Every operation, any save included, keeps the weaker invariant. |
| `PermissionRuns.StepIsSettledIff` | `kpi/mixins/object_permission.py:92-721` | Every operation keeps a settled forest settled if and only if its result lasts, under the exact conditions above. |
| `PermissionRuns.VisitedLasts` | `kpi/mixins/object_permission.py:253-271` | While every asset with children is of a type that may have them, and no child is in the trash: saves, transfers and assignments always last, and removals exactly under the condition on the asset alone. |
| `PermissionRuns.RunIsSound` | `kpi/mixins/object_permission.py:92-721` | Every row invariant holds throughout every run of saves, transfers, assignments, removals, copies and moves into and out of the trash from an empty database in which each save keeps the explicit rows sound. |
| `PermissionRuns.EveryRunAgrees` | `kpi/mixins/object_permission.py:190-218` | In every state of every run whose operations meet their conditions, the effective permissions read from the stored rows are the recursively defined ones at every asset. |
| `PermissionRuns.EveryRunFollowsParents` | `kpi/mixins/object_permission.py:280-284` | The definition spelled out: in every state of every run that lasts a user effectively has p exactly when an explicit row grants it, or, for the owner, the type can be given it and it is not the partial one, or, for others, the parent effectively gives a permission translated to it; and no explicit row denies it, and the public may have it if the user is the public. |
| `PermissionRuns.EveryOwnerHolds` | `kpi/mixins/object_permission.py:292-313` | In all those states an owner holds each permission that the type can be given, the partial one aside, exactly when no explicit row denies it. |
| `PermissionRuns.EveryRunIsConsistent` | `kpi/mixins/object_permission.py:464-515` | In every state of every run nothing is both granted and denied explicitly, inherited rows grant what can be inherited, and every grant to the anonymous user is allowed. |
| `PermissionRuns.EveryRunIsFreeOfContradictions` | `kpi/mixins/object_permission.py:499-515` | In every state of every run whose saves leave explicit rows for permissions of the asset's type, or with a symmetric table, nobody holds two explicit grants that contradict each other. |
| `PermissionRuns.EveryRunIsClosed` | `kpi/mixins/object_permission.py:533-538` | In every state of every run whose saves keep the explicit rows sound, at every asset, effective permissions are closed under implication. |
| `AssetStore.Store.FilterAnonymousPerms` | `kpi/mixins/object_permission.py:167-188` | Exactly the pairs of the anonymous user that it may not have are dropped. |
| `AssetStore.Store.GetEffectivePerms` | `kpi/mixins/object_permission.py:190-218` | Grants less denials, filtered, for all users. |
| `AssetStore.Store.RecalculateInheritedPerms` | `kpi/mixins/object_permission.py:273-357` | The inherited rows become those of the owner and the parent, the shared translation cache having no influence, and no row is created twice. |
| `AssetStore.Store.OwnerPermsMadeExplicit` | `kpi/mixins/object_permission.py:293-313` | The first half: the owner, and nobody else, has an inherited row for every permission that the type can be given, the partial one aside. |
| `AssetStore.Store.CopyParentPerms` | `kpi/mixins/object_permission.py:315-357` | The second half: one inherited row for each translated pair of another user. |
| `AssetStore.Store.RecalculateDescendantsPerms` | `kpi/mixins/object_permission.py:253-271` | Terminates on every forest, whatever the types of its parents, and recalculates exactly the descendants that it comes to, each from the new rows of its parent: children of assets whose type has none, and children in the trash, are passed by. |
| `AssetStore.Store.RecalculateChild` | `kpi/mixins/object_permission.py:261-271` | The body of that loop. |
| `AssetStore.Store.Save` | `kpi/mixins/object_permission.py:157-165` | Stores the asset, recalculates it and everything below; a step of the runs. Afterwards the owner has an inherited row for exactly the permissions that the type can be given, the partial one aside. |
| `AssetStore.Store.HandOver` | `kobo/apps/project_ownership/models/transfer.py:164-212` | So is a transfer of ownership, with the final grant of manage_asset to the former owner; everything is undone if that raises. |
| `AssetStore.Store.ToggleAssetStatuses` | `kobo/apps/trash_bin/models/project.py:69-82` | A move into or out of the trash, without a save. |
| `AssetStore.Store.UpdatePartialPermissions` | `kpi/models/asset.py:1321-1355` | Refuses owners and calls without filters, and assigns add_submissions when the expanded filters have it. |
| `AssetStore.Store.AssignPerm` | `kpi/mixins/object_permission.py:443-556` | Terminates on every table, cyclic ones included, and makes of the table exactly the closed form of one assignment: the cone of p, the contradicted rows gone, the table unchanged when it raises. |
| `AssetStore.Store.AssignRows` | `kpi/mixins/object_permission.py:462-545` | The checks, the identical row and the rest. |
| `AssetStore.Store.AssignNewRow` | `kpi/mixins/object_permission.py:499-545` | The case without an identical row. |
| `AssetStore.Store.AssignWithImplied` | `kpi/mixins/object_permission.py:499-538` | The row and everything that comes with it. |
| `AssetStore.Store.ReplaceContradictory` | `kpi/mixins/object_permission.py:499-527` | The deleted rows and the created one. |
| `AssetStore.Store.AssignImplied` | `kpi/mixins/object_permission.py:533-538` | The loop over implied permissions, in any order. |
| `AssetStore.Store.RemovePerm` | `kpi/mixins/object_permission.py:650-721` | Terminates, and makes of the table exactly the closed form of one removal, unchanged when it raises. |
| `AssetStore.Store.RemoveRows` | `kpi/mixins/object_permission.py:680-701` | The same up to the recalculation of descendants. |
| `AssetStore.Store.RemoveImplied` | `kpi/mixins/object_permission.py:692-694` | The loop over what implies p, in any order. |
| `AssetStore.Store.CopyPermissionsFrom` | `kpi/mixins/object_permission.py:92-155` | The owner's rows stay, each other row of the source is assigned in the listed order, with the stored filters of its user for the partial permission; then the target alone is recalculated; a step of the runs. It raises what the first refused row raises, and then nothing has changed. |
| `AssetStore.Store.AssignAll` | `kpi/mixins/object_permission.py:137-151` | The loop over the source rows: the rows assigned so far, and descendants recalculated once a row was copied. |
| `CopyPermissions.CopyKeepsNodeOk` | `kpi/mixins/object_permission.py:137-151` | Whatever the source holds, and in any order of its rows, copying keeps the row invariants of the target. |
| `CopyPermissions.CopyKeepsOwnersRows` | `kpi/mixins/object_permission.py:125-151` | The rows of the target's owner stay, and nobody is given an inherited row. |
| `CopyPermissions.CopyRecalculatesIff` | `kpi/mixins/object_permission.py:125-155` | The copy recalculates the target's descendants if and only if the source has a row of anyone but the target's owner; else it changes no row either. |
| `CopyPermissions.NeverRaisesIff` | `kpi/mixins/object_permission.py:137-151` | Copying raises in no order if and only if the target can be given every row, partial permissions with their filters and what these bring along included, and no two rows of one user deny the partial permission, themselves or by implication. |
| `CopyPermissions.CopyingStopped` | `kpi/mixins/object_permission.py:138-151` | An exception ends the copying. |
| `CopyOrder.CopyIsLocal` | `kpi/mixins/object_permission.py:125-151` | Whether the copy raises, and what it leaves to anyone but the target's owner, does not depend on the owner's rows. |
| `CopyOrder.CopyFollowsSource` | `kpi/mixins/object_permission.py:137-151` | Unless the source rows of a user, with what comes with them, both grant and deny a permission, or grant two that contradict each other: in every order the explicit grants are exactly what they grant, and the denials what they deny, except that a denial of something contradicted may be gone. |
| `CopyPartial.PartialRowIsCopied` | `kpi/mixins/object_permission.py:146-151` | A source row granting the partial permission to a user with stored filters never raises on a target that can be given it and what the filters bring along; it is copied, and adding submissions with it exactly when those filters reach it. |
| `CopyPartial.PartialUserIsCopied` | `kpi/mixins/object_permission.py:146-151` | On a survey a user with the partial permission and viewing is left with exactly these two in any order, and with adding submissions exactly when filters for that, for changing submissions or for managing the asset are stored for the user. |
| `CopyPartial.ReachesAddingIff` | `kpi/models/asset_user_partial_permission.py:135-150` | Stored filters bring adding submissions along exactly when there is an entry for it, or a non-empty list of filters for something that implies it. |
| `CopyOrder.CopiedWithoutConflict` | `kpi/mixins/object_permission.py:137-155` | Then the user ends with what the source rows grant or the target's parent hands down, less what they deny. |
| `CopyOrder.RowWinsSomewhere` | `kpi/mixins/object_permission.py:137-151` | Whatever a source row grants, and the permission it denies, stands in some order. |
| `CopyOrder.CopyIsOrderFreeIff` | `kpi/mixins/object_permission.py:137-151` | A user ends with the same effective permissions in every order if and only if there is no such clash and no such contradiction. |
| `CopyOrder.CopyIsWhollyOrderFreeIff` | `kpi/mixins/object_permission.py:92-155` | Exceptions included, and for all users together: the copy does not depend on the order if and only if it raises in every order, some row being one that the target cannot be given, or no two rows of one user deny the partial permission and nobody's rows clash or contradict each other. |
| `CopyOrder.CopyIsFaithfulIff` | `kpi/mixins/object_permission.py:92-155` | The result is the source's in every order if and only if, in addition, what comes with the grants is granted and the target's parent hands down nothing that the source does not grant or deny. |
| `CopyOrder.ClashIff` | `kpi/mixins/object_permission.py:137-151` | There is a clash exactly when a permission given to the user is, or implies, one denied to it. |
| `CopyOrder.RemovedAndSavedClashes` | `kpi/mixins/object_permission.py:273-357` | An ordinary source with a clash: an inherited permission was removed, and the asset saved since. |
| `PermissionQueries.GetObjectPermissions` | `kpi/mixins/object_permission.py:834-910` | The pairs of the user and of the anonymous user, granted or denied as asked. |
| `PermissionQueries.GetEffectivePermsOf` | `kpi/mixins/object_permission.py:190-251` | The effective pairs for one user and one codename; the owner has the pair for deleting the asset, and on a survey its submissions, without any row, and no other pair is without one; the anonymous user's pair is there unfiltered. |
| `PermissionQueries.HasPerm` | `kpi/mixins/object_permission.py:610-638` | The answer is the intended one if and only if the public's rows for p stay within what the public may have, or the answer comes from elsewhere: the test for exactly one pair fails when user and public both hold p. Where they do, exactly these are answered true: active superusers; users who hold a grant that no denial cancels, or whom a project view gives p; the owner for deleting the asset, and on a survey its submissions, whatever the rows say; and everybody for what the public holds. |
| `PermissionQueries.HasPermOfPublic` | `kpi/mixins/object_permission.py:629-637` | The answer for the anonymous user. |
| `PermissionQueries.PublicRowsAreAllowed` | `kpi/mixins/object_permission.py:471-480` | In every state of every run that condition holds, so has_perm is right in all of them. |
| `PartialPermissions.ExpansionIsExpanded` | `kpi/models/asset_user_partial_permission.py:126-153` | After the expansion no permission has a filter that one implied by it lacks. |
| `PartialPermissions.ExpansionMatches` | `kpi/models/asset_user_partial_permission.py:126-153` | A submission is matched under p after the expansion exactly when p, or something implying p, matched it before. |
| `PartialPermissions.ExpansionMatchesImplied` | `kpi/models/asset_user_partial_permission.py:126-153` | A submission matched under p is matched under everything p implies. |
| `PartialPermissions.PartialPermsDict.AddImpliedPermission` | `kpi/models/asset_user_partial_permission.py:73-78` | The filters of the one permission are appended in place to the list of the other, where missing and without repeats; no other list changes, and lists stay the objects they were. |
| `PartialPermissions.UpdateSharedLists` | `kpi/models/asset_user_partial_permission.py:126-153` | The new dictionary holds the caller's own list objects, expanded in place, and fresh ones under new keys; in any order of keys and implied permissions each permission ends with exactly its own filters and those of what implies it, without new repeats. The caller's list under a key is only ever extended, and it changes if and only if something that implies the key has a filter that it lacks. |
| `PartialPermissions.ChangeFiltersReachCallersViewList` | `kpi/models/asset_user_partial_permission.py:126-153` | An input for which it does: on a survey, filters for changing submissions end up in the caller's list for viewing them. |
| `PartialPermissions.UpdateToIncludeImplied` | `kpi/models/asset_user_partial_permission.py:126-153` | The same result for a dictionary that nobody else holds. |
| `PartialAccess.Deployment.ValidateAccessWithPartialPerms` | `kpi/deployment_backends/base_backend.py:658-741` | A user without the partial permission is not checked. A partial user passes exactly if, ids given, every one of them is stored, allowed and matched by the query, or, none given, something is; then the ids returned are a non-empty list of exactly those. The shared default query, which searches change, has no influence when ids are given. |
| `PartialAccess.SelectedIff` | `kpi/deployment_backends/base_backend.py:658-741` | What the check selects: stored submissions, among the ids if given, else among those of the query, that meet the other conditions of the query and that a filter of the user for the permission matches; an empty list of filters, or no row-level permission at all, lets everything through, having some but none for it nothing. |
| `PartialAccess.Deployment.RequestData` | `kpi/deployment_backends/kobocat_backend.py:313-325` | What the bulk operations send on for a partial user: the selected ids and no query, never a request that reads as full access. |
| `PartialAccess.Deployment.BulkUpdateTargets` | `kpi/deployment_backends/base_backend.py:107-133` | A bulk update of a partial user reaches exactly the selected submissions that the user may also view, and fails exactly when the check refuses or there are none; when whoever may change a submission may view it, it reaches all that the check selected. |
| `PartialAccess.ExpandedFiltersLetViewFollowIff` | `kpi/deployment_backends/base_backend.py:123-128` | Stored filters, being expanded, meet that condition if and only if the permission has no empty list of filters, which narrows nothing, or every submission may be seen anyway. |
| `PartialAccess.SurveyFiltersReachView` | `kpi/models/asset.py:385-390` | Changing, deleting and validating submissions pass their filters on to viewing them. |
| `PartialAccess.SameMembersMeansGranted` | `kpi/deployment_backends/base_backend.py:721-726` | The comparison of sorted lists says exactly that every given id was granted. |
| `PartialAccess.RetrievedAfterCheck` | `kpi/deployment_backends/base_backend.py:116-128` | The second search, over the ids of the check, finds exactly those that may be viewed. |
| `MediaSync.SyncOne` | `kpi/deployment_backends/kobocat_backend.py:1150-1201` | One record: what is sent, what it makes of the entries, what leaves the snapshot, what happens to the local record. |
| `MediaSync.SyncRecords` | `kpi/deployment_backends/kobocat_backend.py:1148-1201` | The loop over the records: what it leaves of the entries, the snapshot and the local records, and the requests it sends for each id. |
| `MediaSync.DeleteOrphans` | `kpi/deployment_backends/kobocat_backend.py:1203-1206` | The last loop: what is left in the snapshot is deleted unless it was uploaded directly, and no request concerns a live record. |
| `MediaSync.SyncMediaFiles` | `kpi/deployment_backends/kobocat_backend.py:1130-1206` | Afterwards the remote entries are the ones wanted: live records present with their hash, direct uploads kept unless a live record took their id, nothing else left; tombstones are gone locally; no request fails; nothing is written when there is nothing to do. For a live record whose id had an entry that no tombstone took: with the same hash the entry is untouched and nothing is sent for it; with another hash paired data is patched at its place, keeping its origin, by that one request, and form media is deleted and then posted, so that its entry is one sent by KPI. A record without an entry is posted and nothing else. |
| `MediaSync.SynchronizedIsInSync` | `kpi/deployment_backends/kobocat_backend.py:1146-1206` | After a synchronization there is nothing to do: a second one sends no write. |
| `MediaSync.OrderDoesNotMatter` | `kpi/deployment_backends/kobocat_backend.py:1148-1206` | The final remote entries do not depend on the order of the local records. |
| `MediaSync.NewFileIsWanted` | `kpi/deployment_backends/kobocat_backend.py:1155-1158` | A record that is not in the snapshot has no remote entry, even after a tombstone deleted one. |
| `MediaSync.SaveKcMetadata` | `kpi/deployment_backends/kobocat_backend.py:1624-1659` | One entry more, and the record flagged. |
| `MediaSync.DeleteKcMetadata` | `kpi/deployment_backends/kobocat_backend.py:1399-1415` | One entry less. |
| `MediaSync.UpdateKcMetadataHash` | `kpi/deployment_backends/kobocat_backend.py:1661-1676` | The hash patched, the origin kept, the record flagged. |
| `ChunkedDelete.Database.DeleteChunk` | `kpi/utils/chunked_delete.py:6` | At most a thousand selected records are deleted; fewer than a thousand only if no selected one is left. |
| `ChunkedDelete.Database.ChunkedDelete` | `kpi/utils/chunked_delete.py:4-8` | Terminates with nothing left to select; when deleting selected records does not change which others are selected, the result is that of one deletion at once, whatever each chunk holds. |
| `ChunkedDelete.OldSnapshotsIsStable` | `kpi/maintenance_tasks.py:16-22` | The snapshot query is of that kind, although a deletion can remove the newer snapshot that justified another one. |
| `ChunkedDelete.RemoveOldAssetSnapshots` | `kpi/maintenance_tasks.py:11-24` | A snapshot is left if and only if it was there and was created at the cutoff or later, or is versioned and no versioned snapshot of the same asset has a greater key in the table at the start; what is left is unchanged, however the chunks were cut. |
| `ChunkedDelete.LatestVersionedSurvives` | `kpi/maintenance_tasks.py:14-18` | The latest versioned snapshot of each asset survives, however old. |
| `ChunkedDelete.RemoveOldImportTasks` | `kpi/maintenance_tasks.py:27-34` | Exactly the old import tasks are deleted. |
| `Translations.Content.PrioritizeTranslation` | `kpi/mixins/formpack_xlsform_utils.py:262-301` | Moves the language and every aligned cell, or raises, or ignores the unnamed single language; cells stay aligned with the list. |
| `Translations.Content.PrependTranslation` | `kpi/mixins/formpack_xlsform_utils.py:285-299` | A new first language, each translated cell starting with a copy of its first text, or with a word if that is missing, all other cells as before; the exact errors for a known language, a missing column and a form without languages, and which rows an error leaves changed. |
| `Translations.Content.RemoveLastTranslation` | `kpi/mixins/formpack_xlsform_utils.py:303-311` | The last language and the last text of every cell go; the exact errors, and what an error leaves changed. |
| `Translations.Content.RenameTranslation` | `kpi/mixins/formpack_xlsform_utils.py:322-326` | One name is replaced, distinct names stay distinct; otherwise it raises. |
| `Translations.Content.MakeDefaultTranslationFirst` | `kpi/mixins/formpack_xlsform_utils.py:184-195` | The default language comes first, every text kept; raises exactly for an unknown one. |
| `Translations.Content.ReorderTranslations` | `kpi/mixins/formpack_xlsform_utils.py:316-320` | Raises exactly for an unknown language; distinct names end up as a prefix in the given order, all of them as the whole list, and one permutation carries languages and texts. |
| `Translations.MovedKeepsTexts` | `kpi/mixins/formpack_xlsform_utils.py:285-301` | Moving to the front permutes languages and texts alike. |
| `Translations.TextIsKept` | `kpi/mixins/formpack_xlsform_utils.py:316-320` | The text of every row, column and language is the same before and after. |
| `Translations.PrependIsUndone` | `kpi/mixins/formpack_xlsform_utils.py:303-320` | Prepending a language, reordering it to the end and removing the last language gives every row back. |
| `SurveyPaths.Survey.InsertFullPathsInPlace` | `kpi/utils/absolute_paths.py:28-45` | Writes the paths of the walk into the rows, and raises exactly when the walk pops an empty stack; then the rows before that end row are written and no other. |
| `SurveyPaths.WalkIsByTree` | `kpi/utils/absolute_paths.py:35-45` | On a well-nested survey with named groups the stack is never popped empty and ends empty, and every row is given the names of its enclosing groups and its own. |
| `SurveyPaths.PathsAreJoined` | `kpi/utils/absolute_paths.py:10-19` | On any list of rows and open groups the paths written are the joined name paths of the tree, in order: `$xpath` by slashes, `$qpath` by dashes. |
| `SurveyPaths.WrittenPathsAreJoined` | `kpi/utils/absolute_paths.py:10-45` | So the walk gives each named row of a well-nested survey the names of the groups around it and its own, joined, both as `$qpath` and as `$xpath`. |
| `SurveyPaths.QuestionInAndAfterGroup` | `kpi/utils/absolute_paths.py:28-45` | A row inside a group, repeat or score has its name in both paths; one inside a rank or a matrix has not; after the end row the group plays no part. |
| `SurveyPaths.NameOfOneRow` | `kpi/utils/absolute_paths.py:22-26` | The name is the one of the row, even a null one, else the automatic one; without either the row is left alone. |
| `SurveyPaths.WalkWritesPathsOnly` | `kpi/utils/absolute_paths.py:28-45` | The walk changes nothing but the two paths. |
| `SurveyPaths.PathsAreDistinct` | `kpi/utils/absolute_paths.py:35-45` | With distinct sibling names no two rows have the same name path. |
| `SurveyPaths.JoinIsInjective` | `kpi/utils/absolute_paths.py:16-19` | A joined path of slash-free names can be read back. |
| `SurveyPaths.XpathsAreDistinct` | `kpi/utils/absolute_paths.py:28-45` | With distinct slash-free sibling names no two named rows of a survey are given the same `$xpath`. |
| `FlatPaths.GetSurveyFlatPaths` | `jsapp/js/assetUtils.ts:324-356` | Gives each listed row, under its name, the names of the groups open there and its own, joined; groups and meta questions only if asked for. `PathsAgree` compares it with the back end. |
| `FlatPaths.OneRowIsListed` | `jsapp/js/assetUtils.ts:315-352` | Which rows are listed, and under which name: its own, else the automatic one, else the identifier, where missing, null and empty names are passed over. |
| `FlatPaths.WalksAgree` | `jsapp/js/assetUtils.ts:332-353` | Front end and back end keep the same stack of open groups, and list the same paths. |
| `FlatPaths.PathsAgree` | `jsapp/js/assetUtils.ts:318-356` | For surveys of group, repeat and score groups with unique names, the front end computes for every listed row the `$xpath` that the back end stored. |
| `FlatPaths.StoredPathIsListed` | `jsapp/js/assetUtils.ts:319` | With unique names no path is overwritten. |
| `FlatQuestions.GetFlatQuestionsList` | `jsapp/js/assetUtils.ts:573-622` | Every question once and in order, meta questions only if asked for, with its name, label and required flag, the path looked up, which is always there, its open groups, the label of each of them, and its repeat flag. |
| `FlatQuestions.QuestionInOneGroup` | `jsapp/js/assetUtils.ts:580-616` | A question after one row that begins a group or a repeat has that row as its only parent and is flagged for a repeat only; other kinds of groups are no parents. |
| `FlatQuestions.QuestionAfterOneGroup` | `jsapp/js/assetUtils.ts:586-616` | Once that group has ended, a question has no parent and is not flagged. |
| `FlatQuestions.CounterLaw` | `jsapp/js/assetUtils.ts:580-597` | For all rows: the counter is the number of open repeats plus the ends that closed a repeat less the ends of repeats. |
| `FlatQuestions.FlagIsRightIff` | `jsapp/js/assetUtils.ts:616` | A question is flagged rightly if and only if, with r repeats open, that difference is above -r where r is positive, and not positive where r is 0. |
| `FlatQuestions.RepeatParentIsReal` | `jsapp/js/assetUtils.ts:616` | So it is wherever end rows match their begin rows. |
| `FlatQuestions.MismatchedEndHidesRepeat` | `jsapp/js/assetUtils.ts:593-597` | After a group closed by an end_repeat a question inside a repeat is not flagged. |
| `FlatQuestions.PathFollowsParents` | `jsapp/js/assetUtils.ts:580-615` | With unique names and only groups and repeats, the path looked up is made of the names of the listed parent rows and the question's own. |
| `ZipImport.ImportFile.constructor` | `kpi/zip_importer.py:25-48` | Sets the directory and the own path of a file. |
| `ZipImport.PathIsSplit` | `kpi/zip_importer.py:25-44` | The path of a file, one slash at the end aside, is its directory, then slashes only, then the last part. |
| `ZipImport.TrailingSlashIsIgnored` | `kpi/zip_importer.py:25-44` | One slash at the end of a name changes neither directory nor own path. |
| `ZipImport.HiddenIff` | `kpi/zip_importer.py:83-88` | An entry is hidden exactly when the last part of its path, after the last slash, starts with a dot or a hash. |
| `ZipImport.PlainPathIsRebuiltIff` | `kpi/zip_importer.py:25-44` | Directory and last part, joined by a slash, are the path again if and only if it neither starts with a slash nor has two slashes before its last part. |
| `ZipImport.RootFileImport.Register` | `kpi/zip_importer.py:46-48` | The index keeps the first file with each path. |
| `ZipImport.RootFileImport.ParseZip` | `kpi/zip_importer.py:79-107` | One file for each visible entry, in order, with the name and contents of that entry; its parent is the first file at its directory's path, else the root, so parent links cannot close a loop. |
| `ZipImport.RootFileImport.RemoveInvalidAssets` | `kpi/zip_importer.py:206-212` | Exactly the files whose contents are neither a directory, an archive nor a spreadsheet go; the rest keeps its order. |
| `ZipImport.RootFileImport.RemoveEmptyCollectionsOnce` | `kpi/zip_importer.py:193-204` | One round: all childless directories go, each with a warning. |
| `ZipImport.RootFileImport.RemoveEmptyCollections` | `kpi/zip_importer.py:189-191` | Terminates; exactly the directories without a file below them go, each with a warning. |
| `ZipImport.RootFileImport.ParseAndPrune` | `kpi/models/import_export_task.py:319-321` | What is left is the root, every file with the contents of a spreadsheet and every directory with one below it, in order; and the parent of each is left too, unless it was an unreadable file. |
| `ZipImport.FileIsBelow` | `kpi/zip_importer.py:189-204` | A directory that no round removes has a file below it. |
| `ZipImport.RoundIsDead` | `kpi/zip_importer.py:193-204` | No round removes a directory that has one. |
| `ZipImport.ParentsSurvive` | `kpi/models/import_export_task.py:363-367` | The parent of each kept file is kept, unless it was an unreadable file. |

## Left out

- KoBoCAT permission mirroring, signals and the per-request cache: side effects outside the permission table.
- Project views: one boolean parameter of `HasPerm`.
- `AssetStore.Store.UpdatePartialPermissions`: the table of stored partial permissions itself; only the exceptions and the `add_submissions` grant that come from it.
- `get_implied_perms` with an asset of a type without an entry in the table: the model restricts to the empty set.
- Permission strings with an app label, and the lookup of permission and user records.
- Deletion of assets for good. The trash is modelled as a flag that the walk reads; what else it hides from other code is not.
- `CopyOrder.CopyIsFaithfulIff`: copies that raise in some order, which `NeverRaisesIff` tells apart; tables in which adding submissions contradicts the partial permission, or the partial permission implies more than one other, are excluded from the theorems on order.
- `AssetStore.Store.AssignPerm`: tables in which a grant contradicts something that comes with it are excluded, as the outcome then depends on the order of the recursion; so are tables in which something implies the partial permission.
- `AssetStore.Store.RemovePerm`: requires a table without cycles, on which alone the source's recursion ends, and no inherited row of the partial permission, which holds in every state of a run.
- `PermissionQueries.HasPerm`: assets owned by the anonymous user are excluded, and the anonymous user's database account is no superuser.
- `PartialPermissions.UpdateSharedLists`: dictionaries in which two keys hold the same list object; those read from a request or from the database never do.
- `PartialAccess`: ids are integers, and a Mongo query is given by the submissions that meet it; what `bulk_update_submissions` then does to the XML of each submission.
- `MediaSync.SyncMediaFiles`: at most one live record and one remote entry for each id; requests succeed; metadata of other data types; the changing hash of paired data.
- `MediaSync.OrderDoesNotMatter`: remote keys and the local flag for synchronized files may differ between orders.
- `ChunkedDelete`: cascades to other tables; which selected records a chunk takes is arbitrary.
- `Translations.Content`: contents whose translated cells are not parallel to the list of languages.
- `compare_translations` and the dispatch of `update_translation_list`, and `_rename_null_translation`, which is one case of renaming.
- `SurveyPaths.XpathsAreDistinct`: group kinds that the back end does not treat as groups (rank, kobomatrix) count as single rows.
- How `getQuestionOrChoiceDisplayName` picks the label of a row: each row of the model has its display name.
- `ZipImport`: reading archives and spreadsheets; `_ancestors`, whose loop check rejects any file whose parent is not the root.
- Views, serializers, settings other than the anonymous permissions, migrations, the user interface: plumbing.
