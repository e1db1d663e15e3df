# XECMS: fenced projection, tree presentation, manifests, access profiles and the page runtime

A Dafny model of the parts of XECMS in which several pieces of state have to stay in step, or in
which a fast form has to mean the same as a simple one, with proofs of what these parts promise.

- **Fences** (`Forest`, `ContentTree`, `Fence`, `FenceRelease`, `ContentProjection`). The content
  tree exists twice: committed with the documents, and projected into the authorization policy.
  Create, move, purge, schema apply and startup hold one lock, fence what they are about to change,
  commit, project, and drop the fences.
  `Fence` is the state machine of these steps, with a failure or crash possible between any two and
  commits whose reply is lost; `FenceRelease` says when handing fences back after a failure is safe;
  `ContentProjection.Server` runs the operations and records its states, so that its every path is a
  run of the machine. A resource without a projection is denied, so safety is a statement about
  documents that are projected and not fenced.
- **Tree presentation** (`Sequences`, `Preorder`, `TreeOrder`, `TreePresenter`). Flat parent pointers,
  possibly cyclic, become an ordered tree, and then the part of it one reader may see.
- **Manifests** (`Text`, `Json`, `Diff`, `Patch`, `DiffPaths`, `DiffEntries`, `Decode`, `DecodeProofs`,
  `DecodeFaults`, `ManifestGrammar`, `ObjectGraph`, `ManifestDecoding`). Canonical form, structural
  difference, the decoders, and the check of untrusted object graphs. `Json.Meaning` is the reference:
  what a value says, whatever the order of its keys. The decoders are data: a shape for each decoder of
  the source, with the members it allows and the members it builds as two lists, and one interpreter
  for all of them.
- **Typed manifests** (`ManifestTypes`, `TypedValues`, `FieldTyping`, `LayoutTyping`, `PageTyping`,
  `FrameTyping`, `ManifestTyping`). `ManifestTypes` has the published types of a manifest as datatypes
  and a function that writes each as JSON, and knows nothing of shapes. The other modules prove, rule by
  rule, that a decoder accepts exactly what the values of its type are written as: each member has one
  lemma for writing it and one for reading it back.
- **Validators** (`Uniqueness`, `FilterValidation`, `LayoutValidation`, `NavigationValidation`, and
  `FilterReports`, `LayoutReports`, `NavigationReports` for what exactly they report).
- **Access profile** (`AccessProfile`, `AccessEvaluation`, `AccessPages`, `AccessActions`,
  `AccessFields`, `AccessKeys`). Questions to the policy are deduplicated,
  asked in chunks, and asked again once if the policy changed. The policy is an arbitrary timeline:
  the n-th call meets the n-th policy. The reference asks one policy every question, and the last
  four modules say what that comes to for a page, an action, a field and the app, and that nothing else
  is answered.
- **Composed pages** (`PreviewQuery`, `Wiring`, `Effects`, `Requests`). Filters with unfilled
  parameters, the indexes built from the connections, guarded effect chains, and requests whose
  answers arrive late and in any order.
- **Login rate limit** (`RateLimit`) and **audit export** (`AuditExport`).

Code that works step by step is a class or a method with loops, proved equal to a function of the old
state; the lemmas are about that function. Where something turned out not to hold, there is a lemma
with a concrete case and one with the exact condition:

- A release of fences deletes them by id, whoever added them. After a commit without effect it is
  safe exactly if none of the ids was fenced before (`FenceRelease.AbortIsSafeExactlyWhenDisjoint`),
  and `FenceRelease.AbortedPurgeUncoversAnEarlierMove` is a run of the system in which that goes wrong.
- A commit can take effect while the caller sees a failure and releases the fence. With nothing fenced
  before, that is safe exactly if the change was harmless (`FenceRelease.UnseenCommitIsSafeExactlyWhen`,
  `FenceRelease.HarmlessExactlyWhen`), and `FenceRelease.ReleaseAfterUnseenCommitIsUnsafe` is a run in
  which it was not. `Fence.RunIsSafe` speaks of runs in which both conditions hold, and
  `Fence.ReconcileRestores` and `Fence.RestartHeals` say how every other run is healed.
- Login is checked, then verified, then recorded; logins that overlap are recorded beyond the limit.
  The bounds count them (`RateLimit.FailuresAreBounded`), so they need no premise about callers.
- A data source with an aggregate can be asked for rows as well (`await-query`). What is shown is the
  newest of its kind, and the newest of all exactly if the last request was of that kind
  (`Requests.ResultIsNewestExactlyWhen`, `Requests.AggregatedSourceShowsOlderRows`).
- The cursor codec of the audit trail by itself refuses some of its own output: exactly positions with
  another rank, sort ids of no or more than 300 units, and what has more than 750 bytes as JSON
  (`AuditExport.ReadsBackExactlyWhen`, `AuditExport.LongCursorIsRefused`,
  `AuditExport.WideSortIdIsRefused`). The sort ids the store makes are padded numbers and generated
  names, plain and short, so its trails are exported (`AuditExport.PlainTrailIsUnbroken`).

Strings are sequences of Unicode characters, without unpaired surrogates. They are compared as UTF-16
units are (`Text.LessComparesUnits`), and where a length counts, it is the number of units. Object keys
are not integer-like, because the language would reorder those. Only logic is modelled; nothing here was executed.

## Model

| member | source | states |
|---|---|---|
| Forest.MoveChangesExactlyTheSubtree | packages/core/src/hierarchy/commands.ts:82-136 | giving a document a new parent changes the chain of ancestors of exactly the documents in its subtree: nobody outside, and everybody inside if the parent really is another one |
| Forest.AgreeOnClosedSet | apps/server/src/schema-projection.ts:69-81 | two trees that agree on the parents of a set closed under parents give each of its documents the same chain; this is why projecting only the inheriting collections is enough |
| Forest.RelinkKeepsRooted | packages/core/src/hierarchy/commands.ts:96-104 | with the new parent outside the moved subtree every chain of parents still ends, so no cycle is created |
| Forest.RootedAfterRelink | packages/core/src/hierarchy/commands.ts:96-104 | the placed document itself reaches the end of a chain if and only if it is at the top, or its new parent reaches one and does not lie below it |
| Fence.CommittedKeepsPlacement | packages/core/src/hierarchy/commands.ts:182-240 | create, move, purge (children move up to the parent of the removed node) and schema apply keep the committed tree free of cycles and every parent in the collection of its child |
| Fence.CommitKeepsUnfencedChains | apps/server/src/content-hierarchy-runtime.ts:276-300 | a create or a move keeps collection and chain of every document of an inheriting collection that it does not fence |
| ContentTree.PurgeKeepsExactlyTheRest | packages/core/src/hierarchy/commands.ts:199-240 | a purge keeps a document and its chain if and only if it removes neither the document nor anything above it; the children of what it removes move up |
| Fence.CommitIsSafe | apps/server/src/schema-projection.ts:230-237 | committing behind the fence of the operation keeps authorization right for everything that is projected and not fenced |
| ContentTree.DesiredIsFaithful | apps/server/src/schema-projection.ts:63-89 | what a reconcile projects gives every projected document the full committed chain, collection included |
| Fence.StepIsSafe | apps/server/src/content-hierarchy-runtime.ts:276-312 | each single step (take the lock, fence, commit, release, commit unseen and release, project, unfence, fail or crash) keeps the invariant, provided a release gives back no older fence and, after a commit that took effect unseen, the change was harmless |
| Fence.RunIsSafe | apps/server/src/schema-projection.ts:208-265 | in every state of every run of create, move, purge, schema apply and startup, with a failure or crash between any two steps and commits that take effect while the caller sees a failure, each projected and unfenced document has its committed chain in the projection, as long as no release gives back a fence that an earlier unfinished operation left or uncovers a harmful change |
| Fence.CleanStepsStaySafe | apps/server/src/content-hierarchy-runtime.ts:276-312 | the same for clean steps from any state of the invariant, reached by a clean run or healed |
| Fence.OwnReleaseRunIsSafe | apps/server/src/content-hierarchy-runtime.ts:296-299 | with a release that drops only the fences the same operation added, the same holds whatever was fenced before; a harmful change that took effect unseen remains the one exception |
| Fence.UnseenCommitIsSafeExactlyWhenHarmless | apps/server/src/content-hierarchy-runtime.ts:296-299 | from every state of the invariant: a release after a commit that took effect unseen, giving back only its own fences, is safe if and only if the change was harmless |
| FenceRelease.UnseenCommitIsSafeExactlyWhen | apps/server/src/content-hierarchy-runtime.ts:296-299 | the same for the plain deletion by id of the system as it is, when none of the ids was fenced before |
| FenceRelease.HarmlessExactlyWhen | apps/server/src/schema-projection.ts:234-237 | harmless are: every schema apply, every move that keeps the parent or happens where permissions do not inherit, and a purge that removes nothing at or above a projected document |
| FenceRelease.AbortIsSafeExactlyWhenDisjoint | packages/database/src/postgres-authorization.ts:287-298 | the release is a plain deletion by id: after a commit without effect, for given older fences and released ids, it is safe from all reachable states if and only if the two sets are disjoint |
| FenceRelease.HarmlessCommitIsSafeExactlyWhenDisjoint | packages/database/src/postgres-authorization.ts:287-298 | the same for the release after a harmless commit that took effect unseen |
| Fence.AbortIsSafeExactlyWhen | packages/database/src/postgres-authorization.ts:287-298 | state by state: the plain release after a commit without effect is safe if and only if the projection was right already for every older fence it takes away |
| Fence.PlainUnseenCommitIsSafeExactlyWhen | packages/database/src/postgres-authorization.ts:287-298 | state by state, whatever was fenced before: the plain release after a commit that took effect unseen is safe if and only if the change was harmless and the projection is right for every older fence it takes away |
| FenceRelease.AbortedPurgeUncoversAnEarlierMove | apps/server/src/document-routes.ts:238-243 | a run of the system as it is that ends unsafe: a move commits and is not projected, then a purge fences everything, fails and removes the fence of the move with its own |
| FenceRelease.ReleaseAfterUnseenCommitIsUnsafe | apps/server/src/content-hierarchy-runtime.ts:296-299 | a run of the system as it is that ends unsafe with nothing fenced before: the commit of a move takes effect, its reply is lost and its fence is released |
| Fence.RunKeeps | packages/core/src/hierarchy/commands.ts:82-240 | every run whatsoever, the unsafe ones included, keeps the committed tree free of cycles and every parent in the collection of its child, every planned change admissible, and a projection just written equal to the inheriting tree |
| Fence.ReconcileRestores | apps/server/src/server.ts:550-570 | from every state of every run, the unsafe ones included, a reconcile that runs through restores the invariant: the projection is the whole inheriting tree with the committed chain of each document, and none of it stays fenced |
| Fence.RestartHeals | apps/server/src/server.ts:550-570 | every run can be continued by a restart and its reconcile to such a state |
| ContentProjection.Server.CollectProjections | apps/server/src/schema-projection.ts:69-81 | the nested loops collect exactly the documents of the inheriting collections with their parents |
| ContentProjection.Server.Reconcile | packages/application/src/authorization/resource-projection.ts:222-372 | the outcome is decided by the two durable calls, and projection and fences change only as far as these went: nothing, the projection alone, or both; the recorded history stays a run of the state machine |
| ContentProjection.Server.Startup | apps/server/src/server.ts:550-570 | the outcome is decided by the two durable calls; a startup that ends well leaves the whole inheriting tree projected and unfenced, and the object safe, whatever went before |
| ContentProjection.Server.CreateContentDocument | apps/server/src/content-hierarchy-runtime.ts:44-79 | create commits first and projects afterwards without a fence. Each outcome has its exact condition: rejected if and only if the change is inadmissible, not committed if and only if it is admissible and the commit had no effect, reported as failed if and only if the commit took effect unseen, else by the replies of the reconcile; and each says what tree, projection and fences are then |
| ContentProjection.Server.FenceResources | packages/application/src/authorization/resource-projection.ts:375-391 | fencing is refused unless all ids are projected, otherwise it adds exactly the ids; a lost reply ends the operation with the fence in place |
| ContentProjection.Server.MoveHierarchyDocument | apps/server/src/content-hierarchy-runtime.ts:220-312 | each outcome has its exact condition, a move to the top included: rejected if and only if the move is inadmissible, an affected id is not projected or the fence is not in place; not committed if and only if not rejected and the commit had no effect; done if and only if committed, projected and unfenced. Each says what tree, projection and fences are then: a committed move that is not projected keeps the old projection and exactly the older fences plus the moved subtree; one reported as failed although it took effect, and released, keeps the older fences minus the subtree |
| ContentProjection.Server.PurgeDocuments | apps/server/src/document-routes.ts:216-257 | each outcome has its exact condition in the fence, commit and reconcile replies, and says what tree, projection and fences are then; a purge whose commit succeeds and whose reconcile fails leaves everything projected under a fence |
| ContentProjection.Server.ApplySchemaWithProjection | apps/server/src/schema-projection.ts:208-265 | an apply is refused before anything is fenced if and only if it would switch inheritance for existing documents; the other outcomes have their exact condition in the replies, and say what projection and fences are then; one that is committed and not projected leaves everything fenced |
| ContentProjection.ServerIsSafe | apps/server/src/schema-projection.ts:208-265 | the object that runs the operations is safe whenever it is idle, by way of its recorded history |
| ContentProjection.ReconciledServerIsSafe | apps/server/src/schema-projection.ts:208-265 | whatever its history, the object is safe again once an operation or a startup ended with the inheriting tree projected |
| TreeOrder.OrderedIdsInTreeOrder | apps/server/src/response-presenters.ts:108-125 | for items with distinct ids and any parent pointers, cyclic ones included, the order lists each item whose parents lead to a root exactly once and nothing else, parents first, siblings by sort key and among equals as listed, every subtree contiguous |
| TreeOrder.ListedExactlyIfParentsEnd | apps/server/src/response-presenters.ts:108-125 | an item is listed if and only if, going up from parent to parent, an item without a parent or with one that is not in the list is reached after finitely many steps: a dangling parent makes a root, a cycle hides all that hangs on it |
| TreeOrder.AcyclicOrderIsPermutation | apps/server/src/response-presenters.ts:117-125 | if no parent chain is cyclic, the order is a permutation of the items |
| Preorder.ListsExactlyTheRooted | apps/server/src/response-presenters.ts:118-125 | the recursive descent from the roots reaches exactly the items whose chains end |
| Preorder.ParentsFirst | apps/server/src/response-presenters.ts:118-121 | every listed child comes after its parent |
| Preorder.ChildrenInOrder | apps/server/src/response-presenters.ts:118-121 | two children of one parent come in the order of the child list |
| Preorder.SubtreeIsContiguous | apps/server/src/response-presenters.ts:118-121 | whatever is listed between two members of a subtree belongs to the subtree |
| Sequences.SortByOrders | apps/server/src/response-presenters.ts:116 | the sort is ordered and a rearrangement: every element as often as before |
| Sequences.SortByIsStable | apps/server/src/response-presenters.ts:116 | and keeps the order of equal keys |
| TreePresenter.GroupByParent | apps/server/src/response-presenters.ts:109-116 | the map built and then sorted in place holds, for every parent, exactly its children, sorted and stable |
| TreePresenter.Ordering.AppendSubtree | apps/server/src/response-presenters.ts:118-121 | appends the preorder of one subtree, whatever was there before, and terminates on any parent pointers |
| TreePresenter.OrderPositions | apps/server/src/response-presenters.ts:108-125 | the grouping, sorting and appending together produce the tree order |
| TreePresenter.PresentNode | apps/server/src/response-presenters.ts:138-167 | the cursor loop finds the path up to the first hidden parent, and its guard against revisiting never fires on a listed item |
| TreePresenter.PresentationIsSelfConsistent | apps/server/src/response-presenters.ts:135-168 | under any set of readable documents a path is the path of the visible parent plus the node itself, or the node alone; depth is path length minus one; hasChildren holds exactly if some node shown names it as parent |
| TreePresenter.PresentTree | apps/server/src/response-presenters.ts:94-169 | more than 1000 items are refused, and a read that fails with anything but a refusal is reported; otherwise the nodes are exactly those ids of the tree order to which access is granted, in that order, and their parents and paths name no other id; and the presentation is consistent in itself |
| Text.LessIsTotal | packages/admin-apps/src/normalize.ts:43 | of two texts exactly one is less, or they are equal |
| Text.LessIsTransitive | packages/admin-apps/src/normalize.ts:43 | the text comparison is transitive |
| Text.LessComparesUnits | packages/admin-apps/src/normalize.ts:43 | it is the comparison of the UTF-16 units of the two texts, characters above U+FFFF included |
| Json.CanonicalIsCanonical | packages/admin-apps/src/normalize.ts:37-49 | canonical values have sorted keys at every level, no undefined members and no negative zero |
| Json.CanonicalIsFixed | packages/admin-apps/src/normalize.ts:37-49 | a canonical value is its own canonical form |
| Json.CanonicalKeepsMeaning | packages/admin-apps/src/normalize.ts:37-49 | the canonical form means the same: the same atoms, lists and key tables, undefined members and the sign of zero apart |
| Json.CanonicalIdentifiesMeaning | packages/admin-apps/src/normalize.ts:37-49 | two values have the same canonical form if and only if they mean the same |
| Diff.EntryList.Compare | packages/admin-apps/src/diff.ts:37-71 | the recursion that pushes into the shared list appends exactly the entries of the difference, below the given path |
| Diff.DiffManifestValues | packages/admin-apps/src/diff.ts:31-35 | the entries are the difference of the two canonical forms, and the flag says whether there are any |
| Patch.ApplyDiff | packages/admin-apps/src/diff.ts:37-71 | applying the entries to the canonical first value gives the canonical second value, for every pair: other kinds, arrays that grow or shrink, members that come and go |
| Patch.UnchangedMeansSame | packages/admin-apps/src/diff.ts:31-35 | there are no entries if and only if the two values mean the same |
| DiffPaths.DiffIsFaithful | packages/admin-apps/src/diff.ts:37-71 | what an entry records as before and after is what its path resolves to in the two values, absence included |
| DiffPaths.DiffIsPrefixFree | packages/admin-apps/src/diff.ts:37-71 | no path of an entry is a prefix of the path of another |
| DiffEntries.DiffIsExact | packages/admin-apps/src/diff.ts:37-71 | the entries are exactly the smallest places in which the two values differ: a change never has two arrays or two objects as its sides, an addition or removal lies in a container present on both sides, and every such place has an entry |
| DiffEntries.DiffIsInOrder | packages/admin-apps/src/diff.ts:37-71 | the entries come in the order of their paths: by index in arrays, by key in objects |
| DecodeProofs.DecodeMeaning | packages/admin-apps/src/decode.ts:52-505 | under a grammar whose decoders build exactly the members they let through, each decoder accepts exactly the values of its type, and what it builds means the same as its input: nothing lost, nothing invented |
| DecodeProofs.DecodeExactlyMeaning | packages/admin-apps/src/decode.ts:523-536 | without that premise: what is accepted is decided by the list of allowed members, and the result means the same as the input if and only if the built members cover it; one that is let through and not built would be lost |
| ManifestGrammar.ShapeOf | packages/admin-apps/src/decode.ts:52-494 | in every decoder of the manifest the list of allowed members, written out as in the source, names exactly the members it builds; what each member decodes to is what ManifestTyping.ManifestsAreTheTyped pins |
| DecodeProofs.DecodeUnionMeaning | packages/admin-apps/src/decode.ts:447-467 | a tagged record is accepted exactly if the shared members, the tag and the members of the tagged variant are right and there is no other member |
| ManifestDecoding.DecodesToCanonicalForm | packages/admin-apps/src/decode.ts:31-36 | an input is decoded if and only if it has the shape of a manifest and is valid, and then to the canonical form of the input; undecodable and invalid inputs are told apart |
| ManifestTyping.ManifestsAreTheTyped | packages/admin-apps/src/types.ts:1-250 | a value has the meaning of a manifest, as the decoders read it, if and only if some typed manifest is written with that meaning; the typed manifests and their writing are defined after the published types, without the shapes of the decoders |
| ManifestTyping.WrittenIsDecoded | packages/admin-apps/src/types.ts:1-250 | every typed manifest, written as JSON, is decoded into its canonical form if it is valid, and never undecodable |
| ManifestTyping.DecodedIsWritten | packages/admin-apps/src/types.ts:1-250 | whatever is decoded is the canonical form of what some typed manifest is written as |
| ManifestTyping.DecodesExactlyTheTyped | packages/admin-apps/src/decode.ts:31-36 | of the sound object graphs exactly those are decoded that stand for what a valid typed manifest is written as, into its canonical form; undecodable are exactly those that stand for none |
| FieldTyping.ColumnIsTyped | packages/admin-apps/src/decode.ts:239-249 | the decoder of a column accepts exactly what typed columns are written as: an integer width, a field reference, the rest text |
| FieldTyping.FilterIsTyped | packages/admin-apps/src/decode.ts:282-308 | the same for filters, nested to any depth |
| LayoutTyping.FormNodeIsTyped | packages/admin-apps/src/decode.ts:376-435 | the same for the nodes of form layouts and their tabs, nested in each other to any depth |
| PageTyping.PageIsTyped | packages/admin-apps/src/decode.ts:141-237 | the same for the six kinds of pages |
| FrameTyping.NavigationItemIsTyped | packages/admin-apps/src/decode.ts:93-110 | the same for navigation items, nested to any depth |
| DecodeFaults.ReportsFault | packages/admin-apps/src/decode.ts:496-569 | every error names a fault of the input: its path leads from the input to a value, member or missing member, and its code is what is wrong there |
| DecodeFaults.UnknownMemberComesFirst | packages/admin-apps/src/decode.ts:523-527 | an unknown member is reported before anything else, and of several the first one of the object |
| DecodeFaults.FirstRefusedFieldIsReported | packages/admin-apps/src/decode.ts:529-536 | of the members the first, in the order of the decoder, is reported that is missing though required or refused by its decoder, with the code and path of that refusal |
| DecodeFaults.PageOfUnknownType | packages/admin-apps/src/decode.ts:141-152 | a page of none of the six types is refused with a code of its own, at its type |
| DecodeFaults.PanelOfUnknownType | packages/admin-apps/src/decode.ts:447-467 | so is a panel of none of the six types, once its id is found to be a text |
| ManifestDecoding.DecodesExactlyTheManifests | packages/admin-apps/src/decode.ts:31-36 | of all finite object graphs exactly the sound ones that mean a valid manifest are decoded, into a canonical value with the meaning of the graph; each way to fail has its exact condition |
| ManifestDecoding.SameMeaningSameManifest | packages/admin-apps/src/decode.ts:31-36 | two graphs that mean the same are both decoded or both not, and to the same value: sharing, order of members and sign of zero do not show |
| ManifestDecoding.DecodingIsIdempotent | packages/admin-apps/src/decode.ts:31-36 | decoding what was decoded gives the same again |
| ObjectGraph.Checker.AssertJsonCompatible | packages/admin-apps/src/decode.ts:571-598 | the traversal of a finite object graph, shared or cyclic, terminates and on success leaves the set of active objects as it found it |
| ObjectGraph.AcceptedMeansSound | packages/admin-apps/src/decode.ts:571-598 | an object is accepted if and only if every reachable value is legal JSON and no cycle is reachable; shared objects are no obstacle |
| ObjectGraph.SoundExactlyWhen | packages/admin-apps/src/decode.ts:571-598 | from the inside: sound are null, booleans, texts and finite numbers, arrays without holes and plain objects with ordinary members whose parts are all sound, if they do not contain themselves |
| ObjectGraph.CheckInput | packages/admin-apps/src/decode.ts:32 | the check as called accepts exactly the sound inputs |
| ObjectGraph.UnfoldIsClean | packages/admin-apps/src/decode.ts:31-33 | an accepted graph unfolds to a tree that the decoders may rely on |
| AccessProfile.CatalogKeyIsInjective | apps/server/src/admin-app-runtime-routes.ts:777-787 | without NUL characters in identifiers two checks share a catalog key if and only if they ask the same |
| AccessProfile.NulBreaksTheCatalog | apps/server/src/admin-app-runtime-routes.ts:777-787 | the key relies on that premise, and decoded manifests meet it: with NUL two checks would share a key, but the patterns for actions and resource ids (validate.ts:28-29) admit none |
| AccessProfile.CheckCatalog.Add | apps/server/src/admin-app-runtime-routes.ts:789-799 | a check is stored once and every later request for it gets the id of the first |
| AccessProfile.SameProfile | apps/server/src/admin-app-runtime-routes.ts:727-770 | putting the answers together by check id gives what asking each question gives, field lists included |
| AccessEvaluation.ChunkChecks | apps/server/src/admin-app-runtime-routes.ts:1016-1020 | the chunks are the items in order, a hundred at a time, none empty and only the last one shorter |
| AccessEvaluation.Attempt | apps/server/src/admin-app-runtime-routes.ts:807-821 | an attempt ends stable only with the answers of the policy it started with, and ends stale only if the revision changed on the way |
| AccessEvaluation.EvaluateStable | apps/server/src/admin-app-runtime-routes.ts:802-828 | answers come from the policy of one moment; staleness is reported only if the policy changed in both attempts; a failure only if a call was refused |
| AccessEvaluation.ProfileBuilder.RememberSteps | apps/server/src/admin-app-runtime-routes.ts:649-724 | the plan kept in check ids stands for the plan of the same questions, page by page |
| AccessEvaluation.BuildAccessProfile | apps/server/src/admin-app-runtime-routes.ts:613-771 | the profile returned with a revision equals the profile obtained by asking the policy of that revision every question directly, despite deduplication, chunks, policy changes between calls and the one retry; otherwise it fails, and only for one of the two reasons |
| AccessKeys.AppAnswer | apps/server/src/admin-app-runtime-routes.ts:623-757 | the app is open exactly if the policy grants access to it |
| AccessKeys.NoOtherPagesOrPermissions | apps/server/src/admin-app-runtime-routes.ts:729-757 | the profile answers exactly for the pages of the request and the permissions it refers to |
| AccessKeys.NoOtherActions | apps/server/src/admin-app-runtime-routes.ts:645-757 | every action in the profile is one that some page of the request offers |
| AccessKeys.NoOtherCollections | apps/server/src/admin-app-runtime-routes.ts:1000-1014 | fields are listed exactly for the collections of the request |
| AccessKeys.BuiltInPermissionMeans | apps/server/src/admin-app-runtime-routes.ts:898-910 | a built-in action needs the content permission of its own name, except that an export only reads |
| AccessPages.PageAnswer | apps/server/src/admin-app-runtime-routes.ts:671-673 | the profile opens a page if and only if its gate is granted and what its kind asks of the content: list, read, create or update, one of two where either will do; and unmasks it if and only if that gate is granted too |
| AccessPages.PermissionAnswer | apps/server/src/admin-app-runtime-routes.ts:626-635 | every permission the manifest names is answered under its key, by the last reference with that key |
| AccessActions.KeyTellsPage | apps/server/src/admin-app-runtime-routes.ts:645-652 | with page ids that hold no colon, the key of an action tells its page |
| AccessActions.ActionAnswer | apps/server/src/admin-app-runtime-routes.ts:659-714 | an action has an entry if and only if its page lists it or shows revisions, a movable tree or media that bring it; it is allowed if and only if the page is open, its execute gate is granted and so is the one permission on content it needs |
| AccessFields.FieldAnswer | apps/server/src/admin-app-runtime-routes.ts:1000-1014 | a collection lists nothing if all its fields are open, else exactly the open ones in order; a write needs the right to create or to update; fields of a collection that no page shows are closed |
| PreviewQuery.ResolvingKeepsMeaning | packages/admin-runtime/src/preview-query.ts:47-66 | on every document the resolved filter evaluates as the original in which each unfilled condition counts as neutral in the nearest enclosing group that keeps something; there is no result exactly when nothing is filled in |
| PreviewQuery.ResolvingKeepsConditions | packages/admin-runtime/src/preview-query.ts:52-59 | no group of the result has fewer than two children, and its conditions are exactly the filled-in ones, in order, with their values |
| PreviewQuery.FailsAtFirstUndeclared | packages/admin-runtime/src/preview-query.ts:73-76 | resolution fails if and only if some parameter mentioned is not declared, filled in or not, and names the first one |
| PreviewQuery.QueryKeepsMeaning | packages/admin-runtime/src/preview-query.ts:23-43 | the request admits the documents the data source means, and all of them if no condition is filled in |
| PreviewQuery.ParameterMeans | packages/admin-runtime/src/preview-query.ts:61-80 | a condition on a declared parameter is dropped if and only if the parameter has no value, or null, or the empty text |
| PreviewQuery.QueryCarriesTheRest | packages/admin-runtime/src/preview-query.ts:23-43 | limit, fields and cursor go along unchanged, and so does the sort order unless it is empty |
| FilterValidation.FilterValidator.ValidateFilter | packages/admin-apps/src/validate.ts:235-250 | the method with the shared counter and the early returns reports what the recursive definition says |
| FilterValidation.CheckMeaning | packages/admin-apps/src/validate.ts:235-250 | from any count and depth reached so far: no new issue if and only if the rest fits the limits, and then every node was counted |
| FilterValidation.FilterIsValidExactlyWhen | packages/admin-apps/src/validate.ts:235-250 | no issue if and only if there are at most 100 nodes, at most 8 levels, no empty group, proper field ids, and every operator fits the shape of its value |
| FilterReports.ReportsExactlyTheFaults | packages/admin-apps/src/validate.ts:235-250 | within the limit of a hundred nodes the issues reported are exactly the faults of the nodes, each under its code and at its path |
| FilterReports.ComplexityIsReported | packages/admin-apps/src/validate.ts:236-239 | beyond the limit that is reported |
| LayoutValidation.LayoutValidator.Visit | packages/admin-apps/src/validate.ts:184-209 | the visit that grows the two registers reports what the recursive definition says |
| LayoutValidation.ValidateFormLayout | packages/admin-apps/src/validate.ts:180-211 | the whole check keeps the issues that were there in front, and adds none if and only if the layout is valid in the sense of LayoutIsValidExactlyWhen |
| LayoutValidation.TabsAreNewAnyway | packages/admin-apps/src/validate.ts:197-200 | the register of the tabs alone finds nothing that the register of the whole layout does not find |
| LayoutValidation.VisitListRegisters | packages/admin-apps/src/validate.ts:184-209 | from any registers and depth reached so far: no new issue if and only if all ids and placements are new and every part is proper, and then the registers grew by exactly these |
| LayoutValidation.LayoutIsValidExactlyWhen | packages/admin-apps/src/validate.ts:180-211 | no issue if and only if the layout is not empty, all node and tab ids differ across the tree, no field is placed twice, no container is empty, nesting is at most 8, and identifiers and conditions are valid |
| LayoutReports.LayoutReportsExactlyTheFaults | packages/admin-apps/src/validate.ts:180-211 | apart from ids and placements that occur twice, the issues reported are exactly the faults of the nodes, tabs and conditions, each under its code and at its path |
| NavigationValidation.NavigationValidator.ValidateNavigation | packages/admin-apps/src/validate.ts:94-120 | the visit with the shared register of ids and the set of items under visit reports what the recursive definition says, and leaves that set as it was, also when it returns early |
| NavigationValidation.VisitItemEnters | packages/admin-apps/src/validate.ts:94-120 | from any register, depth and items under visit: no new issue if and only if all ids are new and every part is proper, within the limit and not under visit |
| NavigationValidation.SoundExactlyWhen | packages/admin-apps/src/validate.ts:95-102 | the guard against cycles finds nothing that the limit of nesting would not find: within the limit no item is inside itself, so the guard decides which issue is reported and never whether one is |
| NavigationValidation.NavigationIsValidExactlyWhen | packages/admin-apps/src/validate.ts:81-84 | for any object graph of items, shared and cyclic ones included: no issue if and only if there is an item, every item is proper, no chain of children is longer than 12 levels below a root, and the ids at all places differ |
| NavigationReports.NavigationReportsExactlyTheFaults | packages/admin-apps/src/validate.ts:81-120 | apart from ids that occur twice, the issues reported are exactly the faults of the items, each under its code and at its path, for any object graph of items |
| NavigationValidation.CycleIsReported | packages/admin-apps/src/validate.ts:94-98 | an item inside itself, anywhere below a root, never passes |
| RateLimit.LoginRateLimiter.AssertAllowed | apps/server/src/rate-limit.ts:17-27 | refuses exactly blocked keys, and names the least number of whole seconds after which the window is over |
| RateLimit.LoginRateLimiter.RecordFailure | apps/server/src/rate-limit.ts:29-37 | what a failure does to the table; a key that is set again keeps its place |
| RateLimit.PutKeepsPlaces | apps/server/src/rate-limit.ts:29-37 | a key that is set again keeps its place in the order of eviction, and a new key comes last |
| RateLimit.LoginRateLimiter.FreeSpace | apps/server/src/rate-limit.ts:43-59 | the deleting loop and the evicting loop leave the unexpired entries, without the oldest if they still fill the table |
| RateLimit.RunIsBounded | apps/server/src/rate-limit.ts:29-59 | over any run, whatever the clock does, the table holds at most 10,000 keys, each once |
| RateLimit.EvictedOnlyWhenFull | apps/server/src/rate-limit.ts:43-59 | an unexpired entry is forgotten through another key if and only if it is the oldest of 10,000 unexpired ones and that key opens a window; otherwise it is unchanged |
| RateLimit.PotentialBounds | apps/server/src/rate-limit.ts:17-37 | from any state of the limiter: a bound on the failures still to come in a stretch of time, given the window and the clock |
| RateLimit.FailuresAreBounded | apps/server/src/rate-limit.ts:17-37 | in every half-open stretch of one window length a key has at most 2 x maximumAttempts - 1 failures (a limit of zero counts as one), plus one for each failure recorded although a check just before would have refused, plus maximumAttempts for each time its window was cleared or evicted |
| RateLimit.WindowIsBounded | apps/server/src/rate-limit.ts:29-37 | what a window counts beyond maximumAttempts are exactly the failures that were recorded since it was opened although a check would have refused them; these are some of the overruns of the run |
| RateLimit.BoundIsAttained | apps/server/src/rate-limit.ts:17-37 | the bound is sharp for every maximumAttempts and window length: a run of checked failures that reaches it |
| RateLimit.OverlappingLoginsExceed | apps/server/src/server.ts:1541-1563 | two logins that are both checked before either fails exceed the bound for checked failures |
| Requests.Provider.Execute | packages/admin-runtime/src/composed-runtime.tsx:172-197 | a request aborts the one before it for the same source, registers itself and shows loading, as rows or as groups |
| Requests.Provider.ExecuteAndGet | packages/admin-runtime/src/composed-runtime.tsx:205-213 | asks for rows even if the source is aggregated |
| Requests.Provider.Settled | packages/admin-runtime/src/composed-runtime.tsx:182-195 | an aborted request stores nothing; whoever waits for its rows gets none |
| Requests.RunShowsNewest | packages/admin-runtime/src/composed-runtime.tsx:150-229 | in every interleaving of requests, answers, resets and page changes, a result that is shown is the answer to the newest request of its kind for that source |
| Requests.StoredResultIsNewest | packages/admin-runtime/src/composed-runtime.tsx:172-229 | for a source that is not aggregated a stored success or error belongs to the newest request of all |
| Requests.SupersededAnswerChangesNothing | packages/admin-runtime/src/composed-runtime.tsx:183-191 | an answer to a superseded request changes nothing that is shown |
| Requests.NewestAnswerIsShown | packages/admin-runtime/src/composed-runtime.tsx:182-195 | the answer to the newest request is shown when it arrives, unless the page was left |
| Requests.AskShowsLoading | packages/admin-runtime/src/composed-runtime.tsx:172-197 | a request keeps the data on show and marks them as loading; it touches nothing else but the register of controllers |
| Requests.ResetAndLeave | packages/admin-runtime/src/composed-runtime.tsx:150-229 | a reset shows nothing for that source and leaves groups alone; leaving aborts whatever is registered and changes nothing on show |
| Requests.AnsweredOnce | packages/admin-runtime/src/composed-runtime.tsx:182-195 | a request is answered once |
| Requests.ResultIsNewestExactlyWhen | packages/admin-runtime/src/composed-runtime.tsx:150-229 | in every reachable state a stored result, of rows or of groups, answers the newest request of its kind, and it answers the newest request of all for its source if and only if the request in the register of controllers is of that kind |
| Requests.AggregatedSourceShowsOlderRows | packages/admin-runtime/src/composed-runtime.tsx:205-229 | a run in which that fails: older rows stay on show while a newer request for groups is under way |
| Effects.GuardStaysTrue | packages/admin-runtime/src/composed-effects.ts:190-239 | a guard that is true without any query is true for every count a query could have |
| Effects.GuardSeesLastCount | packages/admin-runtime/src/composed-runtime.tsx:336-362 | a guard sees the count of the last awaited query whose own guard passed, and none if there is none |
| Effects.QueryTestsMean | packages/admin-runtime/src/composed-effects.ts:225-239 | what the three tests of the last query say, and that they are false if there was none |
| Effects.StateTestsMean | packages/admin-runtime/src/composed-effects.ts:208-258 | what the tests of a state say: emptiness, strict comparison of numbers and booleans with both zeros equal, comparison as text otherwise |
| Effects.CombinedGuardsMean | packages/admin-runtime/src/composed-effects.ts:190-196 | what conjunctions and disjunctions of guards say |
| Effects.CollectFields | packages/admin-runtime/src/composed-effects.ts:147-155 | the loop builds the record of fields to update |
| Effects.LastEntryDecides | packages/admin-runtime/src/composed-effects.ts:149-155 | of several entries that name a field the last one decides |
| Effects.UnnamedFieldStays | packages/admin-runtime/src/composed-effects.ts:149-155 | a field that no entry names is not written |
| Effects.MutationsArePermitted | packages/admin-runtime/src/composed-effects.ts:88-158 | an effect is denied if and only if it asks for an action that is not permitted; a mutation is the action asked for, permitted, in the collection named, on the document selected |
| Effects.CompleteEffectsAreCarriedOut | packages/admin-runtime/src/composed-effects.ts:88-158 | an effect on a form or a document becomes the plan to do it if and only if it is permitted and complete, with the form, document, fields and confirmation it names |
| Effects.IncompleteEffectsAreExplained | packages/admin-runtime/src/composed-effects.ts:127-158 | an effect that is permitted and incomplete is refused with the first thing that is missing |
| Effects.SimpleEffectsAreCarriedOut | packages/admin-runtime/src/composed-effects.ts:88-125 | effects on states, sources and the page become the plan to do them if and only if they name one |
| Effects.NamedValuesMean | packages/admin-runtime/src/composed-effects.ts:68-86 | the values an effect can name: that of a state, the date, or itself |
| Effects.SelectedDocumentMeans | packages/admin-runtime/src/composed-effects.ts:314-320 | the document selected is what the named state holds, if that is a text and not empty |
| Effects.RunEffects | packages/admin-runtime/src/composed-runtime.tsx:329-400 | what is performed are exactly, in order, the plans of the effects whose guards pass, up to and including the first that is denied, invalid or failed; all before that one went well |
| Effects.ChainIsPermitted | packages/admin-runtime/src/composed-runtime.tsx:367-395 | every mutation performed was permitted, and all succeeded but for one that ended the chain |
| Wiring.BuildWiringGraph | packages/admin-runtime/src/composed-wiring.ts:32-103 | every index answers as a plain scan of the connections: lists in connection order, parameter, rows and document bindings with the last connection winning |
| Wiring.ContributesExactlyThen | packages/admin-runtime/src/composed-wiring.ts:32-103 | for each question the one connection that makes a node its answer, with both ports |
| Wiring.CollectParameters | packages/admin-runtime/src/composed-wiring.ts:130-142 | the loop over the bindings collects all of them |
| Wiring.ParametersComeFromLastConnection | packages/admin-runtime/src/composed-wiring.ts:130-142 | a parameter is passed if and only if a state is connected to it, with the value of the state connected last, and undefined if that has none |
| Wiring.OnChangeDataSourcesForState | packages/admin-runtime/src/composed-wiring.ts:178-193 | the sources to run again, in page order, with their delays |
| Wiring.RerunsExactlyTheDependents | packages/admin-runtime/src/composed-wiring.ts:178-193 | after a change of a state exactly those on-change sources run again whose parameters can change with it |
| Wiring.RerunIsOfASource | packages/admin-runtime/src/composed-wiring.ts:178-193 | each rerun waits for the delay of its source, or 300 milliseconds |
| Wiring.SetAdaptiveValue | packages/admin-runtime/src/composed-runtime.tsx:293-303 | the loop over all states of all variants writes each of them once |
| Wiring.AdaptiveWrite | packages/admin-runtime/src/composed-runtime.tsx:293-303 | each state of a variant then holds the new value if the active variant writes it, the empty text otherwise; every other state is unchanged |
| AuditExport.CursorSkipsToNext | packages/application/src/audit.ts:81-94 | the cursor of an entry leads to exactly the entries after it |
| AuditExport.DecodedIsValid | packages/application/src/audit.ts:191-207 | only valid positions are decoded, and only from texts of 4 to 1000 units |
| AuditExport.DecodedExactlyWhen | packages/application/src/audit.ts:191-207 | a cursor is decoded if and only if it has 4 to 1000 units and unpacks to an object with exactly the three members of a position, each of its kind and within its limits |
| AuditExport.CharBytesAreThoseOfItsText | packages/application/src/audit.ts:187-189 | the bytes counted for a character are the UTF-8 bytes of its text inside JSON, escapes included |
| AuditExport.TrailIsNewestFirst | packages/application/src/audit.ts:81-94 | the trail is ordered by time, then source rank, then sort id, each downwards |
| AuditExport.ListMeans | packages/application/src/audit.ts:81-94 | for any limit: a limit outside 1 to 200 or an undecodable cursor is refused; else the page holds the entries behind the cursor, as many as the limit allows, and a cursor for the rest if there is one |
| AuditExport.ReadsBackExactlyWhen | packages/application/src/audit.ts:187-207 | the cursor of a position is read back if and only if its rank is one to four, its sort id has 1 to 300 UTF-16 units, and its JSON text has at most 750 bytes |
| AuditExport.CursorRoundTrip | packages/application/src/audit.ts:187-207 | decoding the encoded cursor of a valid position with a plain ASCII sort id gives the position back; the length limit is never met |
| AuditExport.LongCursorIsRefused | packages/application/src/audit.ts:192 | a valid position whose cursor is refused: its sort id is three hundred Hangul syllables of three bytes each |
| AuditExport.WideSortIdIsRefused | packages/application/src/audit.ts:198 | a position refused for the other reason: 160 characters above U+FFFF count 320 units, though its text has no more than 750 bytes |
| AuditExport.ExportTrail | packages/application/src/audit.ts:108-123 | export ends, and emits every matching entry exactly once in order or fails if and only if there are more than 50,000; or is refused if and only if a cursor it needs cannot be read back |
| AuditExport.PlainTrailIsUnbroken | packages/application/src/audit.ts:108-123 | with valid positions and plain sort ids the last case does not arise |

## Left out

- ContentProjection.Server.CreateContentDocument: the choice of a default placement, the check that the site is writable and the data of the document are not modelled; a create is an id and a tree position.
- ContentProjection.Server.MoveHierarchyDocument: the preview, its token and the readability of the moved document are not modelled; sort keys, depths and the depth limit of the tree commands are not either, because chains do not depend on them. The affected set is the moved subtree, as the tree commands compute it.
- ContentProjection.Server.PurgeDocuments: the retention rules and versions of documents are not modelled; a purge removes any list of ids.
- ContentProjection.Server.ApplySchemaWithProjection: realm provisioning, entitlement ceilings, site parents of collections and policy references to retired collections are not modelled; a failure there is a failure between commit and projection.
- ContentProjection.Server.Reconcile: the in-memory copy of the fences and the policy revision are not modelled; retired resources count as absent.
- Fence.RunIsSafe: a fence whose reply is lost ends the operation with the fence in place, as the callers treat it; a release is atomic.
- Fence.CommitKeepsUnfencedChains: says nothing of purge and apply, which fence everything projected; what a purge does to chains is `ContentTree.PurgeKeepsExactlyTheRest`, and an apply changes none.
- TreePresenter.PresentTree: documents are read one after the other instead of at once, and their contents are left out.
- Json.CanonicalIsCanonical: members are sorted after their values were made canonical instead of before, which gives the same result; dates and other exotic objects do not occur.
- ManifestDecoding.DecodesToCanonicalForm: the validator is an arbitrary predicate on what a manifest says; `FilterValidation`, `LayoutValidation` and `NavigationValidation` model three parts of the real one. Messages are left out, codes and paths of decoding errors are modelled.
- ObjectGraph.AcceptedMeansSound: getters, proxies and prototypes are flags of a property or an object.
- FilterValidation.FilterIsValidExactlyWhen: the pattern of field ids is an arbitrary predicate.
- LayoutValidation.LayoutIsValidExactlyWhen: the patterns of ids, field ids and widget names are arbitrary predicates.
- LayoutReports.LayoutReportsExactlyTheFaults: which of several equal ids or placements is reported as the double is not part of the statement, nor is it in NavigationReports; that one is reported is LayoutIsValidExactlyWhen.
- DecodeFaults.ReportsFault: speaks of the decoders; the path inside a graph that is no JSON is not modelled.
- NavigationValidation.NavigationIsValidExactlyWhen: the patterns of ids and texts and the issues of a visibility condition are arbitrary functions.
- The rest of the manifest validator (columns, actions, visibility, widgets): single tests on single values.
- AccessEvaluation.BuildAccessProfile: resource names are arbitrary functions of ids; identifiers contain no NUL character; a collection and a field are kept as a pair instead of a text with a colon; the effects of a composed page arrive as the list of its distinct actions.
- AccessPages.PageAnswer: speaks of a page whose id no other page has; so do the lemmas on actions and fields of pages, collections and fields.
- PreviewQuery.ResolvingKeepsMeaning: what a condition says about a document is an arbitrary predicate. The parameter values are a table of their own keys; that an unbound parameter named like a member every object inherits (`constructor`) would count as filled in is not modelled.
- RateLimit.FailuresAreBounded: the clock is given with each event and does not run backwards; `RunIsBounded` does not need that.
- Requests.RunShowsNewest: rendering is left out; updates of the shown state take effect in the order in which they are made. The fetching of detail documents is not modelled.
- Effects.RunEffects: what an effect sees of the state is arbitrary for each position, because a change made by the chain is visible only after the page was rendered again; two chains at the same time are not modelled. Conversions of values to text and numbers are arbitrary functions. Guards are evaluated outside of table rows.
- Wiring.BuildWiringGraph: the order of variants in an index is not modelled; no reader depends on it.
- AuditExport.ExportTrail: the trail does not change during an export, and its order distinguishes milliseconds, as the cursor does. Filters, redaction and the limit of 90 days are left out.
- AuditExport.CursorRoundTrip: JSON text and base64url (section 5 of RFC 4648) are arbitrary functions of which the lemmas need three facts about the one text at hand: it is read back as written, three bytes become four characters, and a cursor has 44 bytes besides its instant, of at most 27, and its sort id.
- Routing, cookies, rendering, charts, configuration, hashing, the generator of manifests and the second manifest format.
