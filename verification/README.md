# Workflow agent: a verified model of its protocols, walks and document passes

A Dafny model of the parts of the repository whose behaviour is hardest to see from
one body, with proofs over every input, run or interleaving. `dafny verify
dfyconfig.toml` checks all of it. Functions say what an operation computes, methods
do it the way the program does, and lemmas say what the result means.

**Workspace** (`Tree`, `TreeOrder`, `TreeWalk`, `ListTreeLaws`, `ListTree`,
`SearchWalk`, `SearchLaws`, `Search`, `CopyPlan`, `CopyTree`, `CopyTotals`). A
workspace is a finite tree whose directories hold no name twice. The bounded listing
and the content search are loops over an explicit stack with depth, entry, offset and
limit cut-offs; both are proved equal to recursive walks, and the walks to what a
reader would list or find by hand, in which order. The copy is a budget scan with
early exit, then a recursion over a live filesystem in which every step may fail, then
a clean-up.

**OpenAPI document** (`JsonModel`, `Normalize`, `DocumentPasses`, `NormalizeLaws`,
`NormalizeKeys`, `SchemaMeaning`, `ErrorInjection`). The four-pass rewriting of a 3.1
document into a 3.0 one: what it does to every key; idempotence of the pipeline
through the normal forms of its passes; which values a schema accepts before and
after; and when the rewriting makes the server's injected error responses disappear
again.

**Chat turns** (`ChatTurn`, `ChatLedger`). The driver of a streamed turn over a
bounded channel with a consumer that may lag or leave, and the ledger of stored
messages as a state machine in which turns of any sessions interleave.

**Plugins** (`PluginBridge`, `AuthParams`). The keys every host registry holds over any run of
activations, failed activations and deactivations.

**Admission and sampling** (`RateLimit`, `Capacity`, `DeltaSampler`). The request
limiter over any log of requests; the capacity gate under live reconfiguration, with
acquisition and release split into their two steps; counters exported from readings.

**Requests and paging** (`QueryString`, `Paging`, `ExecutionListing`,
`StaticFiles`). Query parameters as the inverse of every encoder; cursors and what
following them yields; the merged execution listing; the confinement of served
files to the site root.

`Sorting` and `Wrappers` are shared.

## What the proofs found

The code is modelled as it is. Where a promise does not hold everywhere, the exact
condition is proved, usually with a concrete case.

- The generator's encoding of an optional reference (`oneOf` of null and a
  reference) is rewritten to a `oneOf` with `nullable` and no `type`. Under OpenAPI
  3.0.3, section 4.7.24, `nullable` has an effect only beside `type`, so the
  schema stops accepting null; under the wording of 3.0.0 to 3.0.2 it keeps its
  meaning. The version written by the pass is 3.0.3. In general an object keeps its
  meaning under 3.0.3 iff the old one accepts null just where the mark beside `type`
  and the kept branches let it through.
- A type list keeps its meaning iff its first non-null name covers the others.
- Injected error responses disappear iff each operation that does not stream
  documents a body or declares all five statuses itself.
- `truncated` of the tree listing means "at least the limit", so it is also set when
  nothing is missing. The search sets it when anything is left to look at, a match or
  not.
- The test against copying a directory into itself compares request strings: `./a`
  into `a/b` passes it, and so does `a` into `l/x` when `l` is a link to `a`. Such a
  copy goes on until the paths are too long, never succeeds, and is cleaned up like any
  other failed copy. What the test rejects is really nested, unless the source holds a
  link and would be refused anyway.
- A destination that is a dead link counts as free. A single file is then created where
  the link leads, which need not be in the workspace, and the link stays; a directory
  copy fails, and its clean-up removes the link. A failed single-file copy may leave a
  part of the file, although the comment above `copy_entry` speaks of not leaving a
  half-written tree; and a failure to report the new entry leaves the complete copy.
- The comment on the chat ledger promises a total order of the conversation. Of turns
  that overlap the messages' own times decide, and they may be equal; inside a turn a
  message whose own time lies ahead may tie with, or come after, a later one.
- Deactivation removes a key whoever registered it, so a plugin whose names collide
  with the host's takes them along. The manager accepts a tool under another name than
  its id, and an analyzer under another name than its own; the tool's handler and the
  analyzer then stay for good. Prompts are installed before fragments, so a prompt built
  on a fragment of its own plugin is rejected. Handlers are installed from any
  plugin's executor.
- The end of a rate-limit window resets nothing. Only the sweep of a table of more
  than 10,000 clients does; below that a client's quota is for life.
- A query parameter without `=` hides every later parameter.
- A persisted chat record under the id of a live agent loop is hidden from the full
  listing but shown when chat runs are asked for.
- After a reconfiguration the limit binds the current gate only; running executions
  of replaced gates come on top.
- A `..` among the missing components of a path is dropped by the suffix rebuild;
  requests cannot get there, because `..` is refused first.

## Model

| member | source | states |
|---|---|---|
| ListTree.ListTree | crates/app/wf-api/src/fs.rs:315-388 | The stack loop returns what the recursive walk cut off at the limit returns, errors included. In the request's own terms: n entries asked for (none means 2,000, 0 means 1, above 5,000 means 5,000) give at most n, and `truncated` iff exactly n; the depth likewise (6, 1 to 12); the entries are the first n there are within the depth, in their order, and when not truncated all of them; not found iff nothing is there, no directory iff it is none, an I/O error only with an unreadable directory within the depth, and an untruncated success only without |
| TreeWalk.ListChildren | crates/app/wf-api/src/fs.rs:354-382 | One directory of the loop: entries, truncation and the pushed subdirectories are a step of the recursive walk |
| ListTreeLaws.CutExact | crates/app/wf-api/src/fs.rs:375-385 | The limit keeps exactly the first `limit` entries and hides a later unreadable directory; short of the limit the failure wins |
| ListTreeLaws.ListedExact | crates/app/wf-api/src/fs.rs:338-388 | With N entries in the unlimited walk: success iff N reaches the limit or nothing failed, the result is the first min(limit, N), and `truncated` iff N >= limit (so also when nothing is missing) |
| ListTreeLaws.WalkLists | crates/app/wf-api/src/fs.rs:338-386 | The walk lists an entry iff it lies within the depth along visible, readable directories, with its kind and size |
| ListTreeLaws.WalkOrdered | crates/app/wf-api/src/fs.rs:338-386 | The walk comes across paths in one fixed order: a directory before what it holds, its own entries (by folded name, then name) before anything deeper, a later subdirectory before an earlier one |
| ListTreeLaws.WalkDistinct | crates/app/wf-api/src/fs.rs:338-386 | No path is listed twice |
| ListTreeLaws.WalkIgnoresReadDirOrder | crates/app/wf-api/src/fs.rs:349-353 | For trees that differ only in the order their directories are enumerated, at every level, the walk is the same |
| ListTreeLaws.ListingComplete | crates/app/wf-api/src/fs.rs:315-388 | Every returned entry belongs to the listing and is there once; an untruncated listing misses none |
| ListTreeLaws.ListingFirst | crates/app/wf-api/src/fs.rs:315-388 | A listing holds the first entries in that order; whatever is missing comes after all of them, and is only missing when truncated |
| ListTreeLaws.ListingFails | crates/app/wf-api/src/fs.rs:342-348 | An untruncated listing has no unreadable directory within the depth, a failed one has |
| Tree.LeadsIff | crates/app/wf-api/src/fs.rs:300-311 | What both walks can reach: through readable directories, by entries inside the workspace whose metadata can be read, past none of the six skipped directory names |
| TreeOrder.FoldedIsBefore | crates/app/wf-api/src/fs.rs:349-353 | The comparator of the listing, and that of the search, is the order of names spelled out: smaller at the first differing character, folded first for the listing |
| Search.SearchFiles | crates/app/wf-api/src/fs.rs:948-1074 | The four nested loops compute the recursive search. In the request's own terms: n matches asked for (none means 100, 0 means 1, above 300 means 300) give at most n, and exactly n when truncated; they are the matches from the offset on in their order, all of them when not truncated; not found and no directory as for the listing, an I/O error only with an entry that would have to be read and cannot, and an untruncated success only without |
| SearchWalk.SearchChildren | crates/app/wf-api/src/fs.rs:1014-1071 | The children loop of one directory: matches, counters, pushed subdirectories and failure are those of the recursive search |
| SearchWalk.SearchChild | crates/app/wf-api/src/fs.rs:1019-1070 | One child: skipped, pushed, failed, or its lines searched |
| SearchWalk.SearchLines | crates/app/wf-api/src/fs.rs:1047-1070 | The line loop: matches are skipped up to the offset, collected up to the limit, and one line too many sets `truncated` |
| SearchLaws.RunExact | crates/app/wf-api/src/fs.rs:1001-1073 | The search looks exactly as far as needed to see offset + limit matches; it is truncated iff anything at all is left to look at there, and fails iff an unreadable entry comes before |
| SearchLaws.SearchedPage | crates/app/wf-api/src/fs.rs:996-1073 | A successful search returns all_matches[offset .. offset + limit]; truncated means a full page, not truncated means nothing after the offset is missing |
| SearchLaws.StepsFind | crates/app/wf-api/src/fs.rs:1014-1071 | A match is found iff the pattern occurs in that line of a visible, included, small enough text file below the base |
| SearchLaws.SearchComplete | crates/app/wf-api/src/fs.rs:948-1074 | An untruncated search from offset 0 returns every match there is; no search returns anything else |
| SearchLaws.StepsInOrder | crates/app/wf-api/src/fs.rs:1001-1071 | Matches are found in one fixed order: in a file by line, otherwise by the order of paths, names compared as they are |
| SearchLaws.SearchedIsPage | crates/app/wf-api/src/fs.rs:996-1073 | A search skips at most offset matches, exactly that many if it returns any; skipped and returned ones are the first in order, the missing ones come later and are only missing when truncated |
| SearchLaws.SearchFails | crates/app/wf-api/src/fs.rs:1006-1046 | It fails only with an unreadable directory or searchable file on its way, and an untruncated success has none |
| SearchLaws.StepsIgnoreReadDirOrder | crates/app/wf-api/src/fs.rs:1008-1013 | What a search looks at, and in which order, is the same for every order of enumeration at every level |
| CopyPlan.PlanCopyDir | crates/app/wf-api/src/fs.rs:728-766 | The scan loop with its early exit computes the recursive budget scan |
| CopyPlan.AdmitExact | crates/app/wf-api/src/fs.rs:692-704 | A directory is accepted iff the whole tree has no link, no oversized file, nothing too deep or unreadable, and its totals are within the limits; then the plan is the exact total |
| CopyPlan.CopyableIff | crates/app/wf-api/src/fs.rs:728-758 | What may be copied, in figures: files up to 2 MiB and readable folders down to the eighth level, all the way down |
| CopyPlan.AdmittedIff | crates/app/wf-api/src/fs.rs:692-704 | The totals of an accepted directory are at most 500 files and 16 MiB |
| CopyTotals.TotalCountsFiles | crates/app/wf-api/src/fs.rs:735-764 | The totals are the number, and the size together, of the files below the directory in the tree itself |
| CopyTotals.AdmittedIffSmall | crates/app/wf-api/src/fs.rs:692-704 | Read completely, a directory is accepted iff below it there are only files of up to 2 MiB and directories at most eight levels down, no more than 500 files, and no more than 16 MiB together |
| CopyPlan.ItemsBounded | crates/app/wf-api/src/fs.rs:740-764 | The running sums at depth d stay at most (9 - d) * 16 MiB + 2 MiB and (9 - d) * 500 + 1 files, so no addition wraps |
| CopyPlan.AdmitIgnoresOrder | crates/app/wf-api/src/fs.rs:740-764 | For trees that differ in enumeration order at any level the decision, and an accepted plan, are the same; only the error may differ |
| CopyTree.FileSystem.CopyEntry | crates/app/wf-api/src/fs.rs:654-721 | Links followed as the operating system does. A request is accepted iff its paths are given, differ, are not spelled one from the other and do not escape, both really lie in the workspace, the source is there and no link, the destination is not and its directory is, and a file has at most 2 MiB, a directory is copyable within 500 files and 16 MiB; without faults an accepted one succeeds unless it is hopeless. A refused one writes nothing, and its error is true of it; a file that is only too large gets `TooLarge`. An accepted one changes nothing but where it lands; on success that holds a copy, never of a directory inside itself, and everything outside the target is as before iff the target was free (a single file onto a dead link is written where the link leads); a directory that failed and was cleaned up leaves the filesystem as it was iff nothing was at the target; a single file that failed may leave a part, without faults none; without faults only a dead link, nesting or the length of paths stops a copy |
| CopyTree.FileSystem.CopyDirAll | crates/app/wf-api/src/fs.rs:768-789 | With a failure allowed at every step: success means the target subtree is the old source subtree, failure touches the target subtree only; a target inside the source always fails, and the recursion ends |
| CopyTree.FileSystem.CopyChildren | crates/app/wf-api/src/fs.rs:772-787 | The entry loop over the names read after the target was created: on success the target holds a copy of every child and nothing else |
| CopyTree.FileSystem.CopyChild | crates/app/wf-api/src/fs.rs:779-786 | One entry of the loop: recursion, link refusal or byte copy |
| CopyTree.FileSystem.CopyFile | crates/app/wf-api/src/fs.rs:784-785 | A byte copy gives the same bytes; a failed one leaves at most a part of the file |
| CopyTree.FileSystem.CreateDir | crates/app/wf-api/src/fs.rs:769 | Creating a directory needs a free path in a directory and adds just that entry |
| CopyTree.FileSystem.RemoveDirAll | crates/app/wf-api/src/fs.rs:707 | The clean-up removes the whole target subtree, or any part of it when it fails, and nothing else |
| CopyTree.ChildDone | crates/app/wf-api/src/fs.rs:772-787 | One more child copied extends the partial copy by exactly that child |
| CopyTree.Restored | crates/app/wf-api/src/fs.rs:705-709 | Removing the target after a failure gives the old filesystem iff the target did not exist: a dead link there is lost |
| CopyTree.AdmittedClean | crates/app/wf-api/src/fs.rs:692-704 | A directory whose scan is accepted has no link anywhere below it, and fits wherever there is room for nine more levels |
| CopyTree.RefusedIff | crates/app/wf-api/src/fs.rs:654-717 | The chain of checks lets exactly the acceptable requests through |
| CopyTree.SpellingErrors | crates/app/wf-api/src/fs.rs:654-673 | An empty path, equal paths, a destination spelled from the source, a parent part or an absolute path get their own error, in that order |
| CopyTree.PlaceErrorsAreTrue | crates/app/wf-api/src/fs.rs:671-717 | Every other error is true of the request: no source, a link, a destination that exists, its directory missing or no directory, too large, not readable |
| CopyTree.NestedIffNamed | crates/app/wf-api/src/fs.rs:141-155 | By names alone a destination lies in the source iff some beginning of it names the source |
| CopyTree.NestedIffParentInside | crates/app/wf-api/src/fs.rs:661-691 | Links followed, a destination lies in the source iff the canonical path of its directory does |
| CopyTree.GuardCostsNoCopy | crates/app/wf-api/src/fs.rs:660-669 | What the textual self-copy test rejects is really nested, unless the source holds a link, which the scan refuses |
| CopyTree.GuardRightIff | crates/app/wf-api/src/fs.rs:660-691 | For a directory without links the textual test is right iff the destination is spelled from the source or its directory does not really lie in the source |
| CopyTree.GuardExactOnPlain | crates/app/wf-api/src/fs.rs:660-669 | On paths without empty and `.` parts and without links on the way the textual self-copy test is the real one |
| CopyTree.DottedNestingMissed | crates/app/wf-api/src/fs.rs:660-669 | `./a` into `a/b` passes the textual test although it is nested |
| CopyTree.LinkedNestingMissed | crates/app/wf-api/src/fs.rs:660-691 | With a link `l` to `a`, so does the plain request `a` to `l/x`, and it is accepted |
| CopyTree.DeadLinkWritesElsewhere | crates/app/wf-api/src/fs.rs:679-718 | A file copied onto a dead link is accepted and created where the link leads, here outside the workspace |
| CopyTree.RealEnds | crates/app/wf-api/src/fs.rs:161-180 | Resolving a path ends at an entry that is no link or at a free place in a directory |
| CopyTree.StillLeads | crates/app/wf-api/src/fs.rs:768-787 | While only a new target changes, every path to what was there keeps leading there |
| DocumentPasses.Document.NormalizeDocument | crates/app/wf-client/src/normalize.rs:19-24 | The four in-place passes compute the specified normal form. Key by key: a path is gone iff nothing of it is left once its streaming operations go, an operation iff some response of it offers `text/event-stream`, a response iff it has no body and one beside it has; the version is exactly `3.0.3` iff it began with `3.1.`; every other key of the document, of a path item and of an operation is there iff it was, with the schema rewriting of its old value |
| DocumentPasses.Document.NormalizeVersion | crates/app/wf-client/src/normalize.rs:26-32 | A `3.1.` version string becomes `3.0.3`, nothing else changes |
| DocumentPasses.Document.NormalizeSchemaNode | crates/app/wf-client/src/normalize.rs:35-71 | The program rewrites an object and then its values; the result is that of rewriting the values first, and key by key what `NodeRewritten` says |
| DocumentPasses.Document.CollapseNullBranches | crates/app/wf-client/src/normalize.rs:75-85 | Null branches go; `nullable` is set, unless present, iff some went and some stayed |
| DocumentPasses.Document.CollapseType | crates/app/wf-client/src/normalize.rs:40-59 | A type list becomes its first non-null name, `string` if there is none, with `nullable` iff null was listed |
| DocumentPasses.Document.DropSseOperations | crates/app/wf-client/src/normalize.rs:90-121 | Streaming operations go from the eight method keys, and paths that had nothing else; every other key and value is as before |
| DocumentPasses.Document.DropItemMethods | crates/app/wf-client/src/normalize.rs:99-113 | The collect-then-remove loops of one path item keep exactly the operations that do not stream |
| DocumentPasses.Document.OperationIsSse | crates/app/wf-client/src/normalize.rs:174-185 | An operation streams iff some response offers `text/event-stream` |
| DocumentPasses.Document.DropContentlessResponses | crates/app/wf-client/src/normalize.rs:132-172 | Bodyless responses go from exactly the operations that document a body; every other key of document, path item and operation is as before |
| DocumentPasses.Document.DropBareResponses | crates/app/wf-client/src/normalize.rs:150-169 | A response is gone iff it has no body and one beside it has |
| NormalizeLaws.RewriteCommutes | crates/app/wf-client/src/normalize.rs:35-71 | Rewriting one object commutes with rewriting everything below it, so top-down and bottom-up agree |
| NormalizeLaws.NormSettles | crates/app/wf-client/src/normalize.rs:35-85 | The schema pass puts every node, at every depth, into the normal form |
| NormalizeLaws.SettledIffFixed | crates/app/wf-client/src/normalize.rs:35-85 | The normal form is exactly what the schema pass leaves alone |
| NormalizeLaws.DropSseSettled | crates/app/wf-client/src/normalize.rs:90-121 | Removing operations keeps the schema normal form |
| NormalizeLaws.DropBareSettled | crates/app/wf-client/src/normalize.rs:132-172 | Removing responses keeps the schema normal form |
| NormalizeLaws.QuietIffUntouched | crates/app/wf-client/src/normalize.rs:90-121 | The streaming pass leaves a document alone iff no path item is empty or streams, and its output is such a document |
| NormalizeLaws.DropBareQuiet | crates/app/wf-client/src/normalize.rs:132-172 | The response pass never creates work for the streaming pass |
| NormalizeLaws.DropBareIdempotent | crates/app/wf-client/src/normalize.rs:132-172 | The response pass is idempotent |
| NormalizeLaws.NormalizedForm | crates/app/wf-client/src/normalize.rs:19-24 | The output of the pipeline is in the normal form of all four passes at once |
| NormalizeLaws.NormalizeIdempotent | crates/app/wf-client/src/normalize.rs:19-24 | Normalising twice is normalising once, for every JSON value |
| NormalizeKeys.NodeKeys | crates/app/wf-client/src/normalize.rs:35-85 | The schema rewriting of an object, key by key: null branches leave `oneOf` and `anyOf`, the others stay in order; a type list becomes its first name besides null; the mark is set for a listed null, and for a dropped branch where others stay and no mark stood; every other key stays with its rewritten value |
| NormalizeKeys.DocumentKeys | crates/app/wf-client/src/normalize.rs:19-24 | The normal form of a document, key by key |
| NormalizeKeys.DropKeys | crates/app/wf-client/src/normalize.rs:90-172 | Both drop passes together prune exactly paths, operations and responses, and touch no other key |
| SchemaMeaning.MeaningPreserved | crates/app/wf-client/src/normalize.rs:35-85 | At every nesting depth a schema whose objects use the keywords as the pass expects, and say about null what their rewriting will say, accepts the same values before, under JSON Schema 2020-12, and after, under OpenAPI 3.0 |
| SchemaMeaning.MarkedKeepsMeaningIff | crates/app/wf-client/src/normalize.rs:75-85 | Under the 3.0.0 wording of `nullable` a rewritten object keeps its meaning iff it accepted null before |
| SchemaMeaning.CollapseKeepsMeaningIff | crates/app/wf-client/src/normalize.rs:73-85 | Under 3.0.3, for every such object: all values agree iff the old object accepts null just where the mark beside `type` and the kept branches let it through |
| SchemaMeaning.TypeListKeepsMeaningIff | crates/app/wf-client/src/normalize.rs:40-59 | A type list keeps its meaning iff its first non-null name covers the others |
| SchemaMeaning.OptionalReferenceLosesNull | crates/app/wf-client/src/normalize.rs:73-85 | The generator's own encoding of an optional reference accepts null before the pass, not after it under 3.0.3, and still under 3.0.0 |
| SchemaMeaning.SolutionsPreserved | crates/app/wf-client/src/normalize.rs:35-71 | A meaning of references is one the old components give iff it is one the rewritten components give |
| SchemaMeaning.ComponentsPreserved | crates/app/wf-client/src/normalize.rs:35-71 | Rewriting all components preserves every reference, at every level of unfolding |
| ErrorInjection.OpenApi.Modify | crates/app/wf-server/src/openapi.rs:904-931 | Afterwards every operation has responses for 401, 403, 429, 503 and 504; the declared ones are as they were, the others have their fixed description and no body; everything else is untouched |
| ErrorInjection.OpenApi.InjectOperations | crates/app/wf-server/src/openapi.rs:933-953 | All eight method slots of a path item, and only those, are injected |
| ErrorInjection.InjectionCancels | crates/app/wf-server/src/openapi.rs:904-931 | Normalising after the injection equals normalising the original iff every operation that does not stream documents a body or declares all five statuses itself |
| ErrorInjection.TableCancels | crates/app/wf-client/src/normalize.rs:123-172 | The same for any table of responses without a body |
| ErrorInjection.NormInject | crates/app/wf-client/src/normalize.rs:35-71 | The schema pass commutes with the injection |
| ErrorInjection.DropSseInject | crates/app/wf-client/src/normalize.rs:90-121 | The streaming pass commutes with the injection |
| ChatTurn.Channel.TrySend | crates/app/wf-api/src/chat.rs:395-410 | A frame is delivered, dropped when the channel is full, or finds the consumer gone; what is delivered stays an in-order selection of what was offered |
| ChatTurn.MergeUsage | crates/app/wf-api/src/chat.rs:275-298 | A report overwrites the counts it gives above zero and the optional fields it has |
| ChatTurn.DriveTurn | crates/app/wf-api/src/chat.rs:152-270 | The event loop: outcome, answer, usage, reply and offered frames are those of the consumed prefix; a consumer that left fails the turn at that frame |
| ChatTurn.RunTurn | crates/app/wf-api/src/chat.rs:120-139 | For a consumer that stays: completed iff no event is an error or an abort and some event is a reply, with everything said as the answer, the last reply kept and the latest usage; otherwise the first ending event decides, an abort interrupts, an error fails with its text; with neither the turn fails with the last refusal, or with the fixed text where that is empty or missing. One frame for each text, reasoning and usage event, in order, then the one frame that tells the outcome. A consumer that left fails the turn as disconnected; delivered frames are an in-order selection, and all of them when the channel never fills |
| ChatTurn.DriveEnds | crates/app/wf-api/src/chat.rs:152-270 | How every sequence of events ends |
| ChatTurn.RepliesKept | crates/app/wf-api/src/chat.rs:203-240 | The last reply and the last refusal are the ones kept |
| ChatTurn.FramesShown | crates/app/wf-api/src/chat.rs:161-228 | The offered frames show the text, reasoning and usage events one by one, in order, and no others |
| ChatTurn.DeliveredTextIsAnswer | crates/app/wf-api/src/chat.rs:161-185 | The delta texts of a completed turn concatenate to the answer it reports |
| ChatTurn.TurnUsage | crates/app/wf-api/src/chat.rs:203-210 | The turn's usage is the merge of every report, wherever it came from |
| ChatTurn.MergedUsageIsLatest | crates/app/wf-api/src/chat.rs:272-298 | However the reports are split, each field is its last value above zero, or its last value present |
| ChatLedger.Storage.LedgerBase | crates/app/wf-api/src/chat.rs:78-83 | The base is at least the clock and every stored stamp, and is one of them (or 0) |
| ChatLedger.Storage.PersistMessages | crates/app/wf-api/src/chat.rs:305-331 | The messages after the restored history are saved in order, failed saves passed over; every message whose save went through and was not replaced is stored as handed over, stamped with its own time or past the base, whichever is later; no other record changes |
| ChatLedger.Storage.FinishTurn | crates/app/wf-api/src/chat.rs:335-382 | The session record says completed, failed with the error or cancelled with the reason, and keeps the start time of the first turn; other records are untouched |
| ChatLedger.Storage.CloseTurn | crates/app/wf-api/src/chat.rs:120-139 | Failed and interrupted turns leave the stored conversation unchanged; after a completed turn whose saves succeed its messages, their ids being distinct, are all stored as given with only the stamp changed; the record says how the turn ended |
| ChatLedger.TailIsTurn | crates/app/wf-api/src/chat.rs:312-316 | Counting back from the end of the history gives exactly the mentions, the user text and the reply of this turn |
| ChatLedger.RunOrdered | crates/app/wf-api/src/chat.rs:73-84 | For every interleaving of turns and sessions, every stamp lies above its turn's base, and every base above what was saved before the turn began |
| ChatLedger.LaterTurnStampsLater | crates/app/wf-api/src/chat.rs:74-84 | A message saved before a turn began is stamped strictly before everything that turn saves in the session |
| ChatLedger.ReplayKeepsTurnsApart | crates/app/wf-api/src/chat.rs:300-331 | A replay by stamp never mixes turns that did not overlap |
| ChatLedger.OverlapOrderedByMessages | crates/app/wf-api/src/chat.rs:73-84 | In any state, what two turns of a session save once both have begun is ordered by the messages' own times, if those are late enough, whichever turn began or saved first |
| ChatLedger.OverlapMixesTurns | crates/app/wf-api/src/chat.rs:73-84 | Two turns of one session that overlap can save messages with equal stamps |
| ChatLedger.InTurnOrder | crates/app/wf-api/src/chat.rs:316-319 | Inside a turn two messages are strictly ordered iff the earlier one's own time is before the later one's stamp |
| ChatLedger.PersistIsSaves | crates/app/wf-api/src/chat.rs:316-330 | The saving loop is a run of the ledger: from the stored records, one step a message, to what the loop leaves |
| ChatLedger.SavesStore | crates/app/wf-api/src/chat.rs:316-330 | What any saves leave, record by record |
| PluginBridge.Bridge.SyncAll | crates/app/wf-runtime/src/plugin_bridge.rs:333-511 | Activation adds no key but what it brings, kind by kind, all of it when it succeeds, and removes none. It fails when a provider's auth is dangling, an advisor, analyzer, retrieval advisor or encoding name is taken, or a snapshot policy is misshapen; otherwise only when the plugin claims such a name twice or the gateway refuses a codec or provider |
| PluginBridge.Bridge.InstallHandlers | crates/app/wf-runtime/src/plugin_bridge.rs:398-409 | A handler for each of the plugin's tools goes in iff any plugin at all has an executor |
| PluginBridge.Bridge.Install | crates/engine/wf-resource/src/resource_assembler.rs:936-1006 | One kind of the bundle lands under the items' own ids; rejected items are passed over |
| PluginBridge.Bridge.InstallStrictly | crates/app/wf-runtime/src/plugin_bridge.rs:212-301 | One refusing registry: success iff nothing was refused, with what landed before a refusal left in place |
| PluginBridge.Bridge.SyncAuth | crates/app/wf-runtime/src/plugin_bridge.rs:121-166 | Auths are registered only where there is an auth registry; the check fails iff an owned provider names an auth that was not |
| PluginBridge.Bridge.UnsyncAll | crates/app/wf-runtime/src/plugin_bridge.rs:513-595 | Deactivation removes exactly the keys the plugin's entries stand for, kind by kind, whoever put them there |
| PluginBridge.LandsIsBrought | crates/app/wf-runtime/src/plugin_bridge.rs:333-511 | What activation brings in plain words: bundle items under their own ids, triggers and fragments if valid, prompts on fragments the host held, codecs, providers and auths under registered names, analyzers under their own trimmed names, the other engine and retrieval entries under registered ones, handlers for tools where any executor exists |
| PluginBridge.LeavesIsTakenOut | crates/app/wf-runtime/src/plugin_bridge.rs:513-595 | What deactivation takes, likewise: bundle items and handlers by the items' ids, everything else by registered names |
| PluginBridge.TrimIs | crates/app/wf-runtime/src/plugin_bridge.rs:239-301 | Trimming takes the blanks at both ends of a name and nothing else |
| PluginBridge.LandsThenLeaves | crates/app/wf-runtime/src/plugin_bridge.rs:333-595 | If names agree, everything activation can add deactivation removes |
| PluginBridge.StrayIff | crates/app/wf-runtime/src/plugin_bridge.rs:398-409 | What activation brings and deactivation does not take are exactly the handlers of tools registered under another name than their id, and analyzers under another name than their own |
| PluginBridge.ConsistentHasNoStrays | crates/app/wf-runtime/src/plugin_bridge.rs:333-595 | Names that agree leave none |
| PluginBridge.CycleRestores | crates/app/wf-runtime/src/plugin_bridge.rs:333-595 | Activation, successful or failed part-way, then deactivation, whatever the names: the host loses exactly what deactivation takes and keeps exactly the strays that landed, so it is as before iff neither happens |
| PluginBridge.RenamedToolLeavesHandler | crates/app/wf-runtime/src/plugin_bridge.rs:576-592 | The handler of a tool registered under another name than its id is never removed |
| PluginBridge.RenamedAnalyzerStays | crates/app/wf-runtime/src/plugin_bridge.rs:240-308 | An analyzer registered under another name than its own is never removed |
| PluginBridge.PromptThereIff | crates/engine/wf-resource/src/resource_assembler.rs:966-981 | After a successful activation a prompt is there iff it was before, or the plugin has a valid one of that id whose fragments the host already held |
| PluginBridge.PromptBeforeOwnFragment | crates/engine/wf-resource/src/resource_assembler.rs:966-981 | Prompts are installed before fragments: a prompt built on its own plugin's fragment is rejected on a host without it |
| PluginBridge.HandlerFromAnyPlugin | crates/app/wf-runtime/src/plugin_bridge.rs:398-409 | A tool gets a handler from another plugin's executor |
| PluginBridge.StepAccounted | crates/app/wf-runtime/src/plugin_bridge.rs:333-595 | One activation or deactivation, rejected items and missing executors included, keeps the registries accounted for |
| PluginBridge.RunAccounted | crates/app/wf-runtime/src/plugin_bridge.rs:333-595 | Over every interleaving of plugins that keep to names of their own: the registries hold the base and what activations landed and no deactivation took since, and nothing else once failed activations are deactivated |
| PluginBridge.ConsistentDeactivation | crates/app/wf-runtime/src/plugin_bridge.rs:513-595 | Deactivating a plugin whose removals cover its names takes all it landed, failed activations included, and nothing of another plugin |
| PluginBridge.ConsistentKeepsTo | crates/app/wf-runtime/src/plugin_bridge.rs:333-595 | A plugin whose names agree keeps to its own names, and its deactivation covers them |
| PluginBridge.InactiveHoldsNothing | crates/app/wf-runtime/src/plugin_bridge.rs:333-595 | In any run of such plugins one that is deactivated holds nothing, failed activations included |
| PluginBridge.AllDeactivatedRestores | crates/app/wf-runtime/src/plugin_bridge.rs:333-595 | Once all are deactivated the registries hold the base again, whatever happened before |
| AuthParams.AuthParamsFor | crates/app/wf-runtime/src/plugin_bridge.rs:605-628 | Of the plugin's own definitions that name the auth the one with the smallest id gives its parameters, or none if it has none; without such a definition there are none |
| AuthParams.SmallestIdSupplies | crates/app/wf-runtime/src/plugin_bridge.rs:598-628 | The definition with the smallest id decides, however the manager enumerates them |
| AuthParams.SharedParamsAgree | crates/app/wf-runtime/src/plugin_bridge.rs:598-604 | Definitions that agree on a shared auth's parameters decide them |
| RateLimit.Limiter.Handle | crates/app/wf-server/src/middleware.rs:621-647 | One request: its client's entry counts one more or is opened with one, the others stay but for those whose window is over in a table of more than 10,000; refused iff the count is above the maximum, with remaining requests, reset time and retry delay |
| RateLimit.EntryCounts | crates/app/wf-server/src/middleware.rs:630-642 | An entry counts exactly its client's requests since the one that opened it, over any requests of any clients |
| RateLimit.EntryLivesUntilSwept | crates/app/wf-server/src/middleware.rs:630-642 | An entry, with its count, stays until and only until a request sweeps a table of more than 10,000 clients at or after its reset time |
| RateLimit.FirstMaxPass | crates/app/wf-server/src/middleware.rs:630-647 | Inside the window exactly the client's first `max_requests` requests are served |
| RateLimit.WindowQuota | crates/app/wf-server/src/middleware.rs:598-661 | With a non-decreasing clock min(asked, `max_requests`) requests of a client are served in a window, whatever other clients do |
| RateLimit.QuotaIsForLifeInSmallTables | crates/app/wf-server/src/middleware.rs:630-638 | The end of a window resets nothing: up to 10,000 clients, a client is served its first `max_requests` requests ever and no later one |
| QueryString.PercentDecode | crates/app/wf-server/src/middleware.rs:703-719 | The index loop computes the left-to-right decoding; malformed escapes and escapes cut off at the end stay |
| QueryString.QueryParam | crates/app/wf-server/src/middleware.rs:692-701 | The lookup loop, with its early return at a pair without `=` |
| QueryString.HexValIs | crates/app/wf-server/src/middleware.rs:721-728 | A byte stands for n iff it is the n-th of the hexadecimal digits, in either case |
| QueryString.EncodeAll | crates/app/wf-server/src/middleware.rs:703-728 | Every value has such an encoding: the one that escapes each byte |
| QueryString.DecodeInverts | crates/app/wf-server/src/middleware.rs:703-719 | Decoding inverts every RFC 3986 section 2.1 encoder that escapes `%` and `&`, in either case, byte by byte |
| QueryString.UnescapedArrivesIff | crates/app/wf-server/src/middleware.rs:703-719 | A value sent as it is arrives as it is iff nowhere in it a `%` is followed by two hexadecimal digits (so `+` stays `+`) |
| QueryString.SplitJoin | crates/app/wf-server/src/middleware.rs:694 | Splitting at `&` undoes joining |
| QueryString.PrintThenLookUp | crates/app/wf-server/src/middleware.rs:690-701 | Printing pairs with any such encoder and looking a name up gives the first pair's value |
| QueryString.FoundIffNothingValuelessBefore | crates/app/wf-server/src/middleware.rs:692-701 | A name is found iff some pair has it and no earlier pair lacks a `=` |
| Paging.CursorRoundTrips | crates/app/wf-server/src/paged.rs:108-118 | A printed cursor reads back as its offset for exactly the 64-bit offsets |
| Paging.PrintedIffCanonical | crates/app/wf-server/src/paged.rs:113-118 | An accepted cursor is one the server prints iff it has no sign and no leading zero |
| Paging.AcceptedIff | crates/app/wf-server/src/paged.rs:113-118 | A cursor is accepted for an offset iff it is that offset as printed, perhaps behind zeros, perhaps behind a plus, and fits 64 bits |
| Paging.FromWindow | crates/app/wf-server/src/paged.rs:91-106 | The window splits into at most `limit` items, `has_more` and the next cursor |
| Paging.PageFor | crates/app/wf-server/src/paged.rs:91-131 | Any request: n items asked for (none means 50, 0 means 1, above 500 means 500) from the offset its cursor stands for, or as many as there are; more, and a cursor to the next item, iff items are left; refused iff the cursor stands for no offset |
| Paging.PageAt | crates/app/wf-server/src/paged.rs:63-131 | A request at an offset of the list gets the items from there, as many as asked for unless the list ends, and then a cursor to the first item left; no addition saturates |
| Paging.FollowingCursorsYieldsTheList | crates/app/wf-server/src/paged.rs:91-131 | Following cursors with any limits gives the list from its start without gap or repetition |
| Paging.FollowingCursorsEnds | crates/app/wf-server/src/paged.rs:91-131 | It ends within as many pages as items, at the end of the list, and never at a refused cursor |
| ExecutionListing.Summaries | crates/app/wf-api/src/agent/agent_execution_registry.rs:54-134 | Live loops and stored records joined by id, sorted and filtered |
| ExecutionListing.ListUnified | crates/app/wf-api/src/execution_listing.rs:74-190 | One page of the listing: at most the limit, full if more rows follow, later starts first and of equal ones the smaller id; every row meets each condition the filter sets and is a workflow run, a live loop, or a stored record not hidden by a live loop, and without more to follow all such rows are there |
| ExecutionListing.CountUnified | crates/app/wf-api/src/execution_listing.rs:193-199 | The count is the number of rows of the whole listing: the saturating page size wraps nothing away |
| ExecutionListing.ListedRows | crates/app/wf-api/src/execution_listing.rs:74-174 | A row is listed iff it meets each condition of the filter and is a workflow run, a live loop, or a stored record whose id no live loop has (or any, when only another engine is asked for) |
| ExecutionListing.ListedOrder | crates/app/wf-api/src/execution_listing.rs:145-149 | Later starts come first, of equal ones the smaller id |
| ExecutionListing.ListingIsSortedFilteredMerge | crates/app/wf-api/src/execution_listing.rs:74-174 | The listing is the matching runs newest first iff no matching stored record asked for by its engine has the id of a live loop; filtering in the stores, before and after sorting come to the same |
| ExecutionListing.ListedSeparated | crates/app/wf-api/src/execution_listing.rs:145-149 | If start and id tell the runs of the merge apart they tell the listed rows apart, whatever is asked for |
| ExecutionListing.EnumerationOrderIrrelevant | crates/app/wf-api/src/execution_listing.rs:145-149 | With keys that tell rows apart the listing does not depend on how the stores enumerate, whatever the filter |
| ExecutionListing.TiesKeepArrivalOrder | crates/app/wf-api/src/execution_listing.rs:145-149 | Without such keys it does: two rows equal in start and id stay as they came |
| ExecutionListing.CountIsMatchingRuns | crates/app/wf-api/src/execution_listing.rs:193-199 | The count is the number of matching runs |
| ExecutionListing.FollowedListing | crates/app/wf-api/src/execution_listing.rs:176-190 | A client that follows cursors to the end gets the matching runs newest first, each once |
| Sorting.SortSorted | crates/app/wf-api/src/execution_listing.rs:145-149 | The sort sorts, for any total preorder |
| Sorting.SortIgnoresOrder | crates/app/wf-api/src/execution_listing.rs:145-149 | Its result does not depend on the order of the input when the order tells elements apart |
| Sorting.LexIsSmaller | crates/app/wf-api/src/execution_listing.rs:145-149 | The order of strings: a proper beginning, or smaller at the first differing character |
| StaticFiles.ConfineToRoot | crates/app/wf-server/src/static_files.rs:70-105 | The ancestor loop ends with the canonical nearest existing ancestor and the missing names in order, inside the canonical root, or with nothing |
| StaticFiles.ConfinedByNearest | crates/app/wf-server/src/static_files.rs:70-105 | The nearest existing ancestor decides: confined iff it really lies in the root, with the missing names behind it |
| StaticFiles.ExistingIsLongest | crates/app/wf-server/src/static_files.rs:74-86 | The ancestor the loop stops at is the nearest existing one |
| StaticFiles.SuffixRebuildsIffPlain | crates/app/wf-server/src/static_files.rs:74-86 | Ancestor and suffix make up the candidate iff no `..` was among the missing components |
| StaticFiles.ExistingCandidateIsCanonical | crates/app/wf-server/src/static_files.rs:87-104 | An existing candidate resolves to its canonical path if that is inside the root, to nothing otherwise |
| StaticFiles.OpensTheCandidateInsideTheRoot | crates/app/wf-server/src/static_files.rs:65-105 | Opening the confined path opens what the candidate names, and that is inside the root |
| StaticFiles.ServeStatic | crates/app/wf-server/src/static_files.rs:18-46 | A file of the site that can be read is served for its own path (the index page for a directory); the app shell is served iff the confined file asked for cannot be read and the shell can; nothing iff a segment is `..`, the confinement gives nothing, or neither can be read |
| StaticFiles.RouteGetsShell | crates/app/wf-server/src/static_files.rs:35-46 | A route of which nothing exists below the root gets the app shell |
| StaticFiles.RequestsStayInside | crates/app/wf-server/src/static_files.rs:18-46 | With an existing root no request is answered with anything but the file it names or the app shell, both inside the root |
| Capacity.ConcurrencyGate.constructor | crates/foundation/wf-common/src/gate.rs:50-56 | A new gate has all its slots free and counts nothing |
| Capacity.AgentCapacityGate.SetMaxConcurrent | crates/engine/wf-agent/src/capacity.rs:20-23 | A new limit is a new gate with all its slots free |
| Capacity.AgentCapacityGate.TryAcquire | crates/engine/wf-agent/src/capacity.rs:37-41 | A permit of the current gate iff it has a free slot; a refusal changes nothing |
| Capacity.GatePermit.Release | crates/foundation/wf-common/src/gate.rs:26-37 | A dropped permit is uncounted and its slot returned, both at its own gate |
| Capacity.RunConserves | crates/foundation/wf-common/src/gate.rs:26-94 | At every moment of every interleaving of half-steps and reconfigurations each gate's free slots and permits make up its limit, and its counter is its held permits |
| Capacity.AdmittedIffRoom | crates/engine/wf-agent/src/capacity.rs:37-41 | An acquisition succeeds iff fewer than the current limit are out at the current gate |
| Capacity.ReplacedPermitsApart | crates/foundation/wf-common/src/gate.rs:26-37 | Nothing that happens to a replaced gate's permit shows in the current gate |
| Capacity.SampleIsCurrentPermits | crates/app/wf-runtime/src/metrics.rs:340-344 | The sampled number of active executions is the permits out at the current gate |
| Capacity.TotalWithinLimitIff | crates/engine/wf-agent/src/capacity.rs:20-23 | After a reconfiguration all running executions stay within the limit iff the replaced gates' permits fit into the current gate's free slots |
| DeltaSampler.Sampler.Sample | crates/app/wf-runtime/src/metrics.rs:356-383 | One tick reads each of the seven operations once: baseline, increase, new last count |
| DeltaSampler.ExportedIsRises | crates/app/wf-runtime/src/metrics.rs:369-383 | Over any run of ticks the exported counter is the sum of the rises since the first, and exists iff there was one |
| DeltaSampler.ExportedIsGrowthIff | crates/app/wf-runtime/src/metrics.rs:369-383 | It equals current minus baseline iff the count never fell between two ticks |
| DeltaSampler.TickTimesIrrelevant | crates/app/wf-runtime/src/metrics.rs:369-383 | For such counts it does not matter when or how often ticks happen |

## Left out

- CopyTree.FileSystem.CopyEntry: nothing else changes the filesystem between the scan and the copy. A link holds the absolute path it leads to; the resolution of a relative link text is not modelled, and neither are special files, access rights and several names for one file. The length of paths is limited in names rather than bytes, at the place an entry really has; the 1,024 character limit and the check of illegal characters in requests are left out.
- PluginBridge.Bridge.SyncAll: keys only. Which of two values wins under one key, the images contributions (which hold no state), logging and the eviction of cached clients are not modelled; a refusal by the codec or provider registry and the scope check of a trigger are arbitrary choices.
- PluginBridge.RunAccounted: asks that plugins keep to names disjoint from each other and from the base; what happens to colliding names is said for one cycle only (`CycleRestores`). The conflict policy of the contribution manager and its rejection of blank names are not modelled.
- ExecutionListing.ListingIsSortedFilteredMerge: the stores are taken to return every row that matches the filter they are given; a storage error on the agent side, which the program turns into an empty list, is the case of no persisted rows.
- SchemaMeaning.MeaningPreserved: covers `type`, `enum`, `required`, the four combinators, `properties`, `additionalProperties`, `items`, `$ref` and `nullable`. Other keywords are not read, so they may stand beside a reference; those named here may not. A value under `enum` that looks like a schema is rewritten too; the condition excludes it.
- QueryString.PrintThenLookUp: values are byte strings; the replacement of invalid UTF-8 by the lossy conversion is not modelled. Keys are compared without decoding, as in the code.
- StaticFiles.OpensTheCandidateInsideTheRoot: assumes that the file system does not change in between and that resolving goes through canonical paths unchanged, which a limit on the number of links breaks. The trailing separator that joining leaves on a missing path is not modelled.
- Capacity.AgentCapacityGate.TryAcquire: closing a gate and waiting for a permit are not modelled.
- DeltaSampler.Sampler.Sample: counters are exact integers, not 64-bit floating point; the two gauges written beside them are not modelled.
- ChatLedger.Storage.PersistMessages: time stamps are unbounded integers; a message with a blank id, which is given a new one, is not modelled.
- JSON values, the typed OpenAPI document (seen through its serialised form), maps and lists that the program updates through references are values in fields of a class; aliasing is not modelled.
- Real file, storage, network, channel and clock calls: finite trees, maps, sequences and arbitrary choices stand for them.
- Regular expressions, globs, binary detection and the preview text of the search are uninterpreted or left out; so are the checks of the query string and its length.
- The lower-casing of names in the tree listing is an arbitrary function; white space trimmed from registry names is space, tab, carriage return and line feed only.
- Counters of the request limiter are unbounded; the paths it exempts, the choice of a client's address and the process-wide table are not modelled.
- Session restoring, mention resolution and the model gateway: a turn's events and history are given.
- Offset pages and capped lists of `paged.rs`, which split a window as the cursor pages do.
- Event-stream wire format, routing, headers, authentication, configuration, approval lists, error codes, audit, recaps, templates and storage facades: plumbing.
