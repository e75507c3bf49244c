# obsidian-confluence-publish: the note publisher, in Dafny

This project models the reconciliation engine of the Obsidian plugin
obsidian-confluence-publish (`NotesPublisher` in `src/notesPublisher.ts`). The
engine mirrors the notes of a vault, which sit in nested folders, onto a flat
Confluence page store. Each folder that holds a note is matched, by its name,
to a page of the store. When no page has that name, its own parent folder is
matched the same way, and a placeholder "folder page" ("This is a folder") is
created for it. A note that no page is titled after is
created under the page of its folder; it has no ancestor when that folder is the
vault root and no parent page is configured. A note whose title a page already
has updates that page, which keeps its own ancestors. For each note, the
publisher does three things:

1. It resolves the note's folder to a page id (`getParentPage`). The root folder
   maps to the configured parent page, or to null. A folder name found in the
   folder cache maps to the cached id. Otherwise the store is searched by the
   folder's name. The first hit is adopted; if there is none, the folder's own
   parent is resolved and a folder page is created under it.
2. It searches the store by the note's title (`basename`).
3. It creates the page when nothing matched. Otherwise it updates the first
   match, with the new content in the `editor` representation and the version
   number plus one.

A run processes the notes in order and stops at the first error. It remembers
how many notes it started and which file was in progress.

The project has four modules.

- `Content` (`content.dfy`) holds the shape of a page record from
  `src/interfaces.ts`, and JavaScript truthiness of a `string | null`.
- `RemoteStore` (`remote_store.dfy`) holds the page store the publisher talks
  to.
  - It is specified twice. The functions `Search`, `Create` and `Modify` act on
    a `Store` value. The class `PageStore` keeps the same state in fields.
    Each of its methods is proved to have exactly the effect of the matching
    function.
  - Created pages get the decimal numeral of a counter as their id, and
    version 1.
  - An update is accepted only for a known id whose version is the stored one
    plus 1. Otherwise it is answered with HTTP status 404 or 409.
  - Every request is logged. The environment decides, by the position of a
    request in that log (the set `faults`), which requests fail in transport.
- `Publisher` (`publisher.dfy`) holds three kinds of members.
  - The page builders.
  - The specification functions `Resolve` (one folder), `PublishNote` (one
    iteration of the loop) and `Run` (a whole run).
  - The class `NotesPublisher`. Its methods `GetParentPage` and
    `PublishNotes` issue the requests one by one. They are proved to leave
    the store, the counter and the outcome exactly as those functions
    describe.
- `PublisherProperties` (`publisher_properties.dfy`) holds lemmas about those
  functions:
  - how folders are found or created;
  - that a note costs exactly one create or one update;
  - that the store's invariant is kept;
  - that a run publishes in order and stops at the first error;
  - what happens to folders that share a name.

Some behaviour of the source that is easy to expect otherwise:

- The folder cache `_cacheFoldersId` is keyed by the folder's name alone. It is
  cleared at the start of every run and never written
  (src/notesPublisher.ts:102-104, 119). So every resolution of a non-root
  folder searches the store again, and a folder resolves to the first page
  that has its name, whichever branch that page was created for. Two folders
  with the same name therefore usually share one page
  (`ResolveSameNameReuses`), but nested folders with the same name can resolve
  to different pages (`NestedSameNameDiverges`).
- The publisher attaches no labels and deletes nothing. `src/main.ts:52` calls a
  `deleteNotes` that `NotesPublisher` does not define.
- The body of a note's page is the note content as read.

## Model

| member | source | states |
|---|---|---|
| `Publisher.BuildNewPage` | src/notesPublisher.ts:30-51 | a new page of kind "page", titled with the file's basename, in the configured space, with the content in the "storage" representation and no id or version; it has an ancestor exactly when the parent id is truthy, and that ancestor is the parent id |
| `Publisher.BuildModifiedPage` | src/notesPublisher.ts:53-65 | the update keeps id, kind, title, space and ancestors, puts the new content in the "editor" representation and sets the version to the stored version plus one |
| `Publisher.BuildNewFolder` | src/notesPublisher.ts:67-87 | a folder page titled with the folder's name, with body "This is a folder" in "storage", and an ancestor exactly when the parent id is truthy |
| `Publisher.Resolve` | src/notesPublisher.ts:95-114 | resolving a folder only appends to the request log, never removes a page, keeps every page's id, never lowers a version, and keeps the store well formed |
| `Publisher.NotesPublisher.GetParentPage` | src/notesPublisher.ts:95-114 | the requests `getParentPage` sends and the id it returns, including a propagated error, are exactly those of `Resolve` with the object's folder cache |
| `Publisher.PublishNote` | src/notesPublisher.ts:131-138 | publishing one note keeps the store well formed and only grows it |
| `Publisher.Run` | src/notesPublisher.ts:116-146 | a run keeps the store well formed and only grows it; it processes at most every note; a completed run has processed all of them; a failed run names the file it was working on, which is the last note it counted |
| `Publisher.NotesPublisher.PublishNotes` | src/notesPublisher.ts:116-146 | `publishNotes` empties the folder cache, sets the total to the number of notes, keeps the store valid, and leaves the store, the `processed` counter and the outcome (completed, or the file in progress and the error) exactly as `Run` describes |
| `Publisher.NotesPublisher.constructor` | src/notesPublisher.ts:17-24 | a publisher starts with the given settings and client, a total of 0 and an empty folder cache |
| `Publisher.RunStepFails` | src/notesPublisher.ts:126-146 | a note whose step fails ends the run there: one more note counted, the file in progress is that note's file, and the store is as the failing step left it |
| `Publisher.RunStepContinues` | src/notesPublisher.ts:126-139 | a note that succeeds hands the new, still well-formed store to the rest of the run, one note further on |
| `PublisherProperties.ModifiedPageAccepted` | src/notesPublisher.ts:53-65 | an update built from a stored page passes the store's version check and replaces that page in place, answering the update itself |
| `PublisherProperties.ModifiedPageOutcome` | src/notesPublisher.ts:136-137 | the update built from a stored page is logged, fails exactly when the request fails in transport, replaces that page when it goes through and changes no page otherwise |
| `PublisherProperties.ModifyReplacesSameId` | src/notesPublisher.ts:137 | an accepted update replaces, at its position, exactly the stored page whose id it carries |
| `PublisherProperties.NewPageStored` | src/notesPublisher.ts:30-51 | creating a built note page appends it under an id no stored page has, with version 1, the file's title and content, and the ancestor rule of the builder |
| `PublisherProperties.ResolveRoot` | src/notesPublisher.ts:96-101 | the root folder sends no request and answers the configured parent page if it is non-empty, else null |
| `PublisherProperties.ResolveCached` | src/notesPublisher.ts:102-104 | a cached folder name sends no request and answers the cached id |
| `PublisherProperties.ResolveFound` | src/notesPublisher.ts:106-109 | an uncached folder whose name a page has costs one search and answers the id of the first page with that title |
| `PublisherProperties.ResolveSearchFails` | src/notesPublisher.ts:106 | an uncached non-root folder whose search fails ends resolution with `RequestError` after that one search: no parent is resolved and no folder page is created |
| `PublisherProperties.ResolveMissing` | src/notesPublisher.ts:110-113 | an uncached folder that no page is named after resolves its parent first, then sends one create of a folder page under the parent's id, and answers the new page's id; an error of the parent is passed on unchanged |
| `PublisherProperties.ResolveSucceeds` | src/notesPublisher.ts:95-114 | with no transport failure, resolution succeeds and adds exactly one page for each consecutive missing folder from the folder upwards |
| `PublisherProperties.ResolveCreatesMissingChain` | src/notesPublisher.ts:110-113 | with no transport failure, resolution sends exactly one create request for each consecutive missing folder from the folder upwards |
| `PublisherProperties.ResolveAddsFolderPages` | src/notesPublisher.ts:110-113 | every page that resolution adds to the store is a folder page |
| `PublisherProperties.ResolveTitled` | src/notesPublisher.ts:106-113 | the id an uncached folder resolves to is that of a page in the resulting store titled with the folder's name |
| `PublisherProperties.ResolveSameNameReuses` | src/notesPublisher.ts:102-109 | once a folder is resolved, resolving any folder with the same name, in the same or another branch, creates nothing: it costs one search and answers the first page with that name |
| `PublisherProperties.NestedSameNameDiverges` | src/notesPublisher.ts:102-113 | in an empty store, resolving `docs/docs` gives the inner folder's new page "1", and resolving it again gives the outer folder's page "0" |
| `PublisherProperties.NoteSucceededSteps` | src/notesPublisher.ts:131-133 | a note that succeeds had its folder resolved and its title search answered |
| `PublisherProperties.NoteStopsAtFailedStep` | src/notesPublisher.ts:131-133 | a note whose folder resolution fails ends with the resolver's error and the store it left; a note whose title search fails ends with `RequestError` after that one search; in neither case is a create or update sent |
| `PublisherProperties.NoteCreates` | src/notesPublisher.ts:133-135 | once the folder is resolved and the title search answered with no match, exactly one more request follows, a create of the built page under the resolved folder; it fails only in transport, appends the page under the next id with version 1 when it goes through, and changes no page when it does not |
| `PublisherProperties.NoteUpdatesFirstMatch` | src/notesPublisher.ts:133-137 | once the folder is resolved and the title search answered with a match, the first match is a stored page and the note's outcome and final store are those of the update of that page sent after the search |
| `PublisherProperties.NoteModifies` | src/notesPublisher.ts:133-137 | once the folder is resolved and the title search answered with a match, exactly one more request follows, an update of the first match; it fails only in transport, and changes no page when it fails |
| `PublisherProperties.NoteUpdatesInPlace` | src/notesPublisher.ts:133-137 | when that update goes through, it replaces the first page with the note's title in place by its copy with the new content and the next version |
| `PublisherProperties.NoteSucceeds` | src/notesPublisher.ts:131-138 | with no transport failure, publishing a note succeeds; the update it may send always passes the version check |
| `PublisherProperties.RunCompletes` | src/notesPublisher.ts:126-142 | with no transport failure, a run completes and counts every note |
| `PublisherProperties.RunInOrder` | src/notesPublisher.ts:126-139 | notes are published in order: a completed run over some notes hands its store to the run over the next ones |
| `PublisherProperties.RunStopsAtFirstError` | src/notesPublisher.ts:143-146 | after an error nothing more happens: the notes after a failed run are never touched |
| `PublisherProperties.RunFailsFirst` | src/notesPublisher.ts:128-146 | a run that fails having counted one note is exactly that note's failing step |
| `PublisherProperties.RunFailureIsFirstError` | src/notesPublisher.ts:126-146 | a failed run is its first error: every note before the file in progress was published, and the store is as that note's failing step left it |
| `RemoteStore.Search` | src/notesPublisher.ts:106 | a title search logs one request, changes no page, and returns exactly the stored pages with that title, with `size` their number; it fails exactly when the environment fails the request |
| `RemoteStore.Create` | src/notesPublisher.ts:112 | a create logs one request; when it succeeds it appends the page under a fresh id with version 1, advances the id counter and answers the stored page; when it fails it changes neither the pages nor the counter |
| `RemoteStore.Modify` | src/notesPublisher.ts:137 | an update logs one request; when it succeeds the page with the same id is replaced in place, given that the new version is the stored one plus one; when it fails it changes no page |
| `RemoteStore.PageStore.constructor` | src/notesPublisher.ts:22 | a new client starts with an empty, valid store |
| `RemoteStore.PageStore.Populated` | src/notesPublisher.ts:22 | a client over a space that already holds well-formed pages starts with exactly those pages, the given next id and an empty log |
| `RemoteStore.PageStore.SearchPageByTitle` | src/notesPublisher.ts:106 | the client's title search has exactly the effect and answer of `Search` |
| `RemoteStore.PageStore.CreatePage` | src/notesPublisher.ts:112 | the client's create has exactly the effect and answer of `Create` |
| `RemoteStore.PageStore.ModifyPage` | src/notesPublisher.ts:137 | the client's update has exactly the effect and answer of `Modify` |
| `RemoteStore.IdStringInjective` | src/interfaces.ts:2 | distinct counter values give distinct page ids |
| `RemoteStore.Titled` | src/notesPublisher.ts:106-108 | the pages with a title are exactly the stored pages that have it, and there are no more of them than stored pages |
| `RemoteStore.TitledFirst` | src/notesPublisher.ts:107-108 | the first page with a title, which `results[0]` picks, is the first stored page with that title: every page stored before it has another title |

## Left out

- Reading the vault (`getNotes`, `src/notesPublisher.ts:89-93`) is left out: the list of notes with their folder, basename and content is an input of `PublishNotes`.
- The status bar, `Notice` pop-ups, console logging and the `setTimeout` that clears the status bar are user-interface output with no effect on the store. The counter they display is modelled as `processed`.
- The HTTP transport of the client is replaced by the abstract store of `RemoteStore`. This covers URLs, authentication headers and the conversion of a response into an error message. The client file in the repository has no search or update call; its only create call is not the one `notesPublisher.ts` uses. So the store's behaviour follows Confluence's documented semantics: exact-title search, a store-assigned id, and an update only at version plus one. Every failure the environment decides, whether the request got no response or the service refused it, is `RequestError`. `HttpStatus` comes only from the store's own 404 and 409 answers to an update, and `ModifiedPageAccepted` shows the publisher's updates never draw them.
- The kind of a service error is not modelled. The source reports a refusal as `HTTP status N` or as the service's joined `errorMessages` (src/confluenceClient.ts:43-45); the model keeps only that the request failed, that the run stops there and that the error is reported with the file in progress.
- A request that fails is taken to have had no effect on the store. A create or update that the service applied but whose response was lost is not modelled, so "changes no page when it fails" in the rows of `RemoteStore.Create`, `RemoteStore.Modify`, `PublisherProperties.ModifiedPageOutcome`, `PublisherProperties.NoteCreates` and `PublisherProperties.NoteModifies` rests on that choice. The publisher's own behaviour, stopping and reporting the file in progress, does not depend on it.
- The store does not check spaces, duplicate titles or whether an ancestor exists. Search is by title only and is not scoped to the configured space.
- The plugin entry point, the settings tab and the `_isSyncing` guard in `src/main.ts` are outside the publisher. Concurrency is not modelled, because the publisher runs one request at a time.
- `createProxy` in `src/interfaces.ts` is not used by the publisher. `src/processor.ts` is not part of this model.
- The `_links` field of a page record is left out. The update request is a copy of the page the search returned (`Object.assign` at src/notesPublisher.ts:54), so it carries `_links` and any other field the store sent back. The model's `Page` has only the fields the publisher builds, so that copy-through is not captured. The `type` field is called `kind`.
- Version numbers are unbounded naturals. JavaScript number precision beyond 2^53 is not modelled.
- `NotesPublisher.constructor` takes its client as a parameter instead of building one from the settings, so that the store state can be named.
- Labels and deleting previously published pages have no code in `src/notesPublisher.ts` and are not modelled.
- Publisher.Resolve: the folder cache is read but never written during a run, as in the source. Resolving the same folder twice therefore searches twice, instead of answering from the cache.
- Publisher.BuildModifiedPage: requires the page to carry a version, because the source dereferences it. Every page the store returns has one, as the store invariant guarantees.
