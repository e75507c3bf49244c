/**
 * The reconciliation engine of `NotesPublisher`: it mirrors notes that live in
 * vault folders onto the flat page store. Each folder that holds a note is
 * matched, by its name, to a page of the store; only when no page has that
 * name is a placeholder "folder page" created for it, under its own parent
 * folder resolved the same way. The root folder maps to the configured parent
 * page, or to none. A note no page is titled after is created under the page
 * of its folder; a note whose title a page already has updates that page,
 * which keeps its own ancestors.
 *
 * Each step is given twice: as a function from one store state to the next
 * (the specification, which the lemmas in PublisherProperties are about) and as
 * the method of `NotesPublisher` that issues the requests one by one and is
 * proved to have exactly that effect.
 */
module Publisher {
  import opened Content
  import opened RemoteStore

  /** A vault folder, as the names on its path from the vault root; the root is []. */
  type Folder = seq<string>

  /** `folder.name`: the last name on the path, and "" for the root. */
  function Name(folder: Folder): string
  {
    if folder == [] then "" else folder[|folder| - 1]
  }

  /** `folder.parent`. */
  function Parent(folder: Folder): (p: Folder)
    requires folder != []
    ensures |p| < |folder|
  {
    folder[..|folder| - 1]
  }

  /** A markdown file: its folder and its name without the extension. */
  datatype File = File(parent: Folder, basename: string)

  /** A file with the content read from the vault. */
  datatype Note = Note(file: File, content: string)

  /** The two settings the engine reads: the target space and the optional root page id. */
  datatype Settings = Settings(space: string, parentPage: string)

  /** The store after a run, its `processed` counter, and how it ended. */
  datatype RunResult = RunResult(store: Store, processed: nat, outcome: Outcome)

  /** How a run ends: every note published, or the file in progress and the error that stopped it. */
  datatype Outcome = Completed | Failed(fileInProgress: File, error: Failure)

  /** The body of every folder page. */
  const FolderBody: string := "This is a folder"

  // ---------------------------------------------------------------------------
  // Page builders
  // ---------------------------------------------------------------------------

  /** The request that creates the page of a note. */
  function BuildNewPage(space: string, file: File, content: string, parentPage: Option<string>): (p: Page)
    ensures p.id.None? && p.version.None? && p.kind == "page"
    ensures p.title == file.basename && p.spaceKey == space
    ensures p.body == Storage(content, "storage")
    ensures p.ancestors.Some? <==> Truthy(parentPage)
    ensures p.ancestors.Some? ==> p.ancestors.value == Ancestor(parentPage.value)
  {
    var page := Page(None, "page", file.basename, space, None, Storage(content, "storage"), None);
    if Truthy(parentPage) then page.(ancestors := Some(Ancestor(parentPage.value))) else page
  }

  /**
   * The request that updates an existing page: a copy of it with the new
   * content, in the encoding the update call expects, and the next version.
   */
  function BuildModifiedPage(page: Page, content: string): (p: Page)
    requires page.version.Some?
    ensures p.body == Storage(content, "editor")
    ensures p.version == Some(page.version.value + 1)
    ensures p.id == page.id && p.kind == page.kind && p.title == page.title
    ensures p.spaceKey == page.spaceKey && p.ancestors == page.ancestors
  {
    page.(body := Storage(content, "editor"), version := Some(page.version.value + 1))
  }

  /** The request that creates the placeholder page of a folder. */
  function BuildNewFolder(space: string, folder: Folder, parentPage: Option<string>): (p: Page)
    ensures p.id.None? && p.version.None? && p.kind == "page"
    ensures p.title == Name(folder) && p.spaceKey == space
    ensures p.body == Storage(FolderBody, "storage")
    ensures p.ancestors.Some? <==> Truthy(parentPage)
    ensures p.ancestors.Some? ==> p.ancestors.value == Ancestor(parentPage.value)
  {
    var page := Page(None, "page", Name(folder), space, None, Storage(FolderBody, "storage"), None);
    if Truthy(parentPage) then page.(ancestors := Some(Ancestor(parentPage.value))) else page
  }

  // ---------------------------------------------------------------------------
  // Specification of a run
  // ---------------------------------------------------------------------------

  /**
   * The page id under which the content of `folder` goes (`None` standing for
   * null, the space root), with the store state after the requests made to find
   * or create it. The cache is keyed by the folder's name alone.
   */
  function Resolve(s: Store, settings: Settings, cache: map<string, string>, folder: Folder): (out: (Store, Result<Option<string>>))
    ensures Grows(s, out.0) && s.pages <= out.0.pages
    ensures WellFormed(s) ==> WellFormed(out.0)
    decreases |folder|
  {
    var name := Name(folder);
    if name == "" then
      (s, Ok(if settings.parentPage != "" then Some(settings.parentPage) else None))
    else if name in cache then
      (s, Ok(Some(cache[name])))
    else
      var searched := Search(s, name);
      if searched.1.Err? then (searched.0, Err(searched.1.error))
      else if searched.1.value.size > 0 then (searched.0, Ok(searched.1.value.results[0].id))
      else
        var parent := Resolve(searched.0, settings, cache, Parent(folder));
        GrowsTransitive(s, searched.0, parent.0);
        if parent.1.Err? then (parent.0, Err(parent.1.error))
        else
          var created := Create(parent.0, BuildNewFolder(settings.space, folder, parent.1.value));
          GrowsTransitive(s, parent.0, created.0);
          if created.1.Err? then (created.0, Err(created.1.error))
          else (created.0, Ok(created.1.value.id))
  }

  /**
   * One iteration of the publish loop: resolve the note's folder, search its
   * title, then create the page if nothing matched or update the first match.
   */
  function PublishNote(s: Store, settings: Settings, note: Note): (out: (Store, Result<()>))
    requires WellFormed(s)
    ensures WellFormed(out.0) && Grows(s, out.0)
  {
    var parent := Resolve(s, settings, map[], note.file.parent);
    if parent.1.Err? then (parent.0, Err(parent.1.error))
    else
      var searched := Search(parent.0, note.file.basename);
      GrowsTransitive(s, parent.0, searched.0);
      if searched.1.Err? then (searched.0, Err(searched.1.error))
      else if searched.1.value.size == 0 then
        var created := Create(searched.0, BuildNewPage(settings.space, note.file, note.content, parent.1.value));
        GrowsTransitive(s, searched.0, created.0);
        (created.0, if created.1.Err? then Err(created.1.error) else Ok(()))
      else
        var first := searched.1.value.results[0];
        assert first in parent.0.pages;
        var modified := Modify(searched.0, BuildModifiedPage(first, note.content));
        GrowsTransitive(s, searched.0, modified.0);
        (modified.0, if modified.1.Err? then Err(modified.1.error) else Ok(()))
  }

  /**
   * A run over `notes` in order, stopping at the first error: the final store,
   * the `processed` counter, and the outcome.
   */
  function Run(s: Store, settings: Settings, notes: seq<Note>): (out: RunResult)
    requires WellFormed(s)
    ensures WellFormed(out.store) && Grows(s, out.store)
    ensures out.processed <= |notes|
    ensures out.outcome.Completed? ==> out.processed == |notes|
    ensures out.outcome.Failed? ==>
      1 <= out.processed && out.outcome.fileInProgress == notes[out.processed - 1].file
    decreases |notes|
  {
    if notes == [] then RunResult(s, 0, Completed)
    else
      var step := PublishNote(s, settings, notes[0]);
      if step.1.Err? then RunResult(step.0, 1, Failed(notes[0].file, step.1.error))
      else
        var rest := Run(step.0, settings, notes[1..]);
        GrowsTransitive(s, step.0, rest.store);
        assert rest.outcome.Failed? ==> notes[1..][rest.processed - 1] == notes[rest.processed];
        rest.(processed := rest.processed + 1)
  }

  /** A run's result with `k` more notes counted as processed. */
  function Shifted(out: RunResult, k: nat): RunResult
  {
    out.(processed := out.processed + k)
  }

  /** A note that fails ends the run, seen from the note at position `i`. */
  lemma RunStepFails(s: Store, settings: Settings, notes: seq<Note>, i: nat, t: Store, e: Failure)
    requires WellFormed(s) && i < |notes|
    requires PublishNote(s, settings, notes[i]) == (t, Err(e))
    ensures Shifted(Run(s, settings, notes[i..]), i) == RunResult(t, i + 1, Failed(notes[i].file, e))
  {
    var rest := notes[i..];
    assert rest != [] && rest[0] == notes[i];
  }

  /** A note that succeeds hands the rest of the run the new store. */
  lemma RunStepContinues(s: Store, settings: Settings, notes: seq<Note>, i: nat, t: Store)
    requires WellFormed(s) && i < |notes|
    requires PublishNote(s, settings, notes[i]) == (t, Ok(()))
    ensures WellFormed(t)
    ensures Shifted(Run(s, settings, notes[i..]), i) == Shifted(Run(t, settings, notes[i + 1..]), i + 1)
  {
    var rest := notes[i..];
    assert rest != [] && rest[0] == notes[i] && rest[1..] == notes[i + 1..];
  }

  // ---------------------------------------------------------------------------
  // The publisher object
  // ---------------------------------------------------------------------------

  class NotesPublisher {
    const settings: Settings
    const client: PageStore
    var totalFilesToPublish: nat
    var cacheFoldersId: map<string, string>

    constructor (settings: Settings, client: PageStore)
      ensures this.settings == settings && this.client == client
      ensures totalFilesToPublish == 0 && cacheFoldersId == map[]
    {
      this.settings := settings;
      this.client := client;
      totalFilesToPublish := 0;
      cacheFoldersId := map[];
    }

    /** `getParentPage`: the requests it sends and the id it answers are those of `Resolve`. */
    method GetParentPage(folder: Folder) returns (r: Result<Option<string>>)
      modifies client
      ensures (client.Snapshot(), r) == Resolve(old(client.Snapshot()), settings, cacheFoldersId, folder)
      decreases |folder|
    {
      var name := Name(folder);
      if name == "" {
        if settings.parentPage != "" {
          return Ok(Some(settings.parentPage));
        }
        return Ok(None);
      }
      if name in cacheFoldersId {
        return Ok(Some(cacheFoldersId[name]));
      }
      var remotePage := client.SearchPageByTitle(name);
      if remotePage.Err? {
        return Err(remotePage.error);
      }
      if remotePage.value.size > 0 {
        return Ok(remotePage.value.results[0].id);
      }
      var parentPage := GetParentPage(Parent(folder));
      if parentPage.Err? {
        return Err(parentPage.error);
      }
      var newFolder := client.CreatePage(BuildNewFolder(settings.space, folder, parentPage.value));
      if newFolder.Err? {
        return Err(newFolder.error);
      }
      return Ok(newFolder.value.id);
    }

    /**
     * `publishNotes`: resets the folder cache, records the number of notes, and
     * publishes them in order until the first error; its effect on the store,
     * the `processed` counter and the outcome are those of `Run`.
     */
    method PublishNotes(notes: seq<Note>) returns (processed: nat, outcome: Outcome)
      requires client.Valid()
      modifies this, client
      ensures client.Valid()
      ensures cacheFoldersId == map[] && totalFilesToPublish == |notes|
      ensures RunResult(client.Snapshot(), processed, outcome) == Run(old(client.Snapshot()), settings, notes)
    {
      processed := 0;
      cacheFoldersId := map[];
      totalFilesToPublish := |notes|;
      ghost var start := client.Snapshot();
      var i := 0;
      assert notes[i..] == notes;
      while i < |notes|
        invariant 0 <= i <= |notes| && processed == i
        invariant cacheFoldersId == map[] && totalFilesToPublish == |notes|
        invariant client.Valid()
        invariant Run(start, settings, notes) == Shifted(Run(client.Snapshot(), settings, notes[i..]), i)
      {
        var file, content := notes[i].file, notes[i].content;
        processed := processed + 1;
        ghost var before := client.Snapshot();

        var parentPage := GetParentPage(file.parent);
        ghost var resolved := Resolve(before, settings, map[], file.parent);
        assert client.Snapshot() == resolved.0 && parentPage == resolved.1;
        if parentPage.Err? {
          RunStepFails(before, settings, notes, i, client.Snapshot(), parentPage.error);
          return processed, Failed(file, parentPage.error);
        }
        var remotePage := client.SearchPageByTitle(file.basename);
        if remotePage.Err? {
          RunStepFails(before, settings, notes, i, client.Snapshot(), remotePage.error);
          return processed, Failed(file, remotePage.error);
        }
        if remotePage.value.size == 0 {
          var created := client.CreatePage(BuildNewPage(settings.space, file, content, parentPage.value));
          if created.Err? {
            RunStepFails(before, settings, notes, i, client.Snapshot(), created.error);
            return processed, Failed(file, created.error);
          }
        } else {
          assert remotePage.value.results[0] in resolved.0.pages;
          var modified := client.ModifyPage(BuildModifiedPage(remotePage.value.results[0], content));
          if modified.Err? {
            RunStepFails(before, settings, notes, i, client.Snapshot(), modified.error);
            return processed, Failed(file, modified.error);
          }
        }
        RunStepContinues(before, settings, notes, i, client.Snapshot());
        i := i + 1;
      }
      outcome := Completed;
    }
  }
}
