/**
 * What the reconciliation engine guarantees, stated over the specification
 * functions of Publisher: how the parent resolver finds or creates folder
 * pages, that each note costs exactly one create or one update after its folder
 * is resolved, and how a run proceeds note by note and stops at the first error.
 */
module PublisherProperties {
  import opened Content
  import opened RemoteStore
  import opened Publisher

  /** The number of create requests in a call log. */
  function Creates(log: seq<Call>): (n: nat)
    ensures n <= |log|
  {
    if log == [] then 0
    else Creates(log[..|log| - 1]) + (if log[|log| - 1].CreateCall? then 1 else 0)
  }

  lemma CreatesAppend(log: seq<Call>, c: Call)
    ensures Creates(log + [c]) == Creates(log) + (if c.CreateCall? then 1 else 0)
  {
    assert (log + [c])[..|log|] == log;
  }

  /**
   * How many folders, from `folder` upwards, have no page titled with their
   * name in `pages`, stopping at the root, at a cached name or at the first
   * folder that has one.
   */
  function MissingChain(pages: seq<Page>, cache: map<string, string>, folder: Folder): nat
    decreases |folder|
  {
    if Name(folder) == "" || Name(folder) in cache || Titled(pages, Name(folder)) != [] then 0
    else 1 + MissingChain(pages, cache, Parent(folder))
  }

  // ---------------------------------------------------------------------------
  // Page builders against the store
  // ---------------------------------------------------------------------------

  /**
   * The update built from a stored page passes the store's version check: it
   * replaces that page, and only that page, by the new content and version.
   */
  lemma ModifiedPageAccepted(s: Store, i: nat, content: string)
    requires WellFormed(s) && !Fails(s) && i < |s.pages|
    ensures s.pages[i].version.Some?
    ensures var page := BuildModifiedPage(s.pages[i], content);
      Modify(s, page) == (s.(pages := s.pages[i := page], log := s.log + [ModifyCall(page)]), Ok(page))
  {
    assert s.pages[i] in s.pages;
    var page := BuildModifiedPage(s.pages[i], content);
    var found := IndexOf(s.pages, page.id.value);
    if found.None? || found.value != i {
      assert false;
    }
  }

  /**
   * The update built from a stored page fails only in transport; it replaces
   * that page when it goes through and changes no page when it does not.
   */
  lemma ModifiedPageOutcome(t: Store, k: nat, content: string)
    requires WellFormed(t) && k < |t.pages|
    ensures t.pages[k].version.Some?
    ensures var request := BuildModifiedPage(t.pages[k], content);
      var out := Modify(t, request);
      out.0.log == t.log + [ModifyCall(request)] &&
      (out.1.Ok? <==> !Fails(t)) &&
      (out.1.Ok? ==> out.0.pages == t.pages[k := request]) &&
      (out.1.Err? ==> out.0.pages == t.pages)
  {
    assert t.pages[k] in t.pages;
    if !Fails(t) {
      ModifiedPageAccepted(t, k, content);
    }
  }

  /** An accepted update replaces, in place, the stored page that has its id. */
  lemma ModifyReplacesSameId(s: Store, page: Page, stored: Page)
    requires WellFormed(s) && stored in s.pages && page.id == stored.id
    requires Modify(s, page).1.Ok?
    ensures exists k :: 0 <= k < |s.pages| && s.pages[k] == stored && Modify(s, page).0.pages == s.pages[k := page]
  {
    var k :| 0 <= k < |s.pages| && s.pages[k].id == page.id && Modify(s, page).0.pages == s.pages[k := page];
    var j :| 0 <= j < |s.pages| && s.pages[j] == stored;
    assert j == k;
  }

  /** A created note page is appended under a fresh id, titled after the file and hung under the parent. */
  lemma NewPageStored(s: Store, space: string, file: File, content: string, parentPage: Option<string>)
    requires WellFormed(s) && !Fails(s)
    ensures var out := Create(s, BuildNewPage(space, file, content, parentPage));
      out.1.Ok? && out.0.pages == s.pages + [out.1.value] &&
      out.1.value.title == file.basename && out.1.value.body == Storage(content, "storage") &&
      out.1.value.version == Some(1) && out.1.value.id.Some? &&
      (forall p :: p in s.pages ==> p.id != out.1.value.id) &&
      (Truthy(parentPage) ==> out.1.value.ancestors == Some(Ancestor(parentPage.value))) &&
      (!Truthy(parentPage) ==> out.1.value.ancestors == None)
  {
  }

  // ---------------------------------------------------------------------------
  // Parent resolution
  // ---------------------------------------------------------------------------

  /** The root folder costs no request: the configured parent page if there is one, else null. */
  lemma ResolveRoot(s: Store, settings: Settings, cache: map<string, string>, folder: Folder)
    requires Name(folder) == ""
    ensures Resolve(s, settings, cache, folder).0 == s
    ensures settings.parentPage != "" ==> Resolve(s, settings, cache, folder).1 == Ok(Some(settings.parentPage))
    ensures settings.parentPage == "" ==> Resolve(s, settings, cache, folder).1 == Ok(None)
  {
  }

  /** A cached folder name costs no request and answers the cached id. */
  lemma ResolveCached(s: Store, settings: Settings, cache: map<string, string>, folder: Folder)
    requires Name(folder) != "" && Name(folder) in cache
    ensures Resolve(s, settings, cache, folder) == (s, Ok(Some(cache[Name(folder)])))
  {
  }

  /**
   * A folder whose name some page already has costs one search and no create,
   * and answers the id of the first such page.
   */
  lemma ResolveFound(s: Store, settings: Settings, cache: map<string, string>, folder: Folder)
    requires Name(folder) != "" && Name(folder) !in cache && !Fails(s)
    requires Titled(s.pages, Name(folder)) != []
    ensures Resolve(s, settings, cache, folder) ==
      (s.(log := s.log + [SearchCall(Name(folder))]), Ok(Titled(s.pages, Name(folder))[0].id))
  {
  }

  /**
   * A folder search that fails ends the resolution with that error: no parent
   * is resolved and no folder page is created.
   */
  lemma ResolveSearchFails(s: Store, settings: Settings, cache: map<string, string>, folder: Folder)
    requires Name(folder) != "" && Name(folder) !in cache && Fails(s)
    ensures Resolve(s, settings, cache, folder) ==
      (s.(log := s.log + [SearchCall(Name(folder))]), Err(RequestError))
  {
  }

  /**
   * A folder that no page is named after: after the search, its parent is
   * resolved first, and then exactly one folder page is created, hung under the
   * parent's id; the answer is the new page's id.
   */
  lemma ResolveMissing(s: Store, settings: Settings, cache: map<string, string>, folder: Folder)
    requires Name(folder) != "" && Name(folder) !in cache && !Fails(s)
    requires Titled(s.pages, Name(folder)) == []
    ensures folder != []
    ensures var out := Resolve(s, settings, cache, folder);
      var parent := Resolve(s.(log := s.log + [SearchCall(Name(folder))]), settings, cache, Parent(folder));
      (parent.1.Err? ==> out == (parent.0, Err(parent.1.error))) &&
      (parent.1.Ok? ==>
        var request := BuildNewFolder(settings.space, folder, parent.1.value);
        out.0.log == parent.0.log + [CreateCall(request)] &&
        (out.1.Ok? <==> !Fails(parent.0)) &&
        (out.1.Ok? ==>
          out.1 == Ok(Some(IdString(parent.0.nextId))) &&
          out.0.pages == parent.0.pages + [request.(id := Some(IdString(parent.0.nextId)), version := Some(1))]))
  {
  }

  /**
   * With no transport failure, resolution succeeds and adds exactly one page
   * per consecutive missing folder from `folder` upwards.
   */
  lemma {:induction false} ResolveSucceeds(s: Store, settings: Settings, cache: map<string, string>, folder: Folder)
    requires NoFaults(s)
    ensures var out := Resolve(s, settings, cache, folder);
      out.1.Ok? && NoFaults(out.0) &&
      |out.0.pages| == |s.pages| + MissingChain(s.pages, cache, folder)
    decreases |folder|
  {
    var name := Name(folder);
    if name != "" && name !in cache && Titled(s.pages, name) == [] {
      var searched := Search(s, name);
      ResolveSucceeds(searched.0, settings, cache, Parent(folder));
    }
  }

  /**
   * With no transport failure, resolution sends exactly one create request per
   * consecutive missing folder from `folder` upwards.
   */
  lemma {:induction false} ResolveCreatesMissingChain(s: Store, settings: Settings, cache: map<string, string>, folder: Folder)
    requires NoFaults(s)
    ensures var out := Resolve(s, settings, cache, folder);
      Creates(out.0.log) == Creates(s.log) + MissingChain(s.pages, cache, folder)
    decreases |folder|
  {
    var name := Name(folder);
    if name != "" && name !in cache {
      var searched := Search(s, name);
      CreatesAppend(s.log, SearchCall(name));
      if Titled(s.pages, name) == [] {
        var parent := Resolve(searched.0, settings, cache, Parent(folder));
        ResolveSucceeds(searched.0, settings, cache, Parent(folder));
        ResolveCreatesMissingChain(searched.0, settings, cache, Parent(folder));
        var request := BuildNewFolder(settings.space, folder, parent.1.value);
        CreatesAppend(parent.0.log, CreateCall(request));
        assert Resolve(s, settings, cache, folder).0 == Create(parent.0, request).0;
      }
    }
  }

  /** Every page resolution adds to the store is a folder page. */
  lemma {:induction false} ResolveAddsFolderPages(s: Store, settings: Settings, cache: map<string, string>, folder: Folder)
    ensures var out := Resolve(s, settings, cache, folder);
      forall p :: p in out.0.pages[|s.pages|..] ==> p.body == Storage(FolderBody, "storage") && p.kind == "page"
    decreases |folder|
  {
    var name := Name(folder);
    if name != "" && name !in cache {
      var searched := Search(s, name);
      if searched.1.Ok? && searched.1.value.size == 0 {
        var parent := Resolve(searched.0, settings, cache, Parent(folder));
        ResolveAddsFolderPages(searched.0, settings, cache, Parent(folder));
        if parent.1.Ok? {
          var created := Create(parent.0, BuildNewFolder(settings.space, folder, parent.1.value));
          if created.1.Ok? {
            assert created.0.pages[|s.pages|..] == parent.0.pages[|s.pages|..] + [created.1.value];
          }
        }
      }
    }
  }

  /**
   * The id a non-root, uncached folder resolves to is that of a page, in the
   * resulting store, titled with the folder's name.
   */
  lemma ResolveTitled(s: Store, settings: Settings, cache: map<string, string>, folder: Folder)
    requires WellFormed(s) && Name(folder) != "" && Name(folder) !in cache
    ensures var out := Resolve(s, settings, cache, folder);
      out.1.Ok? ==> exists p :: p in out.0.pages && p.id == out.1.value && p.title == Name(folder)
  {
    var out := Resolve(s, settings, cache, folder);
    var searched := Search(s, Name(folder));
    if out.1.Ok? {
      assert searched.1.Ok?;
      if searched.1.value.size > 0 {
        var first := searched.1.value.results[0];
        assert out == (searched.0, Ok(first.id));
        assert first in out.0.pages && first.title == Name(folder);
      } else {
        var parent := Resolve(searched.0, settings, cache, Parent(folder));
        var created := Create(parent.0, BuildNewFolder(settings.space, folder, parent.1.value));
        assert created.1.Ok? && out == (created.0, Ok(created.1.value.id));
        assert created.1.value in out.0.pages;
      }
    }
  }

  /**
   * Once a folder has been resolved, resolving any folder with the same name,
   * the same one or another branch's, creates nothing: one search, and the id
   * of the first page with that name. Folders are told apart by name only.
   */
  lemma ResolveSameNameReuses(s: Store, settings: Settings, cache: map<string, string>, folder: Folder, other: Folder)
    requires WellFormed(s) && NoFaults(s)
    requires Name(folder) != "" && Name(folder) !in cache && Name(other) == Name(folder)
    ensures var first := Resolve(s, settings, cache, folder);
      var again := Resolve(first.0, settings, cache, other);
      Titled(first.0.pages, Name(folder)) != [] &&
      again == (first.0.(log := first.0.log + [SearchCall(Name(folder))]), Ok(Titled(first.0.pages, Name(folder))[0].id))
  {
    var first := Resolve(s, settings, cache, folder);
    ResolveSucceeds(s, settings, cache, folder);
    ResolveTitled(s, settings, cache, folder);
    var p :| p in first.0.pages && p.id == first.1.value && p.title == Name(folder);
    assert p in Titled(first.0.pages, Name(folder));
    ResolveFound(first.0, settings, cache, other);
  }

  /**
   * Resolving a folder `docs/docs` twice in an empty store gives two different
   * pages: the nested folder page the first time, its parent the second time.
   * This is a consequence of the model store, which accepts a second page with
   * an existing title and answers a search in creation order; a store that
   * refused duplicate titles in a space would fail the second folder create.
   */
  lemma NestedSameNameDiverges()
    ensures var s := Store([], 0, [], {});
      var settings := Settings("DOC", "");
      var first := Resolve(s, settings, map[], ["docs", "docs"]);
      var again := Resolve(first.0, settings, map[], ["docs", "docs"]);
      first.1 == Ok(Some("1")) && again.1 == Ok(Some("0"))
  {
    var settings := Settings("DOC", "");
    var outer: Folder, inner: Folder := ["docs"], ["docs", "docs"];
    assert Parent(inner) == outer && Parent(outer) == [];
    assert IdString(0) == "0" && IdString(1) == "1";
    // first resolution: two searches that find nothing, then two creates, outermost first
    var s0 := Store([], 0, [], {});
    var s1 := s0.(log := [SearchCall("docs")]);
    var s2 := s1.(log := s1.log + [SearchCall("docs")]);
    assert !Fails(s0);
    assert Titled(s0.pages, "docs") == [];
    assert Search(s0, "docs").0 == s1;
    assert Search(s0, "docs").1 == Ok(SearchResult(0, []));
    assert Search(s0, "docs") == (s1, Ok(SearchResult(0, [])));
    assert Search(s1, "docs") == (s2, Ok(SearchResult(0, [])));
    assert Resolve(s2, settings, map[], []) == (s2, Ok(None));
    var f0 := BuildNewFolder("DOC", outer, None);
    var p0 := f0.(id := Some("0"), version := Some(1));
    var s3 := s2.(pages := [p0], nextId := 1, log := s2.log + [CreateCall(f0)]);
    assert !Fails(s2);
    assert Create(s2, f0).1 == Ok(p0);
    assert Create(s2, f0).0 == s3;
    assert Create(s2, f0) == (s3, Ok(p0));
    assert Resolve(s1, settings, map[], outer) == (s3, Ok(Some("0")));
    var f1 := BuildNewFolder("DOC", inner, Some("0"));
    var p1 := f1.(id := Some("1"), version := Some(1));
    var s4 := s3.(pages := [p0, p1], nextId := 2, log := s3.log + [CreateCall(f1)]);
    assert !Fails(s3);
    assert Create(s3, f1).1 == Ok(p1);
    assert Create(s3, f1).0 == s4;
    assert Create(s3, f1) == (s4, Ok(p1));
    assert Resolve(s0, settings, map[], inner) == (s4, Ok(Some("1")));
    // second resolution: the search now finds both pages and takes the outer one
    assert [p0, p1][..1] == [p0];
    assert Titled([p0], "docs") == [p0];
    assert Titled([p0, p1], "docs") == [p0, p1];
    assert Search(s4, "docs").1 == Ok(SearchResult(2, [p0, p1]));
    assert Resolve(s4, settings, map[], inner).1 == Ok(Some("0"));
  }

  // ---------------------------------------------------------------------------
  // One note
  // ---------------------------------------------------------------------------

  /** A note that succeeds had its folder resolved and its title search answered. */
  lemma NoteSucceededSteps(s: Store, settings: Settings, note: Note)
    requires WellFormed(s)
    ensures var parent := Resolve(s, settings, map[], note.file.parent);
      PublishNote(s, settings, note).1.Ok? ==> parent.1.Ok? && !Fails(parent.0)
  {
  }

  /**
   * A note whose folder cannot be resolved ends with the resolver's error, and
   * one whose title search fails ends with that error; either way no create or
   * update is sent and the store is as the failed step left it.
   */
  lemma NoteStopsAtFailedStep(s: Store, settings: Settings, note: Note)
    requires WellFormed(s)
    ensures var parent := Resolve(s, settings, map[], note.file.parent);
      var out := PublishNote(s, settings, note);
      (parent.1.Err? ==> out == (parent.0, Err(parent.1.error))) &&
      (parent.1.Ok? && Fails(parent.0) ==>
        out == (parent.0.(log := parent.0.log + [SearchCall(note.file.basename)]), Err(RequestError)))
  {
  }

  /**
   * A note whose title no page has, once its folder is resolved and the title
   * search is answered, costs exactly one more request, a create of the built
   * page under the resolved folder, and never an update; the page is appended
   * unless that request fails.
   */
  lemma NoteCreates(s: Store, settings: Settings, note: Note)
    requires WellFormed(s)
    ensures var parent := Resolve(s, settings, map[], note.file.parent);
      var out := PublishNote(s, settings, note);
      var title := note.file.basename;
      parent.1.Ok? && !Fails(parent.0) && Titled(parent.0.pages, title) == [] ==>
        var searched := parent.0.(log := parent.0.log + [SearchCall(title)]);
        var request := BuildNewPage(settings.space, note.file, note.content, parent.1.value);
        out.0.log == parent.0.log + [SearchCall(title), CreateCall(request)] &&
        (out.1.Ok? <==> !Fails(searched)) &&
        (out.1.Ok? ==>
          out.0.pages == parent.0.pages + [request.(id := Some(IdString(parent.0.nextId)), version := Some(1))]) &&
        (out.1.Err? ==> out.0.pages == parent.0.pages)
  {
    var parent := Resolve(s, settings, map[], note.file.parent);
    var title := note.file.basename;
    if parent.1.Ok? && !Fails(parent.0) && Titled(parent.0.pages, title) == [] {
      var searched := Search(parent.0, title);
      assert searched.0 == parent.0.(log := parent.0.log + [SearchCall(title)]);
      assert searched.1.Ok? && searched.1.value.size == 0;
    }
  }

  /**
   * A note whose title some page has, once its folder is resolved and the
   * title search is answered, costs exactly one more request, an update of the
   * first such page, and never a create; the update passes the version check,
   * so it fails only in transport, and then changes no page.
   */
  lemma NoteModifies(s: Store, settings: Settings, note: Note)
    requires WellFormed(s)
    ensures var parent := Resolve(s, settings, map[], note.file.parent);
      var out := PublishNote(s, settings, note);
      var title := note.file.basename;
      var matches := Titled(parent.0.pages, title);
      parent.1.Ok? && !Fails(parent.0) && matches != [] ==>
        matches[0].version.Some? &&
        var searched := parent.0.(log := parent.0.log + [SearchCall(title)]);
        var request := BuildModifiedPage(matches[0], note.content);
        out.0.log == parent.0.log + [SearchCall(title), ModifyCall(request)] &&
        (out.1.Ok? <==> !Fails(searched)) &&
        (out.1.Err? ==> out.0.pages == parent.0.pages)
  {
    var parent := Resolve(s, settings, map[], note.file.parent);
    var title := note.file.basename;
    var matches := Titled(parent.0.pages, title);
    if parent.1.Ok? && !Fails(parent.0) && matches != [] {
      NoteUpdatesFirstMatch(s, settings, note);
      var k :| 0 <= k < |parent.0.pages| && parent.0.pages[k] == matches[0];
      var searched := parent.0.(log := parent.0.log + [SearchCall(title)]);
      var request := BuildModifiedPage(matches[0], note.content);
      var modified := Modify(searched, request);
      ModifiedPageOutcome(searched, k, note.content);
    }
  }

  /**
   * The update a note sends, when it goes through, replaces the first page
   * with the note's title in place by its copy with the new content and the
   * next version.
   */
  lemma NoteUpdatesInPlace(s: Store, settings: Settings, note: Note)
    requires WellFormed(s)
    ensures var parent := Resolve(s, settings, map[], note.file.parent);
      var out := PublishNote(s, settings, note);
      var matches := Titled(parent.0.pages, note.file.basename);
      parent.1.Ok? && !Fails(parent.0) && matches != [] && out.1.Ok? ==>
        matches[0].version.Some? &&
        exists k :: 0 <= k < |parent.0.pages| && parent.0.pages[k] == matches[0] &&
          out.0.pages == parent.0.pages[k := BuildModifiedPage(matches[0], note.content)]
  {
    var parent := Resolve(s, settings, map[], note.file.parent);
    var matches := Titled(parent.0.pages, note.file.basename);
    if parent.1.Ok? && !Fails(parent.0) && matches != [] && PublishNote(s, settings, note).1.Ok? {
      NoteUpdatesFirstMatch(s, settings, note);
      var k :| 0 <= k < |parent.0.pages| && parent.0.pages[k] == matches[0];
      ModifiedPageOutcome(Search(parent.0, note.file.basename).0, k, note.content);
    }
  }

  /** After a title search with a match, the note's step is the update of the first match. */
  lemma NoteUpdatesFirstMatch(s: Store, settings: Settings, note: Note)
    requires WellFormed(s)
    ensures var parent := Resolve(s, settings, map[], note.file.parent);
      var title := note.file.basename;
      var matches := Titled(parent.0.pages, title);
      parent.1.Ok? && !Fails(parent.0) && matches != [] ==>
        matches[0] in parent.0.pages &&
        var searched := parent.0.(log := parent.0.log + [SearchCall(title)]);
        var modified := Modify(searched, BuildModifiedPage(matches[0], note.content));
        var out := PublishNote(s, settings, note);
        out.0 == modified.0 && (out.1.Ok? <==> modified.1.Ok?) &&
        out.0.log == parent.0.log + [SearchCall(title), ModifyCall(BuildModifiedPage(matches[0], note.content))]
  {
    var parent := Resolve(s, settings, map[], note.file.parent);
    var title := note.file.basename;
    var matches := Titled(parent.0.pages, title);
    if parent.1.Ok? && !Fails(parent.0) && matches != [] {
      var searched := Search(parent.0, title);
      assert searched.0 == parent.0.(log := parent.0.log + [SearchCall(title)]);
      assert searched.1.Ok? && searched.1.value.results == matches;
      assert matches[0] in parent.0.pages;
      var request := BuildModifiedPage(matches[0], note.content);
      assert parent.0.log + [SearchCall(title)] + [ModifyCall(request)] ==
        parent.0.log + [SearchCall(title), ModifyCall(request)];
    }
  }


  /** With no transport failure, publishing a note succeeds. */
  lemma NoteSucceeds(s: Store, settings: Settings, note: Note)
    requires WellFormed(s) && NoFaults(s)
    ensures PublishNote(s, settings, note).1.Ok?
  {
    var parent := Resolve(s, settings, map[], note.file.parent);
    ResolveSucceeds(s, settings, map[], note.file.parent);
    var searched := Search(parent.0, note.file.basename);
    var matches := Titled(parent.0.pages, note.file.basename);
    if matches != [] {
      assert matches[0] in parent.0.pages;
      var i :| 0 <= i < |parent.0.pages| && parent.0.pages[i] == matches[0];
      ModifiedPageAccepted(searched.0, i, note.content);
    }
  }

  // ---------------------------------------------------------------------------
  // A run
  // ---------------------------------------------------------------------------

  /** With no transport failure, a run publishes every note and counts them all. */
  lemma {:induction false} RunCompletes(s: Store, settings: Settings, notes: seq<Note>)
    requires WellFormed(s) && NoFaults(s)
    ensures Run(s, settings, notes).outcome == Completed
    ensures Run(s, settings, notes).processed == |notes|
    decreases |notes|
  {
    if notes != [] {
      NoteSucceeds(s, settings, notes[0]);
      var step := PublishNote(s, settings, notes[0]);
      assert NoFaults(step.0);
      RunCompletes(step.0, settings, notes[1..]);
    }
  }

  /** Notes are published in order: a completed run over `notes` hands its store to the run over `more`. */
  lemma {:induction false} RunInOrder(s: Store, settings: Settings, notes: seq<Note>, more: seq<Note>)
    requires WellFormed(s) && Run(s, settings, notes).outcome == Completed
    ensures var first := Run(s, settings, notes);
      Run(s, settings, notes + more) == Shifted(Run(first.store, settings, more), |notes|)
    decreases |notes|
  {
    if notes == [] {
      assert notes + more == more;
    } else {
      var step := PublishNote(s, settings, notes[0]);
      assert (notes + more)[0] == notes[0] && (notes + more)[1..] == notes[1..] + more;
      assert step.1.Ok?;
      RunInOrder(step.0, settings, notes[1..], more);
    }
  }

  /** After the first error nothing more happens: notes after a failing run are never touched. */
  lemma {:induction false} RunStopsAtFirstError(s: Store, settings: Settings, notes: seq<Note>, more: seq<Note>)
    requires WellFormed(s) && Run(s, settings, notes).outcome.Failed?
    ensures Run(s, settings, notes + more) == Run(s, settings, notes)
    decreases |notes|
  {
    var step := PublishNote(s, settings, notes[0]);
    assert (notes + more)[0] == notes[0] && (notes + more)[1..] == notes[1..] + more;
    if step.1.Ok? {
      RunStopsAtFirstError(step.0, settings, notes[1..], more);
    }
  }

  /** A run that fails on its first note is that note's failing step. */
  lemma RunFailsFirst(s: Store, settings: Settings, notes: seq<Note>)
    requires WellFormed(s) && Run(s, settings, notes).outcome.Failed?
    requires Run(s, settings, notes).processed == 1
    ensures var out := Run(s, settings, notes);
      PublishNote(s, settings, notes[0]) == (out.store, Err(out.outcome.error))
  {
    var step := PublishNote(s, settings, notes[0]);
    if step.1.Ok? {
      assert false;
    }
  }

  /**
   * A failed run is the first error: every note before the one in progress was
   * published, and the store is as that note's failing step left it.
   */
  lemma RunFailureIsFirstError(s: Store, settings: Settings, notes: seq<Note>)
    requires WellFormed(s) && Run(s, settings, notes).outcome.Failed?
    ensures var out := Run(s, settings, notes);
      var k := out.processed - 1;
      var before := Run(s, settings, notes[..k]);
      before.outcome == Completed &&
      PublishNote(before.store, settings, notes[k]) == (out.store, Err(out.outcome.error))
  {
    var out := Run(s, settings, notes);
    var k := out.processed - 1;
    var head, tail := notes[..k], notes[k..];
    assert head + tail == notes;
    var before := Run(s, settings, head);
    if before.outcome.Failed? {
      RunStopsAtFirstError(s, settings, head, tail);
      assert false;
    }
    RunInOrder(s, settings, head, tail);
    var last := Run(before.store, settings, tail);
    assert out == Shifted(last, k);
    RunFailsFirst(before.store, settings, tail);
    assert tail[0] == notes[k];
  }
}
