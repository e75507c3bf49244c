/**
 * An in-memory stand-in for the Confluence REST service the publisher talks to:
 * a flat list of pages searched by title, created with a store-assigned id and
 * replaced by id under Confluence's version check. Every request is recorded in
 * a call log, and the environment decides, by the position of a request in that
 * log, which requests fail in transport.
 */
module RemoteStore {
  import opened Content

  /**
   * Why a request failed. Every failure the environment decides, whether the
   * request got no response or the service refused it, is `RequestError`;
   * `HttpStatus` is the store's own answer to an update with an unknown id
   * (404) or the wrong version (409).
   */
  datatype Failure = RequestError | HttpStatus(status: nat)

  datatype Result<T> = Ok(value: T) | Err(error: Failure)

  /** The answer to a title search: `size` and `results`. */
  datatype SearchResult = SearchResult(size: nat, results: seq<Page>)

  /** One request sent to the store, with its argument. */
  datatype Call = SearchCall(title: string) | CreateCall(page: Page) | ModifyCall(page: Page)

  // ---------------------------------------------------------------------------
  // Page ids: decimal numerals drawn from a counter
  // ---------------------------------------------------------------------------

  function Digit(d: nat): char
    requires d < 10
  {
    ('0' as int + d) as char
  }

  /** The decimal numeral of `n`; the store names its n-th page with it. */
  function IdString(n: nat): (r: string)
    ensures |r| > 0
    ensures r[|r| - 1] == Digit(n % 10)
    ensures n < 10 <==> |r| == 1
  {
    if n < 10 then [Digit(n)] else IdString(n / 10) + [Digit(n % 10)]
  }

  /** Distinct counters give distinct ids. */
  lemma {:induction false} IdStringInjective(a: nat, b: nat)
    requires IdString(a) == IdString(b)
    ensures a == b
  {
    var ra, rb := IdString(a), IdString(b);
    assert Digit(a % 10) as int == '0' as int + a % 10;
    assert a % 10 == b % 10;
    if 10 <= a {
      assert ra[..|ra| - 1] == IdString(a / 10);
      assert rb[..|rb| - 1] == IdString(b / 10);
      IdStringInjective(a / 10, b / 10);
    }
  }

  /** The id handed out next differs from every id the counter produces later. */
  lemma FreshIdBelow(n: nat)
    ensures forall k :: n < k ==> IdString(k) != IdString(n)
  {
    forall k | n < k
      ensures IdString(k) != IdString(n)
    {
      if IdString(k) == IdString(n) {
        IdStringInjective(k, n);
      }
    }
  }

  // ---------------------------------------------------------------------------
  // Store state
  // ---------------------------------------------------------------------------

  /**
   * The pages, the counter that names the next created page, the log of every
   * request received, and the positions in that log at which a request fails.
   */
  datatype Store = Store(pages: seq<Page>, nextId: nat, log: seq<Call>, faults: set<nat>)

  /** The version number of a page, 0 when it has none. */
  function Version(p: Page): nat
  {
    if p.version.Some? then p.version.value else 0
  }

  /**
   * What the store keeps true: every page has an id and a version, ids are
   * distinct, and none of them is one the counter has still to hand out.
   */
  ghost predicate WellFormed(s: Store)
  {
    (forall p :: p in s.pages ==> p.id.Some? && p.version.Some?) &&
    (forall i, j :: 0 <= i < j < |s.pages| ==> s.pages[i].id != s.pages[j].id) &&
    (forall i, k :: 0 <= i < |s.pages| && s.nextId <= k ==> s.pages[i].id != Some(IdString(k)))
  }

  /** The next request fails in transport. */
  predicate Fails(s: Store)
  {
    |s.log| in s.faults
  }

  /** No request from now on fails in transport. */
  predicate NoFaults(s: Store)
  {
    forall i :: i in s.faults ==> i < |s.log|
  }

  /**
   * `t` is a later state of `s`: the same environment, a longer log, no page
   * removed, every page keeping its id and never losing version.
   */
  predicate Grows(s: Store, t: Store)
  {
    s.faults == t.faults && s.log <= t.log && s.nextId <= t.nextId &&
    |s.pages| <= |t.pages| &&
    forall i :: 0 <= i < |s.pages| ==>
      t.pages[i].id == s.pages[i].id && Version(s.pages[i]) <= Version(t.pages[i])
  }

  lemma GrowsTransitive(s: Store, t: Store, u: Store)
    requires Grows(s, t) && Grows(t, u)
    ensures Grows(s, u)
  {
  }

  // ---------------------------------------------------------------------------
  // The three requests
  // ---------------------------------------------------------------------------

  /**
   * The pages titled `title`, in store order. The contract gives membership;
   * that the first result is the first stored page with the title is
   * `TitledFirst`.
   */
  function Titled(pages: seq<Page>, title: string): (r: seq<Page>)
    ensures |r| <= |pages|
    ensures forall p :: p in r <==> p in pages && p.title == title
  {
    if pages == [] then []
    else
      var last := pages[|pages| - 1];
      assert pages == pages[..|pages| - 1] + [last];
      Titled(pages[..|pages| - 1], title) + (if last.title == title then [last] else [])
  }

  /** The first page titled `title` is the first stored page with that title. */
  lemma {:induction false} TitledFirst(pages: seq<Page>, title: string)
    ensures var r := Titled(pages, title);
      r != [] ==>
        exists k :: 0 <= k < |pages| && pages[k] == r[0] && forall j :: 0 <= j < k ==> pages[j].title != title
  {
    if pages != [] {
      var front, last := pages[..|pages| - 1], pages[|pages| - 1];
      var r, inFront := Titled(pages, title), Titled(front, title);
      assert r == inFront + (if last.title == title then [last] else []);
      if inFront != [] {
        TitledFirst(front, title);
        var k :| 0 <= k < |front| && front[k] == inFront[0] && forall j :: 0 <= j < k ==> front[j].title != title;
        assert forall j :: 0 <= j < k ==> pages[j] == front[j];
        assert 0 <= k < |pages| && pages[k] == r[0] && forall j :: 0 <= j < k ==> pages[j].title != title;
      } else if r != [] {
        forall j | 0 <= j < |front|
          ensures pages[j].title != title
        {
          assert front[j] in front && front[j] !in inFront;
        }
        var k := |front|;
        assert 0 <= k < |pages| && pages[k] == r[0] && forall j :: 0 <= j < k ==> pages[j].title != title;
      }
    }
  }

  /** Search by exact title: the results are exactly the stored pages with that title. */
  function Search(s: Store, title: string): (out: (Store, Result<SearchResult>))
    ensures out.0.pages == s.pages && out.0.nextId == s.nextId
    ensures out.0.log == s.log + [SearchCall(title)] && out.0.faults == s.faults
    ensures Grows(s, out.0) && (WellFormed(s) ==> WellFormed(out.0))
    ensures out.1.Ok? <==> !Fails(s)
    ensures out.1.Ok? ==> out.1.value.size == |out.1.value.results|
    ensures out.1.Ok? ==> forall p :: p in out.1.value.results <==> p in s.pages && p.title == title
  {
    var t := s.(log := s.log + [SearchCall(title)]);
    if Fails(s) then (t, Err(RequestError))
    else
      var found := Titled(s.pages, title);
      (t, Ok(SearchResult(|found|, found)))
  }

  /**
   * Create: the store names the page with the next counter value, sets its
   * version to 1 and appends it; it answers with the stored page.
   */
  function Create(s: Store, page: Page): (out: (Store, Result<Page>))
    ensures Grows(s, out.0) && out.0.log == s.log + [CreateCall(page)]
    ensures WellFormed(s) ==> WellFormed(out.0)
    ensures out.1.Ok? <==> !Fails(s)
    ensures out.1.Err? ==> out.0.pages == s.pages && out.0.nextId == s.nextId
    ensures out.1.Ok? ==> out.0.pages == s.pages + [out.1.value] && out.0.nextId == s.nextId + 1
    ensures out.1.Ok? ==> out.1.value == page.(id := Some(IdString(s.nextId)), version := Some(1))
    ensures out.1.Ok? && WellFormed(s) ==> forall p :: p in s.pages ==> p.id != out.1.value.id
  {
    var t := s.(log := s.log + [CreateCall(page)]);
    if Fails(s) then (t, Err(RequestError))
    else
      var created := page.(id := Some(IdString(s.nextId)), version := Some(1));
      FreshIdBelow(s.nextId);
      (t.(pages := s.pages + [created], nextId := s.nextId + 1), Ok(created))
  }

  /** The position of the first page with id `id`, if any. */
  function IndexOf(pages: seq<Page>, id: string): (r: Option<nat>)
    ensures r.Some? ==> r.value < |pages| && pages[r.value].id == Some(id)
    ensures r.Some? ==> forall j :: 0 <= j < r.value ==> pages[j].id != Some(id)
    ensures r.None? ==> forall j :: 0 <= j < |pages| ==> pages[j].id != Some(id)
  {
    if pages == [] then None
    else if pages[0].id == Some(id) then Some(0)
    else
      match IndexOf(pages[1..], id)
      case None => None
      case Some(i) => Some(i + 1)
  }

  /**
   * Modify: replace the stored page that has the same id, provided the new
   * version is the stored one plus 1. An unknown id answers 404, any other
   * version 409.
   */
  function Modify(s: Store, page: Page): (out: (Store, Result<Page>))
    ensures Grows(s, out.0) && out.0.log == s.log + [ModifyCall(page)] && out.0.nextId == s.nextId
    ensures WellFormed(s) ==> WellFormed(out.0)
    ensures out.1.Err? ==> out.0.pages == s.pages
    ensures out.1.Ok? ==> !Fails(s) && out.1.value == page
    ensures out.1.Ok? ==>
      exists i :: 0 <= i < |s.pages| && s.pages[i].id == page.id &&
        page.version == Some(Version(s.pages[i]) + 1) && out.0.pages == s.pages[i := page]
  {
    var t := s.(log := s.log + [ModifyCall(page)]);
    if Fails(s) then (t, Err(RequestError))
    else if page.id.None? then (t, Err(HttpStatus(404)))
    else
      match IndexOf(s.pages, page.id.value)
      case None => (t, Err(HttpStatus(404)))
      case Some(i) =>
        if page.version != Some(Version(s.pages[i]) + 1) then (t, Err(HttpStatus(409)))
        else (t.(pages := s.pages[i := page]), Ok(page))
  }

  // ---------------------------------------------------------------------------
  // The store as an object
  // ---------------------------------------------------------------------------

  /** The store the publisher holds a reference to; each method is one request. */
  class PageStore {
    var pages: seq<Page>
    var nextId: nat
    var log: seq<Call>
    const faults: set<nat>

    function Snapshot(): Store
      reads this
    {
      Store(pages, nextId, log, faults)
    }

    ghost predicate Valid()
      reads this
    {
      WellFormed(Snapshot())
    }

    /** An empty store in the environment `faults`. */
    constructor (faults: set<nat>)
      ensures Snapshot() == Store([], 0, [], faults) && Valid()
    {
      pages, nextId, log := [], 0, [];
      this.faults := faults;
    }

    /**
     * A store that already holds `pages`, and names its next page with
     * `nextId`, in the environment `faults`.
     */
    constructor Populated(pages: seq<Page>, nextId: nat, faults: set<nat>)
      requires WellFormed(Store(pages, nextId, [], faults))
      ensures Snapshot() == Store(pages, nextId, [], faults) && Valid()
    {
      this.pages, this.nextId, log := pages, nextId, [];
      this.faults := faults;
    }

    method SearchPageByTitle(title: string) returns (r: Result<SearchResult>)
      modifies this
      ensures (Snapshot(), r) == Search(old(Snapshot()), title)
    {
      var failed := |log| in faults;
      log := log + [SearchCall(title)];
      if failed {
        return Err(RequestError);
      }
      var found: seq<Page> := [];
      var i := 0;
      while i < |pages|
        invariant 0 <= i <= |pages|
        invariant found == Titled(pages[..i], title)
      {
        assert pages[..i + 1][..i] == pages[..i];
        if pages[i].title == title {
          found := found + [pages[i]];
        }
        i := i + 1;
      }
      assert pages[..i] == pages;
      return Ok(SearchResult(|found|, found));
    }

    method CreatePage(page: Page) returns (r: Result<Page>)
      modifies this
      ensures (Snapshot(), r) == Create(old(Snapshot()), page)
    {
      var failed := |log| in faults;
      log := log + [CreateCall(page)];
      if failed {
        return Err(RequestError);
      }
      var created := page.(id := Some(IdString(nextId)), version := Some(1));
      pages := pages + [created];
      nextId := nextId + 1;
      return Ok(created);
    }

    method ModifyPage(page: Page) returns (r: Result<Page>)
      modifies this
      ensures (Snapshot(), r) == Modify(old(Snapshot()), page)
    {
      var failed := |log| in faults;
      log := log + [ModifyCall(page)];
      if failed {
        return Err(RequestError);
      }
      if page.id.None? {
        return Err(HttpStatus(404));
      }
      var i := 0;
      while i < |pages| && pages[i].id != page.id
        invariant 0 <= i <= |pages|
        invariant forall j :: 0 <= j < i ==> pages[j].id != page.id
      {
        i := i + 1;
      }
      if i == |pages| {
        return Err(HttpStatus(404));
      }
      if page.version != Some(Version(pages[i]) + 1) {
        return Err(HttpStatus(409));
      }
      pages := pages[i := page];
      return Ok(page);
    }
  }
}
