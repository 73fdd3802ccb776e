/** Which pages of the child window render() turns into records, and in what order:
    the pages rendered during the pass over the window, then the pages it deferred to
    the end of the list (system pages for a superuser, the trash for a regular user
    who saw a root-level 404 page). The imperative render in module RenderJSON is
    proved to return the records of Placement. */
module ListPlacement {
  import opened PageModel
  import opened ChildRecordSpec

  /** What the pass over the window does with one page. */
  datatype Disposition = Dropped | RenderedInPlace | DeferredToEnd

  /** The branches of the pass, in the source's order: the listable check comes first,
      then the 404 special case for a non-superuser, then the system-page test. */
  function Dispose(s: Settings, p: PageInfo): Disposition
  {
    if !s.superuser && !p.listable then Dropped
    else if p.id == s.ids.notFound && !s.superuser then
      if p.editable then RenderedInPlace else Dropped
    else if IsSystem(s, p.id) then
      if s.superuser then DeferredToEnd else Dropped
    else RenderedInPlace
  }

  /** The pages the pass renders at once, in window order. */
  function Kept(s: Settings, w: seq<Page>): seq<Page>
  {
    if |w| == 0 then []
    else
      var p := w[|w| - 1];
      Kept(s, w[..|w| - 1]) + (if Dispose(s, p.info) == RenderedInPlace then [p] else [])
  }

  /** The pages forced to the bottom of the list: an insertion-ordered map from page id
      to page, as a PHP array keyed by id. */
  datatype Extra = Extra(keys: seq<int>, pages: map<int, Page>)

  const NoExtra := Extra([], map[])

  ghost predicate ExtraValid(e: Extra)
  {
    && (forall i :: 0 <= i < |e.keys| ==> e.keys[i] in e.pages)
    && (forall k :: k in e.pages ==> k in e.keys)
    && (forall i, j :: 0 <= i < j < |e.keys| ==> e.keys[i] != e.keys[j])
  }

  /** `$extraPages[k] = p`: a new key goes last, an existing key keeps its place. */
  function Put(e: Extra, k: int, p: Page): (r: Extra)
    requires ExtraValid(e)
    ensures ExtraValid(r)
  {
    if k in e.pages then Extra(e.keys, e.pages[k := p]) else Extra(e.keys + [k], e.pages[k := p])
  }

  /** The pages in key order (what a foreach over the PHP array visits). */
  function Values(e: Extra): seq<Page>
    requires ExtraValid(e)
  {
    Lookup(e.pages, e.keys)
  }

  function Lookup(pages: map<int, Page>, keys: seq<int>): (r: seq<Page>)
    requires forall i :: 0 <= i < |keys| ==> keys[i] in pages
    ensures |r| == |keys|
    ensures forall i :: 0 <= i < |keys| ==> r[i] == pages[keys[i]]
  {
    if |keys| == 0 then [] else Lookup(pages, keys[..|keys| - 1]) + [pages[keys[|keys| - 1]]]
  }

  /** The deferred pages after the pass over `w`. */
  function DeferredOf(s: Settings, w: seq<Page>): (e: Extra)
    ensures ExtraValid(e)
    ensures !s.superuser ==> e == NoExtra
    ensures forall k :: k in e.pages ==>
      s.superuser && IsSystem(s, k) && e.pages[k] in w && e.pages[k].info.id == k
  {
    if |w| == 0 then NoExtra
    else
      var e := DeferredOf(s, w[..|w| - 1]);
      var p := w[|w| - 1];
      if Dispose(s, p.info) == DeferredToEnd then Put(e, p.info.id, p) else e
  }

  /** The pass remembers the not-found page when a non-superuser may list it. */
  predicate Seen404(s: Settings, p: PageInfo)
  {
    !s.superuser && p.listable && p.id == s.ids.notFound
  }

  /** `$page404` after the pass: the last such page of the window. */
  function Last404(s: Settings, w: seq<Page>): Option<Page>
  {
    if |w| == 0 then None
    else if Seen404(s, w[|w| - 1].info) then Some(w[|w| - 1])
    else Last404(s, w[..|w| - 1])
  }

  /** The condition under which render() adds the trash after the pass; `lookup` is
      what the page store returns for the trash id (None for the NullPage). */
  predicate FallbackApplies(s: Settings, e: Extra, page404: Option<Page>, lookup: Option<Page>)
  {
    && !s.superuser
    && page404.Some? && page404.value.info.parentId == 1
    && s.ids.trash !in e.pages
    && lookup.Some? && lookup.value.info.id != 0 && lookup.value.info.listable
  }

  function WithFallback(s: Settings, e: Extra, page404: Option<Page>, lookup: Option<Page>): (r: Extra)
    requires ExtraValid(e)
    ensures ExtraValid(r)
  {
    if FallbackApplies(s, e, page404, lookup) then Put(e, lookup.value.info.id, lookup.value) else e
  }

  /** The pages whose records make up `children`, in order. */
  function Placement(s: Settings, w: seq<Page>, lookup: Option<Page>): seq<Page>
  {
    Kept(s, w) + Values(WithFallback(s, DeferredOf(s, w), Last404(s, w), lookup))
  }

  /** One step of the pass: what appending page `p` to the window does to each result. */
  lemma PassStep(s: Settings, w: seq<Page>, p: Page)
    ensures Kept(s, w + [p]) == Kept(s, w) + (if Dispose(s, p.info) == RenderedInPlace then [p] else [])
    ensures DeferredOf(s, w + [p]) ==
      if Dispose(s, p.info) == DeferredToEnd then Put(DeferredOf(s, w), p.info.id, p) else DeferredOf(s, w)
    ensures Last404(s, w + [p]) == if Seen404(s, p.info) then Some(p) else Last404(s, w)
  {
    assert (w + [p])[..|w|] == w;
  }

  /** `rs` holds the record of each page of `ps`, in the same order. */
  predicate RecordsOf(s: Settings, ps: seq<Page>, rs: seq<ChildRecord>)
  {
    |rs| == |ps| && forall i :: 0 <= i < |ps| ==> rs[i] == RecordOf(s, ps[i].info)
  }

  lemma RecordsOfAppend(s: Settings, ps: seq<Page>, rs: seq<ChildRecord>, p: Page, r: ChildRecord)
    requires RecordsOf(s, ps, rs) && r == RecordOf(s, p.info)
    ensures RecordsOf(s, ps + [p], rs + [r])
  {
    forall i | 0 <= i < |ps| + 1
      ensures (rs + [r])[i] == RecordOf(s, (ps + [p])[i].info)
    {
      if i < |ps| {
        assert (rs + [r])[i] == rs[i] && (ps + [p])[i] == ps[i];
      }
    }
  }

  lemma RecordsOfConcat(s: Settings, a: seq<Page>, ra: seq<ChildRecord>, b: seq<Page>, rb: seq<ChildRecord>)
    requires RecordsOf(s, a, ra) && RecordsOf(s, b, rb)
    ensures RecordsOf(s, a + b, ra + rb)
  {
    forall i | 0 <= i < |a| + |b|
      ensures (ra + rb)[i] == RecordOf(s, (a + b)[i].info)
    {
      if i < |a| {
        assert (ra + rb)[i] == ra[i] && (a + b)[i] == a[i];
      } else {
        assert (ra + rb)[i] == rb[i - |a|] && (a + b)[i] == b[i - |a|];
      }
    }
  }

  /** Reference definitions: the window's ordinary and system pages, in window order. */
  function Ordinary(s: Settings, w: seq<Page>): (r: seq<Page>)
  {
    if |w| == 0 then []
    else Ordinary(s, w[..|w| - 1]) + (if IsSystem(s, w[|w| - 1].info.id) then [] else [w[|w| - 1]])
  }

  function SystemPages(s: Settings, w: seq<Page>): (r: seq<Page>)
  {
    if |w| == 0 then []
    else SystemPages(s, w[..|w| - 1]) + (if IsSystem(s, w[|w| - 1].info.id) then [w[|w| - 1]] else [])
  }

  /** The ordinary pages are the window's pages that are not system pages, and the
      system pages the ones that are. */
  lemma {:induction false} PartitionMembers(s: Settings, w: seq<Page>)
    ensures forall q :: q in Ordinary(s, w) ==> q in w && !IsSystem(s, q.info.id)
    ensures forall q :: q in SystemPages(s, w) ==> q in w && IsSystem(s, q.info.id)
  {
    if |w| > 0 {
      PartitionMembers(s, w[..|w| - 1]);
      assert w == w[..|w| - 1] + [w[|w| - 1]];
    }
  }

  /** Reference definition: the pages a regular user sees rendered in place, in window
      order, with each page as often as the window holds it. */
  predicate RegularVisible(s: Settings, p: PageInfo)
  {
    p.listable && (p.id == s.ids.notFound ==> p.editable) && (IsSystem(s, p.id) ==> p.id == s.ids.notFound)
  }

  function VisibleToRegular(s: Settings, w: seq<Page>): seq<Page>
  {
    if |w| == 0 then []
    else VisibleToRegular(s, w[..|w| - 1]) + (if RegularVisible(s, w[|w| - 1].info) then [w[|w| - 1]] else [])
  }

  /** A PageArray holds at most one page per id. */
  predicate DistinctIds(w: seq<Page>)
  {
    forall i, j :: 0 <= i < j < |w| ==> w[i].info.id != w[j].info.id
  }

  // ---------------------------------------------------------------------------
  // Lemmas

  /** A page is rendered by the pass iff it is in the window and its disposition says so. */
  lemma {:induction false} KeptMembers(s: Settings, w: seq<Page>, p: Page)
    ensures p in Kept(s, w) <==> p in w && Dispose(s, p.info) == RenderedInPlace
  {
    if |w| > 0 {
      var init := w[..|w| - 1];
      KeptMembers(s, init, p);
      assert w == init + [w[|w| - 1]];
    }
  }

  /** For a non-superuser the pass renders exactly the listable pages of the window that
      are not system pages, plus the 404 page when it is also editable. Admin root,
      trash and login pages are never rendered by the pass, unless one of them
      shares the not-found id. */
  lemma {:induction false} RegularUserKept(s: Settings, w: seq<Page>)
    requires !s.superuser
    ensures forall p :: p in Kept(s, w) <==>
      p in w && p.info.listable
      && (p.info.id == s.ids.notFound ==> p.info.editable)
      && (IsSystem(s, p.info.id) ==> p.info.id == s.ids.notFound)
    ensures forall p :: p in Kept(s, w) && p.info.id != s.ids.notFound ==>
      p.info.id != s.ids.adminRoot && p.info.id != s.ids.trash && p.info.id != s.ids.login
  {
    forall p: Page
      ensures p in Kept(s, w) <==>
        p in w && p.info.listable
        && (p.info.id == s.ids.notFound ==> p.info.editable)
        && (IsSystem(s, p.info.id) ==> p.info.id == s.ids.notFound)
    {
      KeptMembers(s, w, p);
    }
    forall p | p in Kept(s, w) && p.info.id != s.ids.notFound
      ensures p.info.id != s.ids.adminRoot && p.info.id != s.ids.trash && p.info.id != s.ids.login
    {
      KeptMembers(s, w, p);
    }
  }

  /** For a non-superuser the pass keeps the window's order and multiplicities: what it
      renders is the window filtered by RegularVisible, so the not-found page, when
      editable, stays at its place among its siblings. */
  lemma {:induction false} RegularUserKeptOrder(s: Settings, w: seq<Page>)
    requires !s.superuser
    ensures Kept(s, w) == VisibleToRegular(s, w)
  {
    if |w| > 0 {
      RegularUserKeptOrder(s, w[..|w| - 1]);
    }
  }

  /** `$page404` is a listable not-found page of the window, and there is one iff some
      page of the window is a listable not-found page (for a non-superuser). */
  lemma {:induction false} Last404Found(s: Settings, w: seq<Page>)
    ensures Last404(s, w).Some? ==> Last404(s, w).value in w && Seen404(s, Last404(s, w).value.info)
    ensures Last404(s, w).None? <==> forall i :: 0 <= i < |w| ==> !Seen404(s, w[i].info)
  {
    if |w| > 0 {
      var init := w[..|w| - 1];
      Last404Found(s, init);
      assert forall i :: 0 <= i < |init| ==> init[i] == w[i];
    }
  }

  /** For a non-superuser, `children` is the window filtered by RegularVisible, in window
      order, then the trash when a listable root-level 404 page was seen and the page
      store finds the trash with a nonzero id and it is listable; nothing else. So no page that is not listable reaches the list, and
      the one page that may come from outside the window is that trash page, last. */
  lemma {:induction false} RegularUserPlacement(s: Settings, w: seq<Page>, lookup: Option<Page>)
    requires !s.superuser
    ensures var fallback := Last404(s, w).Some? && Last404(s, w).value.info.parentId == 1
                            && lookup.Some? && lookup.value.info.id != 0 && lookup.value.info.listable;
      Placement(s, w, lookup) == VisibleToRegular(s, w) + (if fallback then [lookup.value] else [])
    ensures forall q :: q in Placement(s, w, lookup) ==> q.info.listable
    ensures forall q :: q in Placement(s, w, lookup) ==> q in w || Some(q) == lookup
  {
    RegularUserDeferred(s, w, lookup);
    RegularUserKeptOrder(s, w);
    var d := DeferredOf(s, w);
    assert d == NoExtra;
    var fallback := Last404(s, w).Some? && Last404(s, w).value.info.parentId == 1
                    && lookup.Some? && lookup.value.info.id != 0 && lookup.value.info.listable;
    assert FallbackApplies(s, d, Last404(s, w), lookup) == fallback;
    var tail := Values(WithFallback(s, d, Last404(s, w), lookup));
    assert tail == if fallback then [lookup.value] else [];
    assert Placement(s, w, lookup) == Kept(s, w) + tail;
    forall q | q in Placement(s, w, lookup)
      ensures q.info.listable && (q in w || Some(q) == lookup)
    {
      if q in Kept(s, w) {
        KeptMembers(s, w, q);
      } else {
        assert q in tail;
      }
    }
  }

  /** For a non-superuser nothing is deferred by the pass, so the deferred list is at
      most the trash page added by the fallback. */
  lemma RegularUserDeferred(s: Settings, w: seq<Page>, lookup: Option<Page>)
    requires !s.superuser
    ensures var e := WithFallback(s, DeferredOf(s, w), Last404(s, w), lookup);
      Values(e) == if FallbackApplies(s, DeferredOf(s, w), Last404(s, w), lookup) then [lookup.value] else []
  {
    var e := DeferredOf(s, w);
    assert e == NoExtra;
    if FallbackApplies(s, e, Last404(s, w), lookup) {
      ValuesPutNew(e, lookup.value.info.id, lookup.value);
    }
  }

  /** Every deferred page comes from the window, except the trash page that the
      fallback takes from the page store. */
  lemma DeferredOrigin(s: Settings, w: seq<Page>, lookup: Option<Page>)
    ensures forall q :: q in Values(WithFallback(s, DeferredOf(s, w), Last404(s, w), lookup)) ==>
      q in w || Some(q) == lookup
  {
    var d := DeferredOf(s, w);
    var e := WithFallback(s, d, Last404(s, w), lookup);
    forall q | q in Values(e)
      ensures q in w || Some(q) == lookup
    {
      var i :| 0 <= i < |Values(e)| && Values(e)[i] == q;
      var k := e.keys[i];
      assert e.pages[k] == q;
      if !FallbackApplies(s, d, Last404(s, w), lookup) || k != lookup.value.info.id {
        assert k in d.pages && d.pages[k] == q;
      }
    }
  }

  /** For a superuser the pass renders exactly the window's ordinary pages. */
  lemma {:induction false} SuperuserKept(s: Settings, w: seq<Page>)
    requires s.superuser
    ensures Kept(s, w) == Ordinary(s, w)
  {
    if |w| > 0 {
      SuperuserKept(s, w[..|w| - 1]);
    }
  }

  lemma ValuesPutNew(e: Extra, k: int, p: Page)
    requires ExtraValid(e) && k !in e.pages
    ensures Values(Put(e, k, p)) == Values(e) + [p]
  {
    var r := Put(e, k, p);
    assert r.keys[..|e.keys|] == e.keys;
    LookupUpdate(e.pages, e.keys, k, p);
  }

  /** Updating a key that is not listed leaves the lookup of the listed keys alone. */
  lemma {:induction false} LookupUpdate(pages: map<int, Page>, keys: seq<int>, k: int, p: Page)
    requires forall i :: 0 <= i < |keys| ==> keys[i] in pages && keys[i] != k
    ensures Lookup(pages[k := p], keys) == Lookup(pages, keys)
  {
    if |keys| > 0 {
      LookupUpdate(pages, keys[..|keys| - 1], k, p);
    }
  }

  /** For a superuser, when ids are distinct, the deferred pages are the window's
      system pages, each once, in the order the pass met them. */
  lemma {:induction false} SuperuserDeferred(s: Settings, w: seq<Page>)
    requires s.superuser && DistinctIds(w)
    ensures Values(DeferredOf(s, w)) == SystemPages(s, w)
  {
    if |w| > 0 {
      var init := w[..|w| - 1];
      var p := w[|w| - 1];
      assert DistinctIds(init);
      SuperuserDeferred(s, init);
      var e := DeferredOf(s, init);
      if IsSystem(s, p.info.id) {
        forall i | 0 <= i < |init|
          ensures init[i].info.id != p.info.id
        {
          assert init[i] == w[i];
        }
        assert p.info.id !in e.pages;
        ValuesPutNew(e, p.info.id, p);
      }
    }
  }

  lemma {:induction false} PartitionMultiset(s: Settings, w: seq<Page>)
    ensures multiset(Ordinary(s, w)) + multiset(SystemPages(s, w)) == multiset(w)
  {
    if |w| > 0 {
      var init, x := w[..|w| - 1], w[|w| - 1];
      PartitionMultiset(s, init);
      assert w == init + [x];
    }
  }

  /** For a superuser with a window of distinct ids, `children` is a stable partition
      of the window: every page is rendered exactly once, ordinary pages first in
      window order, then every system page in the order it was first met. */
  lemma {:induction false} SuperuserPlacement(s: Settings, w: seq<Page>, lookup: Option<Page>)
    requires s.superuser && DistinctIds(w)
    ensures Placement(s, w, lookup) == Ordinary(s, w) + SystemPages(s, w)
    ensures multiset(Placement(s, w, lookup)) == multiset(w)
    ensures var P := Placement(s, w, lookup);
      forall i, j ::
        (0 <= i < |P| && 0 <= j < |P| && IsSystem(s, P[i].info.id) && !IsSystem(s, P[j].info.id)) ==> j < i
  {
    SuperuserKept(s, w);
    SuperuserDeferred(s, w);
    PartitionMultiset(s, w);
    PartitionMembers(s, w);
    assert !FallbackApplies(s, DeferredOf(s, w), Last404(s, w), lookup);
    SystemPagesLast(s, Ordinary(s, w), SystemPages(s, w));
  }

  /** In a list of ordinary pages followed by system pages, every system page comes
      after every ordinary page. */
  lemma SystemPagesLast(s: Settings, o: seq<Page>, y: seq<Page>)
    requires forall q :: q in o ==> !IsSystem(s, q.info.id)
    requires forall q :: q in y ==> IsSystem(s, q.info.id)
    ensures forall i, j ::
      (0 <= i < |o + y| && 0 <= j < |o + y| && IsSystem(s, (o + y)[i].info.id) && !IsSystem(s, (o + y)[j].info.id)) ==> j < i
  {
    var P := o + y;
    forall k | 0 <= k < |P|
      ensures IsSystem(s, P[k].info.id) <==> k >= |o|
    {
      if k < |o| {
        assert P[k] == o[k] && o[k] in o;
      } else {
        assert P[k] == y[k - |o|] && y[k - |o|] in y;
      }
    }
  }


}
