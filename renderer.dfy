/** The renderer object: its configuration, the memoised allowTrash decision, and the
    three operations renderChild, render and allowTrash, each proved against the
    specification functions of ChildRecordSpec and ListPlacement. */
module RenderJSON {
  import opened PageModel
  import opened ChildRecordSpec
  import opened ListPlacement

  /** The structured payload render() returns before it is JSON-encoded. */
  datatype Payload = Payload(page: ChildRecord, children: seq<ChildRecord>, start: int, limit: int)

  const PageDelete: string := "page-delete"
  const PageEditTrashCreated: string := "page-edit-trash-created"

  /** allowTrash() as one condition: a superuser, page-delete globally or at some
      template, or page-edit-trash-created (when that permission is installed)
      globally or at some template. */
  predicate TrashAllowed(u: User, installed: set<string>)
  {
    || u.isSuperuser
    || PageDelete in u.global
    || PageDelete in u.atTemplate
    || (PageEditTrashCreated in installed
        && (PageEditTrashCreated in u.global || PageEditTrashCreated in u.atTemplate))
  }

  class Renderer {
    const config: SystemIds
    const systemIDs: seq<int>
    const user: User
    const superuser: bool
    /** The installed permission names (what permissions->has consults). */
    const permissions: set<string>
    const labels: Labels
    /** The page whose children are listed, and the window of its children. */
    const page: Page
    const children: seq<Page>
    const start: int
    const limit: int
    /** What pages->get(trashPageID) returns; None stands for the NullPage (id 0). */
    const trashLookup: Option<Page>
    /** The memoised answer of allowTrash(); None until the first call. */
    var allowTrashCache: Option<bool>

    ghost predicate Valid()
      reads this
    {
      && systemIDs == SystemIDs(config)
      && superuser == user.isSuperuser
      && (trashLookup.Some? ==> trashLookup.value.info.id == config.trash)
      && (allowTrashCache.Some? ==> allowTrashCache.value == TrashAllowed(user, permissions))
    }

    /** The settings every specification function is stated in. */
    function Context(): Settings
    {
      Settings(config, superuser, labels)
    }

    /** The pages whose output-formatting flag render() may touch. */
    ghost function Footprint(): seq<Page>
    {
      [page] + children + (if trashLookup.Some? then [trashLookup.value] else [])
    }

    constructor (config: SystemIds, user: User, permissions: set<string>, labels: Labels,
                 page: Page, children: seq<Page>, start: int, limit: int, trashLookup: Option<Page>)
      requires trashLookup.Some? ==> trashLookup.value.info.id == config.trash
      ensures Valid()
      ensures this.config == config && this.user == user && this.permissions == permissions
      ensures this.labels == labels && this.page == page && this.children == children
      ensures this.start == start && this.limit == limit && this.trashLookup == trashLookup
      ensures this.superuser == user.isSuperuser
      ensures allowTrashCache == None
    {
      this.config := config;
      this.systemIDs := SystemIDs(config);
      this.user := user;
      this.superuser := user.isSuperuser;
      this.permissions := permissions;
      this.labels := labels;
      this.page := page;
      this.children := children;
      this.start := start;
      this.limit := limit;
      this.trashLookup := trashLookup;
      this.allowTrashCache := None;
    }

    /** Are we allowed to display the trash? The first call decides and stores the
        answer; every later call returns the stored answer. */
    method AllowTrash() returns (allowed: bool)
      requires Valid()
      modifies this`allowTrashCache
      ensures Valid()
      ensures allowed == TrashAllowed(user, permissions)
      ensures allowTrashCache == Some(allowed)
      ensures old(allowTrashCache).Some? ==> allowTrashCache == old(allowTrashCache)
    {
      if allowTrashCache.Some? {
        return allowTrashCache.value;
      }
      var petc: Option<string> := if PageEditTrashCreated in permissions then Some(PageEditTrashCreated) else None;
      if user.isSuperuser {
        allowed := true;
      } else if PageDelete in user.global {
        allowed := true;
      } else if petc.Some? && petc.value in user.global {
        allowed := true;
      } else if PageDelete in user.atTemplate {
        allowed := true;
      } else if petc.Some? && petc.value in user.atTemplate {
        allowed := true;
      } else {
        allowed := false;
      }
      allowTrashCache := Some(allowed);
    }

    /** The 'System' type and the label override of a system page, with a sentinel
        default discarded. */
    method SystemOverride(info: PageInfo) returns (text: string, kind: string)
      requires Valid()
      ensures text == SystemLabel(Context(), info)
      ensures kind == TypeString(Context(), info)
    {
      text, kind := "", "";
      if info.id in systemIDs {
        kind := "System";
        if info.id == config.notFound {
          text := labels.notFound;
        } else if info.id == config.adminRoot {
          text := labels.admin;
        } else if info.id == config.trash && "trash" in labels.actionLabels {
          text := labels.actionLabels["trash"];
        }
        // a default that no language pack overrides gives way to the page's own label
        if text in Sentinels {
          text := "";
        }
      }
    }

    /** The class and key icon that mark where guest access begins or ends. */
    method AccessClass(info: PageInfo) returns (cls: string, icons: seq<string>)
      ensures cls == ClassString(info) && icons == AccessIcons(info)
    {
      cls, icons := "", [];
      if info.ownsAccess && info.parentId != 0 {
        if info.access == Some(true) {
          if info.parentAccess == Some(false) && !info.inTrash {
            cls := cls + " PageListAccessOn";
            icons := icons + ["key fa-flip-horizontal"];
          }
        } else {
          if info.parentAccess == Some(true) {
            cls := cls + " PageListAccessOff";
            icons := icons + ["key"];
          }
        }
      }
    }

    /** Counts the listable ones among the trash's children (include=all). */
    method CountListableChildren(flags: seq<bool>) returns (count: nat)
      ensures count == CountListable(flags)
    {
      count := 0;
      var k := 0;
      while k < |flags|
        invariant 0 <= k <= |flags|
        invariant count == CountListable(flags[..k])
      {
        assert flags[..k + 1][..k] == flags[..k];
        if flags[k] {
          count := count + 1;
        }
        k := k + 1;
      }
      assert flags[..k] == flags;
    }

    /** Appends one icon tag per icon, in order. */
    method AppendIconTags(base: string, icons: seq<string>) returns (text: string)
      ensures text == base + Markup(icons)
    {
      text := base;
      var n := 0;
      while n < |icons|
        invariant 0 <= n <= |icons|
        invariant text == base + Markup(icons[..n])
      {
        MarkupPrefix(icons, n);
        text := text + IconTag(icons[n]);
        n := n + 1;
      }
      assert icons[..n] == icons;
    }

    /** The trash page gets the trash icon, the open-trash note for a superuser and,
        for anyone else, a count of only the children they may list; any other page
        gets its status icons after the access icon and its listed-children count. */
    method IconsAndCount(info: PageInfo, access: seq<string>) returns (icons: seq<string>, numChildren: nat, note: string)
      requires Valid()
      requires access == AccessIcons(info)
      ensures icons == Icons(Context(), info)
      ensures numChildren == ChildCount(Context(), info)
      ensures note == Note(Context(), info)
    {
      icons, note := access, "";
      if info.id == config.trash {
        if superuser {
          note := NotePrefix + labels.trashOpen;
        }
        icons := ["trash-o"];
        numChildren := info.numChildrenAll;
        if numChildren > 0 && !superuser {
          numChildren := CountListableChildren(info.childrenListable);
        }
      } else {
        if info.status.temp {
          icons := icons + ["bolt"];
        }
        if info.status.locked {
          icons := icons + ["lock"];
        }
        if info.status.draft {
          icons := icons + ["paperclip"];
        }
        numChildren := info.numChildrenListed;
      }
    }

    /** Builds the record of one page. Output formatting is switched on while the
        record is built and put back to its value on entry. */
    method RenderChild(p: Page) returns (r: ChildRecord)
      requires Valid()
      modifies p
      ensures r == RecordOf(Context(), p.info)
      ensures p.outputFormatting == old(p.outputFormatting)
    {
      var outputFormatting := p.outputFormatting;
      p.outputFormatting := true;
      var info := p.info;

      var text, kind := SystemOverride(info);
      var cls, icons := AccessClass(info);
      var numChildren, note;
      icons, numChildren, note := IconsAndCount(info, icons);

      if Falsy(text) {
        text := info.pageLabel;
      }
      assert text == BaseLabel(Context(), info);
      text := AppendIconTags(text, icons);

      var path := if info.slashUrls || info.id == 1 then info.path else RTrimSlashes(info.path);
      r := ChildRecord(info.id, text, info.status.raw, numChildren, path, info.templateName, info.actions,
                       if Falsy(cls) then None else Some(Trim(cls)),
                       if Falsy(kind) then None else Some(kind),
                       if Falsy(note) then None else Some(note));

      p.outputFormatting := outputFormatting;
    }

    /** `$children[] = $this->renderChild($p)`: appends the record of `p` to the
        records of the pages `done`. */
    method AppendRecord(ghost done: seq<Page>, rs0: seq<ChildRecord>, p: Page) returns (rs: seq<ChildRecord>)
      requires Valid()
      requires RecordsOf(Context(), done, rs0)
      modifies p
      ensures RecordsOf(Context(), done + [p], rs)
      ensures p.outputFormatting == old(p.outputFormatting)
    {
      var child := RenderChild(p);
      RecordsOfAppend(Context(), done, rs0, p, child);
      rs := rs0 + [child];
    }

    /** One step of the pass over the child window, for its `i`-th page: renders the
        page now, defers it, remembers it as the 404 page, or drops it. */
    method Visit(i: nat, kids0: seq<ChildRecord>, extra0: Extra, seen0: Option<Page>)
      returns (kids: seq<ChildRecord>, extra: Extra, page404: Option<Page>)
      requires Valid()
      requires i < |children|
      requires RecordsOf(Context(), Kept(Context(), children[..i]), kids0)
      requires extra0 == DeferredOf(Context(), children[..i])
      requires seen0 == Last404(Context(), children[..i])
      modifies children[i]
      ensures RecordsOf(Context(), Kept(Context(), children[..i + 1]), kids)
      ensures extra == DeferredOf(Context(), children[..i + 1])
      ensures page404 == Last404(Context(), children[..i + 1])
      ensures children[i].outputFormatting == old(children[i].outputFormatting)
    {
      ghost var S := Context();
      var p := children[i];
      ghost var before := children[..i];
      assert children[..i + 1] == before + [p];
      PassStep(S, before, p);
      kids, extra, page404 := kids0, extra0, seen0;
      // whether the page is rendered now, in window order
      var renderNow := false;
      if !superuser && !p.info.listable {
        // not visible to this user
      } else if p.info.id == config.notFound && !superuser {
        // the 404 page is shown only when it is editable
        page404 := Some(p);
        renderNow := p.info.editable;
      } else if p.info.id in systemIDs {
        if superuser {
          extra := Put(extra, p.info.id, p);
        }
      } else {
        renderNow := true;
      }
      assert renderNow <==> Dispose(S, p.info) == RenderedInPlace;
      if renderNow {
        kids := AppendRecord(Kept(S, before), kids, p);
      } else {
        assert Kept(S, before + [p]) == Kept(S, before);
      }
    }

    /** The pass over the child window: renders the pages that stay in place, collects
        the deferred ones by id and remembers the 404 page a regular user may list. */
    method MainPass() returns (kids: seq<ChildRecord>, extra: Extra, page404: Option<Page>)
      requires Valid()
      modifies Footprint()
      ensures RecordsOf(Context(), Kept(Context(), children), kids)
      ensures extra == DeferredOf(Context(), children)
      ensures page404 == Last404(Context(), children)
      ensures forall q: Page :: old(allocated(q)) ==> q.outputFormatting == old(q.outputFormatting)
    {
      kids, extra, page404 := [], NoExtra, None;
      var i := 0;
      while i < |children|
        invariant 0 <= i <= |children|
        invariant RecordsOf(Context(), Kept(Context(), children[..i]), kids)
        invariant extra == DeferredOf(Context(), children[..i])
        invariant page404 == Last404(Context(), children[..i])
        invariant forall q: Page :: old(allocated(q)) ==> q.outputFormatting == old(q.outputFormatting)
      {
        assert Footprint()[1 + i] == children[i];
        kids, extra, page404 := Visit(i, kids, extra, page404);
        i := i + 1;
      }
      assert children[..i] == children;
    }

    /** The records of `ps`, in order (the foreach over the deferred pages). */
    method RenderPages(ps: seq<Page>) returns (rs: seq<ChildRecord>)
      requires Valid()
      requires forall q :: q in ps ==> q in Footprint()
      modifies Footprint()
      ensures RecordsOf(Context(), ps, rs)
      ensures forall q: Page :: old(allocated(q)) ==> q.outputFormatting == old(q.outputFormatting)
    {
      rs := [];
      var j := 0;
      while j < |ps|
        invariant 0 <= j <= |ps|
        invariant RecordsOf(Context(), ps[..j], rs)
        invariant forall q: Page :: old(allocated(q)) ==> q.outputFormatting == old(q.outputFormatting)
      {
        assert ps[..j + 1] == ps[..j] + [ps[j]];
        assert ps[j] in ps;
        rs := AppendRecord(ps[..j], rs, ps[j]);
        j := j + 1;
      }
      assert ps[..j] == ps;
    }

    /** The fallback after the pass: a regular user who saw the 404 page at the top
        level also gets the trash, when the page store finds it and it is listable. */
    method AddTrashFallback(extra0: Extra, page404: Option<Page>) returns (extra: Extra)
      requires Valid() && ExtraValid(extra0)
      ensures extra == WithFallback(Context(), extra0, page404, trashLookup)
    {
      extra := extra0;
      if !superuser && page404.Some? && page404.value.info.parentId == 1 && config.trash !in extra.pages {
        var pageTrash := trashLookup;
        if pageTrash.Some? && pageTrash.value.info.id != 0 && pageTrash.value.info.listable {
          extra := Put(extra, pageTrash.value.info.id, pageTrash.value);
        }
      }
    }

    lemma ChildrenInFootprint()
      ensures forall q :: q in children ==> q in Footprint()
    {
      forall q | q in children
        ensures q in Footprint()
      {
        var k :| 0 <= k < |children| && children[k] == q;
        assert Footprint()[1 + k] == q;
      }
    }

    /** The deferred pages are pages of the window or the trash lookup, so render may
        touch their output-formatting flags. */
    lemma DeferredInFootprint()
      ensures forall q :: q in Values(WithFallback(Context(), DeferredOf(Context(), children),
                                                   Last404(Context(), children), trashLookup)) ==>
        q in Footprint()
    {
      DeferredOrigin(Context(), children, trashLookup);
      ChildrenInFootprint();
      if trashLookup.Some? {
        assert Footprint()[1 + |children|] == trashLookup.value;
      }
    }

    /** The `children` list of the payload: the pages the pass kept, then the
        deferred pages in the order they were first deferred. */
    method RenderList() returns (kids: seq<ChildRecord>)
      requires Valid()
      modifies Footprint()
      ensures RecordsOf(Context(), Placement(Context(), children, trashLookup), kids)
      ensures forall q: Page :: old(allocated(q)) ==> q.outputFormatting == old(q.outputFormatting)
    {
      ghost var S := Context();
      var extra, page404;
      kids, extra, page404 := MainPass();
      extra := AddTrashFallback(extra, page404);
      var deferred := Values(extra);
      DeferredInFootprint();
      var tail := RenderPages(deferred);
      RecordsOfConcat(S, Kept(S, children), kids, deferred, tail);
      kids := kids + tail;
    }

    /** Renders the page and the window of its children. `children` holds the records
        of Placement: the pages kept by the pass over the window, then the deferred
        pages in the order they were first deferred. */
    method Render() returns (payload: Payload)
      requires Valid()
      modifies Footprint()
      ensures RecordsOf(Context(), Placement(Context(), children, trashLookup), payload.children)
      ensures payload.page == RecordOf(Context(), page.info)
      ensures payload.start == start && payload.limit == limit
      ensures forall q: Page :: old(allocated(q)) ==> q.outputFormatting == old(q.outputFormatting)
    {
      var kids := RenderList();
      assert Footprint()[0] == page;
      var self := RenderChild(page);
      payload := Payload(self, kids, start, limit);
    }
  }
}
