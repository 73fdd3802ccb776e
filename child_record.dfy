/** What renderChild builds for one page: the record, and every piece of it
    (system label override, access marker, icons, child count, path, optional fields)
    as a function of the page and the render settings. The imperative renderChild in
    module RenderJSON is proved to return RecordOf. */
module ChildRecordSpec {
  import opened PageModel

  /** One rendered page. `labelText` is the record's 'label' entry and `pageType` its
      'type' entry; the three optional entries are None where the source leaves the
      key out. */
  datatype ChildRecord = ChildRecord(
    id: int,
    labelText: string,
    status: int,
    numChildren: nat,
    path: string,
    template: string,
    actions: seq<Action>,
    addClass: Option<string>,
    pageType: Option<string>,
    note: Option<string>)

  /** Untranslated defaults: a system label equal to one of these means that no
      language pack overrides it, and the page's own label is used instead. */
  const Sentinels: seq<string> := ["Trash", "Admin", "404 Page Not Found"]

  /** Prefix of the trash note (the HTML entity for '<' followed by a space). */
  const NotePrefix: string := "&lt; "

  /** PHP truthiness of a string: only "" and "0" are false. */
  predicate Falsy(str: string)
  {
    str == "" || str == "0"
  }

  predicate IsSystem(s: Settings, id: int)
  {
    id in SystemIDs(s.ids)
  }

  /** The label chosen by id for a system page, before the sentinel test. */
  function RawSystemLabel(s: Settings, p: PageInfo): string
  {
    if !IsSystem(s, p.id) then ""
    else if p.id == s.ids.notFound then s.labels.notFound
    else if p.id == s.ids.adminRoot then s.labels.admin
    else if p.id == s.ids.trash && "trash" in s.labels.actionLabels then s.labels.actionLabels["trash"]
    else ""
  }

  /** The override after a sentinel default has been discarded. */
  function SystemLabel(s: Settings, p: PageInfo): string
  {
    var l := RawSystemLabel(s, p);
    if l in Sentinels then "" else l
  }

  /** The label before icons: the override when it is truthy, otherwise getPageLabel. */
  function BaseLabel(s: Settings, p: PageInfo): string
  {
    var l := SystemLabel(s, p);
    if Falsy(l) then p.pageLabel else l
  }

  /** Where guest access begins (AccessOn) or ends (AccessOff) in the tree. */
  datatype Marker = AccessOn | AccessOff

  /** The access marker of a page. Only a page that is its own access parent and has a
      parent is marked; a template that is missing counts as not granting guest. */
  function AccessMarker(p: PageInfo): Option<Marker>
  {
    if p.ownsAccess && p.parentId != 0 then
      if p.access == Some(true) then
        if p.parentAccess == Some(false) && !p.inTrash then Some(AccessOn) else None
      else if p.parentAccess == Some(true) then Some(AccessOff)
      else None
    else None
  }

  function MarkerClass(m: Marker): string
  {
    match m
    case AccessOn => " PageListAccessOn"
    case AccessOff => " PageListAccessOff"
  }

  function MarkerIcon(m: Marker): string
  {
    match m
    case AccessOn => "key fa-flip-horizontal"
    case AccessOff => "key"
  }

  /** The class string renderChild accumulates. */
  function ClassString(p: PageInfo): string
  {
    match AccessMarker(p)
    case None => ""
    case Some(m) => MarkerClass(m)
  }

  function AccessIcons(p: PageInfo): seq<string>
  {
    match AccessMarker(p)
    case None => []
    case Some(m) => [MarkerIcon(m)]
  }

  function StatusIcons(st: Status): seq<string>
  {
    (if st.temp then ["bolt"] else []) +
    (if st.locked then ["lock"] else []) +
    (if st.draft then ["paperclip"] else [])
  }

  /** The icon list: the trash page's one fixed icon replaces every other icon. */
  function Icons(s: Settings, p: PageInfo): seq<string>
  {
    if p.id == s.ids.trash then ["trash-o"] else AccessIcons(p) + StatusIcons(p.status)
  }

  function IconTag(icon: string): string
  {
    "<i class='PageListStatusIcon fa fa-fw fa-" + icon + "'></i>"
  }

  /** The icon tags of a list, one per entry, in list order. */
  function Markup(icons: seq<string>): string
  {
    if |icons| == 0 then "" else Markup(icons[..|icons| - 1]) + IconTag(icons[|icons| - 1])
  }

  function Label(s: Settings, p: PageInfo): string
  {
    BaseLabel(s, p) + Markup(Icons(s, p))
  }

  /** The number of true entries, i.e. of listable children. */
  function CountListable(flags: seq<bool>): (n: nat)
    ensures n <= |flags|
    ensures n == |flags| <==> forall i :: 0 <= i < |flags| ==> flags[i]
    ensures n == 0 <==> forall i :: 0 <= i < |flags| ==> !flags[i]
  {
    if |flags| == 0 then 0
    else CountListable(flags[..|flags| - 1]) + (if flags[|flags| - 1] then 1 else 0)
  }

  /** numChildren of the record. The trash is recounted from its listable children
      (include=all) for a non-superuser when its raw count is positive. */
  function ChildCount(s: Settings, p: PageInfo): nat
  {
    if p.id == s.ids.trash then
      if p.numChildrenAll > 0 && !s.superuser then CountListable(p.childrenListable)
      else p.numChildrenAll
    else p.numChildrenListed
  }

  /** PHP rtrim(str, '/'): every trailing slash is removed. */
  function RTrimSlashes(str: string): (r: string)
    ensures |r| <= |str| && r == str[..|r|]
    ensures |r| == 0 || r[|r| - 1] != '/'
    ensures forall i :: |r| <= i < |str| ==> str[i] == '/'
  {
    if |str| > 0 && str[|str| - 1] == '/' then RTrimSlashes(str[..|str| - 1]) else str
  }

  /** Characters PHP's trim() removes by default. */
  predicate IsBlank(c: char)
  {
    c == ' ' || c == '\t' || c == '\n' || c == '\r' || c == '\0' || c == '\U{000B}'
  }

  function TrimLeft(str: string): string
  {
    if |str| > 0 && IsBlank(str[0]) then TrimLeft(str[1..]) else str
  }

  function TrimRight(str: string): string
  {
    if |str| > 0 && IsBlank(str[|str| - 1]) then TrimRight(str[..|str| - 1]) else str
  }

  /** PHP trim(str). */
  function Trim(str: string): string
  {
    TrimRight(TrimLeft(str))
  }

  /** The record's path: kept whole when the template wants trailing slashes or the
      page is the root (id 1), otherwise with all trailing slashes removed. */
  function RecordPath(p: PageInfo): string
  {
    if p.slashUrls || p.id == 1 then p.path else RTrimSlashes(p.path)
  }

  function Note(s: Settings, p: PageInfo): string
  {
    if p.id == s.ids.trash && s.superuser then NotePrefix + s.labels.trashOpen else ""
  }

  function TypeString(s: Settings, p: PageInfo): string
  {
    if IsSystem(s, p.id) then "System" else ""
  }

  /** An optional entry is present when its string is truthy. */
  function Present(str: string): Option<string>
  {
    if Falsy(str) then None else Some(str)
  }

  /** The record renderChild returns for page `p`. */
  function RecordOf(s: Settings, p: PageInfo): ChildRecord
  {
    ChildRecord(
      p.id,
      Label(s, p),
      p.status.raw,
      ChildCount(s, p),
      RecordPath(p),
      p.templateName,
      p.actions,
      if Falsy(ClassString(p)) then None else Some(Trim(ClassString(p))),
      Present(TypeString(s, p)),
      Present(Note(s, p)))
  }

  // ---------------------------------------------------------------------------
  // Lemmas

  /** The recount is the multiplicity of `true` among the children's listable flags. */
  lemma {:induction false} CountListableIsMultiplicity(flags: seq<bool>)
    ensures CountListable(flags) == multiset(flags)[true]
  {
    if |flags| > 0 {
      var init := flags[..|flags| - 1];
      CountListableIsMultiplicity(init);
      assert flags == init + [flags[|flags| - 1]];
    }
  }

  /** One more icon of the list adds its tag at the end. */
  lemma MarkupPrefix(icons: seq<string>, n: nat)
    requires n < |icons|
    ensures forall base: string {:trigger base + Markup(icons[..n + 1])} ::
      base + Markup(icons[..n + 1]) == base + Markup(icons[..n]) + IconTag(icons[n])
  {
    assert icons[..n + 1][..n] == icons[..n];
  }

  /** Tags of a concatenation are the concatenation of the tags. */
  lemma {:induction false} MarkupAppend(a: seq<string>, b: seq<string>)
    ensures Markup(a + b) == Markup(a) + Markup(b)
  {
    if |b| == 0 {
      assert a + b == a;
    } else {
      var b', x := b[..|b| - 1], b[|b| - 1];
      assert (a + b)[..|a + b| - 1] == a + b' && (a + b)[|a + b| - 1] == x;
      calc {
        Markup(a + b);
        Markup(a + b') + IconTag(x);
        { MarkupAppend(a, b'); }
        (Markup(a) + Markup(b')) + IconTag(x);
        Markup(a) + (Markup(b') + IconTag(x));
        Markup(a) + Markup(b);
      }
    }
  }

  /** The trash page shows exactly one icon, the trash icon, whatever its status
      flags and access marker; its note is present iff the caller is a superuser. */
  lemma TrashRecord(s: Settings, p: PageInfo)
    requires p.id == s.ids.trash
    ensures Icons(s, p) == ["trash-o"]
    ensures RecordOf(s, p).labelText == BaseLabel(s, p) + IconTag("trash-o")
    ensures RecordOf(s, p).note.Some? <==> s.superuser
    ensures s.superuser ==> RecordOf(s, p).note == Some(NotePrefix + s.labels.trashOpen)
  {
    MarkupOne("trash-o");
  }

  /** Any other page: an optional key icon, then bolt, lock and paperclip for the
      temporary, locked and draft flags, each tag appended to the base label in
      that order. */
  lemma OtherPageIcons(s: Settings, p: PageInfo)
    requires p.id != s.ids.trash
    ensures Icons(s, p) == AccessIcons(p) + StatusIcons(p.status)
    ensures RecordOf(s, p).labelText ==
      BaseLabel(s, p) + Markup(AccessIcons(p)) + StatusMarkup(p.status)
  {
    MarkupAppend(AccessIcons(p), StatusIcons(p.status));
    StatusIconTags(p.status);
  }

  /** The tags of the status icons: bolt, lock, paperclip, each only when its flag is set. */
  function StatusMarkup(st: Status): string
  {
    (if st.temp then IconTag("bolt") else "")
    + (if st.locked then IconTag("lock") else "")
    + (if st.draft then IconTag("paperclip") else "")
  }

  lemma StatusIconTags(st: Status)
    ensures Markup(StatusIcons(st)) == StatusMarkup(st)
  {
    var t: seq<string> := if st.temp then ["bolt"] else [];
    var l: seq<string> := if st.locked then ["lock"] else [];
    var d: seq<string> := if st.draft then ["paperclip"] else [];
    MarkupOne("bolt");
    MarkupOne("lock");
    MarkupOne("paperclip");
    assert Markup(t) == (if st.temp then IconTag("bolt") else "");
    assert Markup(l) == (if st.locked then IconTag("lock") else "");
    assert Markup(d) == (if st.draft then IconTag("paperclip") else "");
    MarkupAppend(t + l, d);
    MarkupAppend(t, l);
  }

  lemma MarkupOne(icon: string)
    ensures Markup([icon]) == IconTag(icon)
  {
    assert [icon][..0] == [];
  }

  /** Where the access markers are set. */
  lemma AccessMarkers(p: PageInfo)
    ensures AccessMarker(p).Some? ==> p.ownsAccess && p.parentId != 0
    ensures AccessMarker(p) == Some(AccessOn) <==>
      p.ownsAccess && p.parentId != 0 && p.access == Some(true)
      && p.parentAccess == Some(false) && !p.inTrash
    ensures AccessMarker(p) == Some(AccessOff) <==>
      p.ownsAccess && p.parentId != 0 && p.access != Some(true) && p.parentAccess == Some(true)
  {
  }

  /** addClass is present iff a marker is set, and then it is the marker's class name
      without the leading space; a key icon is listed iff a marker is set. */
  lemma AddClassFollowsMarker(s: Settings, p: PageInfo)
    ensures RecordOf(s, p).addClass.Some? <==> AccessMarker(p).Some?
    ensures AccessMarker(p) == Some(AccessOn) ==> RecordOf(s, p).addClass == Some("PageListAccessOn")
    ensures AccessMarker(p) == Some(AccessOff) ==> RecordOf(s, p).addClass == Some("PageListAccessOff")
  {
    if AccessMarker(p).Some? {
      MarkerClassTrimmed(AccessMarker(p).value);
    }
  }

  /** trim() drops the leading space of a marker's class name. */
  lemma MarkerClassTrimmed(m: Marker)
    ensures !Falsy(MarkerClass(m))
    ensures Trim(MarkerClass(m)) == MarkerClass(m)[1..]
  {
    assert " PageListAccessOn"[1..] == "PageListAccessOn";
    assert " PageListAccessOff"[1..] == "PageListAccessOff";
  }

  /** Apart from the trash, a page shows a key icon first iff one of the markers is set. */
  lemma KeyIconFollowsMarker(s: Settings, p: PageInfo)
    requires p.id != s.ids.trash
    ensures AccessMarker(p).Some? <==> |Icons(s, p)| > 0 && Icons(s, p)[0] in {"key", "key fa-flip-horizontal"}
  {
  }

  /** numChildren of the trash: for a non-superuser with a positive raw count, the
      number of its listable children, so at most the number of those children; for
      a superuser the raw count. Other pages report numChildren(1). */
  lemma TrashChildCount(s: Settings, p: PageInfo)
    ensures p.id == s.ids.trash && !s.superuser && p.numChildrenAll > 0 ==>
      RecordOf(s, p).numChildren == multiset(p.childrenListable)[true]
      && RecordOf(s, p).numChildren <= |p.childrenListable|
    ensures p.id == s.ids.trash && s.superuser ==> RecordOf(s, p).numChildren == p.numChildrenAll
    ensures p.id != s.ids.trash ==> RecordOf(s, p).numChildren == p.numChildrenListed
  {
    CountListableIsMultiplicity(p.childrenListable);
  }

  /** The note is present only on the trash page and only for a superuser. */
  lemma NoteOnlyOnTrash(s: Settings, p: PageInfo)
    ensures RecordOf(s, p).note.Some? <==> p.id == s.ids.trash && s.superuser
  {
  }

  /** A sentinel default (or any falsy override) falls back to getPageLabel; any other
      override of a system page wins; every other page uses getPageLabel. */
  lemma SentinelLabel(s: Settings, p: PageInfo)
    ensures RawSystemLabel(s, p) in Sentinels || Falsy(RawSystemLabel(s, p)) ==>
      BaseLabel(s, p) == p.pageLabel
    ensures RawSystemLabel(s, p) !in Sentinels && !Falsy(RawSystemLabel(s, p)) ==>
      BaseLabel(s, p) == RawSystemLabel(s, p) && IsSystem(s, p.id)
    ensures !IsSystem(s, p.id) ==> BaseLabel(s, p) == p.pageLabel
  {
  }

  /** The label is never empty when the page's own label is not. */
  lemma LabelNotEmpty(s: Settings, p: PageInfo)
    requires p.pageLabel != ""
    ensures RecordOf(s, p).labelText != ""
  {
    assert |RecordOf(s, p).labelText| >= |BaseLabel(s, p)|;
  }

  /** type is 'System' exactly for the configured system ids. */
  lemma TypeMarksSystemPages(s: Settings, p: PageInfo)
    ensures RecordOf(s, p).pageType == (if p.id in {s.ids.notFound, s.ids.adminRoot, s.ids.trash, s.ids.login}
                                        then Some("System") else None)
  {
  }

  /** The path keeps no trailing slash unless slashUrls is set or the page is the root;
      what was removed consists of slashes only. */
  lemma PathTrailingSlash(p: PageInfo)
    ensures var r := RecordPath(p);
      r == p.path[..|r|] && forall i :: |r| <= i < |p.path| ==> p.path[i] == '/'
    ensures !p.slashUrls && p.id != 1 ==>
      var r := RecordPath(p); |r| == 0 || r[|r| - 1] != '/'
    ensures p.slashUrls || p.id == 1 ==> RecordPath(p) == p.path
  {
  }
}
