# ProcessPageListRenderJSON, modelled in Dafny

ProcessWire's page list shows one level of the page tree. Its JSON renderer,
`ProcessPageListRenderJSON`, turns a page and a window of its children into a
payload: one record for the page, one record per child that the current user
may see, and the window's `start` and `limit`. This project models that renderer
and proves what it promises.

- **The renderer object** (`RenderJSON.Renderer`) keeps the source's state. It
  holds the configured system page ids (the `systemIDs` list of the
  constructor), the user and the installed permissions, and the memoised
  `allowTrash` answer as a mutable field.
- **`allowTrash`** is the decision chain over superuser, `page-delete` and
  `page-edit-trash-created`. The first call stores its answer in the cache
  field, and every later call returns the stored answer.
- **`renderChild`** is imperative, like the source. It switches output
  formatting on and puts it back afterwards. It builds the class, the icons and
  the label step by step, and recounts the trash's listable children in a loop.
  It is proved to return `RecordOf`, the record as a function of the page and
  the settings. The lemmas of `ChildRecordSpec` state that record's properties:
  - the sentinel labels;
  - where guest access starts or stops;
  - the trash icon;
  - the order of the status icons;
  - the trash child count;
  - path trimming;
  - the optional `addClass`, `type` and `note` entries.
- **`render`** works in three steps:
  1. one pass over the window;
  2. the trash fallback;
  3. a pass over the deferred pages (`$extraPages`, an insertion-ordered map
     keyed by page id).

  It is proved to return the records of `Placement`, in order. The lemmas of
  `ListPlacement` state what `Placement` is for a regular user and for a
  superuser.

Pages are objects (`PageModel.Page`). The output-formatting flag is their only
mutable field; `PageInfo` holds every answer the page API gives.

Files:
- `page_model.dfy` — module `PageModel`, the data model;
- `child_record.dfy` — module `ChildRecordSpec`, the record of one page;
- `placement.dfy` — module `ListPlacement`, which pages are listed and in what order;
- `renderer.dfy` — module `RenderJSON`, the renderer class and its methods.

The model follows the code on these points:
- `PageListAccessOn` marks a page whose own access template grants guest while
  its parent's template exists and does not (lines 86-91 of `ProcessPageListRenderJSON.php`).
- The listable check of the pass runs before the 404 special case, so a
  non-listable 404 page is dropped and is not remembered for the trash fallback.
- `rtrim($path, '/')` removes every trailing slash, not only one.
- The label can be empty. That happens only when `getPageLabel` is empty, no
  truthy system override applies and the page has no icons.
  `ChildRecordSpec.LabelNotEmpty` therefore assumes a non-empty `getPageLabel`.
- `$pageTrash->id` must be nonzero for the fallback, so a trash lookup that
  finds a page with id 0 adds nothing.

## Model

All source paths are in `wire/modules/Process/ProcessPageList/`.

| member | source | states |
|---|---|---|
| PageModel.SystemIDs | wire/modules/Process/ProcessPageList/ProcessPageListRenderJSON.php:19-24 | definition: the 404, admin root, trash and login ids, in that order |
| RenderJSON.TrashAllowed | wire/modules/Process/ProcessPageList/ProcessPageListRenderJSON.php:33-63 | definition: true iff the user is a superuser, has page-delete globally or at a template, or page-edit-trash-created is installed and the user has it globally or at a template |
| RenderJSON.Renderer.constructor | wire/modules/Process/ProcessPageList/ProcessPageListRenderJSON.php:15-25 | systemIDs is the list of the 404, admin root, trash and login ids, in that order; the allowTrash cache starts empty |
| RenderJSON.Renderer.AllowTrash | wire/modules/Process/ProcessPageList/ProcessPageListRenderJSON.php:33-63 | the answer is true iff the user is a superuser, has page-delete globally or at a template, or page-edit-trash-created is installed and the user has it globally or at a template; the cache then holds the answer, and a cache that was already set is unchanged |
| RenderJSON.Renderer.SystemOverride | wire/modules/Process/ProcessPageList/ProcessPageListRenderJSON.php:74-82 | for a system id the type is System and the label is the translated 404 or admin label or the trash action label, emptied when it equals a sentinel; other pages get neither |
| RenderJSON.Renderer.AccessClass | wire/modules/Process/ProcessPageList/ProcessPageListRenderJSON.php:84-99 | the class and the key icon are those of the page's access marker (on, off or none) |
| RenderJSON.Renderer.CountListableChildren | wire/modules/Process/ProcessPageList/ProcessPageListRenderJSON.php:108-112 | the loop counts exactly the listable children (CountListable) |
| RenderJSON.Renderer.IconsAndCount | wire/modules/Process/ProcessPageList/ProcessPageListRenderJSON.php:101-120 | icons, numChildren and note equal Icons, ChildCount and Note of the page: trash icon, recount and superuser note for the trash, otherwise status icons after the access icon and numChildren(1) |
| RenderJSON.Renderer.AppendIconTags | wire/modules/Process/ProcessPageList/ProcessPageListRenderJSON.php:124-126 | the label is the base label followed by one icon tag per icon, in list order |
| RenderJSON.Renderer.RenderChild | wire/modules/Process/ProcessPageList/ProcessPageListRenderJSON.php:65-147 | the record returned is RecordOf the page, and the page's output-formatting flag on return equals its value on entry |
| RenderJSON.Renderer.AppendRecord | wire/modules/Process/ProcessPageList/ProcessPageListRenderJSON.php:170-171 | appending renderChild's record keeps the list equal to the records of the pages seen so far, plus this one |
| RenderJSON.Renderer.Visit | wire/modules/Process/ProcessPageList/ProcessPageListRenderJSON.php:159-171 | one step of the pass: the rendered list, the deferred map and the remembered 404 page become those of the window extended by one page |
| RenderJSON.Renderer.MainPass | wire/modules/Process/ProcessPageList/ProcessPageListRenderJSON.php:158-172 | after the pass the list holds the records of Kept, the map is DeferredOf and the remembered page is Last404 of the window; no page's output-formatting flag differs from its value on entry |
| RenderJSON.Renderer.AddTrashFallback | wire/modules/Process/ProcessPageList/ProcessPageListRenderJSON.php:174-177 | the map after the fallback is WithFallback: the trash is added iff a regular user saw a 404 page under the root, the trash is not yet in the map, and the lookup has a nonzero id and is listable |
| RenderJSON.Renderer.RenderPages | wire/modules/Process/ProcessPageList/ProcessPageListRenderJSON.php:179-181 | the records of the deferred pages, in map order |
| RenderJSON.Renderer.RenderList | wire/modules/Process/ProcessPageList/ProcessPageListRenderJSON.php:151-181 | children holds exactly the records of Placement, in order |
| RenderJSON.Renderer.Render | wire/modules/Process/ProcessPageList/ProcessPageListRenderJSON.php:149-188 | the payload holds the records of Placement, the page's own record, start and limit; no page's output-formatting flag differs from its value on entry |
| ChildRecordSpec.Falsy | wire/modules/Process/ProcessPageList/ProcessPageListRenderJSON.php:122 | definition: PHP string truthiness; only "" and "0" are false (also used for lines 139-141) |
| ChildRecordSpec.IsSystem | wire/modules/Process/ProcessPageList/ProcessPageListRenderJSON.php:75 | definition: the id is one of the four system ids, as `in_array($page->id, $this->systemIDs)` tests (also line 165) |
| ChildRecordSpec.MarkerClass | wire/modules/Process/ProcessPageList/ProcessPageListRenderJSON.php:89-95 | definition: " PageListAccessOn" or " PageListAccessOff", with the leading space that `.=` appends |
| ChildRecordSpec.ClassString | wire/modules/Process/ProcessPageList/ProcessPageListRenderJSON.php:84-99 | definition: the accumulated `$class`: the marker's class, or empty when no marker is set |
| ChildRecordSpec.MarkerIcon | wire/modules/Process/ProcessPageList/ProcessPageListRenderJSON.php:90-96 | definition: "key fa-flip-horizontal" for AccessOn, "key" for AccessOff |
| ChildRecordSpec.AccessIcons | wire/modules/Process/ProcessPageList/ProcessPageListRenderJSON.php:84-99 | definition: the marker's key icon, or no icon when no marker is set |
| ChildRecordSpec.StatusIcons | wire/modules/Process/ProcessPageList/ProcessPageListRenderJSON.php:116-118 | definition: bolt if temporary, lock if locked, paperclip if draft, in that order |
| ChildRecordSpec.IconTag | wire/modules/Process/ProcessPageList/ProcessPageListRenderJSON.php:125 | definition: the exact `<i class='PageListStatusIcon fa fa-fw fa-…'></i>` string for one icon |
| ChildRecordSpec.Markup | wire/modules/Process/ProcessPageList/ProcessPageListRenderJSON.php:124-126 | definition: the tags of an icon list, one per icon, in list order |
| ChildRecordSpec.Label | wire/modules/Process/ProcessPageList/ProcessPageListRenderJSON.php:122-126 | definition: the base label followed by the markup of the page's icons |
| ChildRecordSpec.Note | wire/modules/Process/ProcessPageList/ProcessPageListRenderJSON.php:101-105 | definition: the prefixed trash-open message for the trash when the user is a superuser, empty otherwise |
| ChildRecordSpec.TypeString | wire/modules/Process/ProcessPageList/ProcessPageListRenderJSON.php:75-76 | definition: "System" for a system id, empty otherwise |
| ChildRecordSpec.Present | wire/modules/Process/ProcessPageList/ProcessPageListRenderJSON.php:139-141 | definition: an optional entry is set exactly when its string is truthy |
| ChildRecordSpec.IsBlank | wire/modules/Process/ProcessPageList/ProcessPageListRenderJSON.php:139 | definition: the default character set of PHP `trim()`: space, tab, newline, carriage return, NUL and vertical tab |
| ChildRecordSpec.TrimLeft | wire/modules/Process/ProcessPageList/ProcessPageListRenderJSON.php:139 | definition: removes every leading blank |
| ChildRecordSpec.TrimRight | wire/modules/Process/ProcessPageList/ProcessPageListRenderJSON.php:139 | definition: removes every trailing blank |
| ChildRecordSpec.Trim | wire/modules/Process/ProcessPageList/ProcessPageListRenderJSON.php:139 | definition: `trim()` with the default set: blanks removed from both ends |
| ChildRecordSpec.RawSystemLabel | wire/modules/Process/ProcessPageList/ProcessPageListRenderJSON.php:77-79 | definition: the translated 404 label for the 404 id, the translated admin label for the admin root id, the trash entry of the action labels for the trash id when there is one, and empty otherwise |
| ChildRecordSpec.SystemLabel | wire/modules/Process/ProcessPageList/ProcessPageListRenderJSON.php:75-81 | definition: for a system id the raw override, emptied when it is 'Trash', 'Admin' or '404 Page Not Found'; empty for other pages |
| ChildRecordSpec.BaseLabel | wire/modules/Process/ProcessPageList/ProcessPageListRenderJSON.php:122 | definition: the override when it is truthy, otherwise getPageLabel |
| ChildRecordSpec.AccessMarker | wire/modules/Process/ProcessPageList/ProcessPageListRenderJSON.php:84-99 | definition: AccessOn, AccessOff or no marker, by the nested guest tests on the page's and its parent's access templates |
| ChildRecordSpec.Icons | wire/modules/Process/ProcessPageList/ProcessPageListRenderJSON.php:101-118 | definition: ['trash-o'] for the trash; otherwise the access icon, then bolt, lock and paperclip as the status flags say |
| ChildRecordSpec.ChildCount | wire/modules/Process/ProcessPageList/ProcessPageListRenderJSON.php:101-119 | definition: for the trash numChildren(false), replaced by the listable recount for a regular user when it is positive; numChildren(1) for other pages |
| ChildRecordSpec.RecordPath | wire/modules/Process/ProcessPageList/ProcessPageListRenderJSON.php:133 | definition: path() when slashUrls is set or the id is 1, otherwise path() with every trailing slash removed |
| ChildRecordSpec.RecordOf | wire/modules/Process/ProcessPageList/ProcessPageListRenderJSON.php:128-141 | definition: the array of one page: id, label, status, numChildren, path, template and actions, with addClass, type and note only when truthy |
| ChildRecordSpec.CountListable | wire/modules/Process/ProcessPageList/ProcessPageListRenderJSON.php:108-112 | the count is at most the number of children, equals it iff all are listable, and is zero iff none is |
| ChildRecordSpec.CountListableIsMultiplicity | wire/modules/Process/ProcessPageList/ProcessPageListRenderJSON.php:108-112 | the recount equals the number of true entries among the children's listable flags |
| ChildRecordSpec.RTrimSlashes | wire/modules/Process/ProcessPageList/ProcessPageListRenderJSON.php:133 | the result is a prefix of the input with no trailing slash, and only slashes were removed |
| ChildRecordSpec.MarkupAppend | wire/modules/Process/ProcessPageList/ProcessPageListRenderJSON.php:124-126 | the tags of a concatenation of icon lists are the concatenation of their tags |
| ChildRecordSpec.MarkupOne | wire/modules/Process/ProcessPageList/ProcessPageListRenderJSON.php:125 | (proof helper) one icon gives exactly its one tag |
| ChildRecordSpec.TrashRecord | wire/modules/Process/ProcessPageList/ProcessPageListRenderJSON.php:101-107 | the trash's icon list is exactly trash-o, whatever its status or marker, so its label is the base label plus that one tag; the note is present iff the user is a superuser, and it is then the prefixed trash-open message |
| ChildRecordSpec.OtherPageIcons | wire/modules/Process/ProcessPageList/ProcessPageListRenderJSON.php:116-126 | other pages list the access icon, then bolt, lock and paperclip; the label is the base label, then the access tag, then the status tags in that order |
| ChildRecordSpec.StatusIconTags | wire/modules/Process/ProcessPageList/ProcessPageListRenderJSON.php:116-118 | the status tags are bolt if temporary, lock if locked, paperclip if draft, in that order |
| ChildRecordSpec.AccessMarkers | wire/modules/Process/ProcessPageList/ProcessPageListRenderJSON.php:84-99 | a marker is set only for a page that is its own access parent and has a parent; AccessOn iff its template grants guest, the parent's exists without guest and it is not in the trash; AccessOff iff its template does not grant guest and the parent's does |
| ChildRecordSpec.AddClassFollowsMarker | wire/modules/Process/ProcessPageList/ProcessPageListRenderJSON.php:139 | addClass is present iff a marker is set, and it is then the marker's class name, trimmed |
| ChildRecordSpec.MarkerClassTrimmed | wire/modules/Process/ProcessPageList/ProcessPageListRenderJSON.php:139 | (proof helper) a marker's class is truthy and trim() removes exactly its leading space |
| ChildRecordSpec.KeyIconFollowsMarker | wire/modules/Process/ProcessPageList/ProcessPageListRenderJSON.php:89-98 | apart from the trash, the first icon is a key icon iff a marker is set |
| ChildRecordSpec.TrashChildCount | wire/modules/Process/ProcessPageList/ProcessPageListRenderJSON.php:104-119 | a regular user with a positive raw count sees the number of listable trash children, which is at most the number of children; a superuser sees the raw count; other pages report numChildren(1) |
| ChildRecordSpec.NoteOnlyOnTrash | wire/modules/Process/ProcessPageList/ProcessPageListRenderJSON.php:101-105 | note is present iff the page is the trash and the user is a superuser |
| ChildRecordSpec.SentinelLabel | wire/modules/Process/ProcessPageList/ProcessPageListRenderJSON.php:75-82 | a sentinel or falsy override falls back to getPageLabel, any other override of a system page wins, and other pages use getPageLabel |
| ChildRecordSpec.LabelNotEmpty | wire/modules/Process/ProcessPageList/ProcessPageListRenderJSON.php:122-126 | the label is not empty when getPageLabel is not |
| ChildRecordSpec.TypeMarksSystemPages | wire/modules/Process/ProcessPageList/ProcessPageListRenderJSON.php:75-76 | type is System iff the id is one of the four system ids, otherwise absent |
| ChildRecordSpec.PathTrailingSlash | wire/modules/Process/ProcessPageList/ProcessPageListRenderJSON.php:133 | the path is a prefix of the page's path that differs by trailing slashes only; it has no trailing slash unless slashUrls is set or the id is 1, and then it is the page's path unchanged |
| ListPlacement.Dispose | wire/modules/Process/ProcessPageList/ProcessPageListRenderJSON.php:159-168 | definition: dropped when a regular user may not list the page; for a regular user the 404 page is rendered in place iff editable; a system page is deferred for a superuser and dropped otherwise; any other page is rendered in place |
| ListPlacement.Kept | wire/modules/Process/ProcessPageList/ProcessPageListRenderJSON.php:158-172 | definition: the window's pages that Dispose renders in place, in window order |
| ListPlacement.Seen404 | wire/modules/Process/ProcessPageList/ProcessPageListRenderJSON.php:159-163 | definition: the page is a listable 404 page and the user is not a superuser |
| ListPlacement.Last404 | wire/modules/Process/ProcessPageList/ProcessPageListRenderJSON.php:158-163 | definition: the last page of the window for which Seen404 holds, if any |
| ListPlacement.FallbackApplies | wire/modules/Process/ProcessPageList/ProcessPageListRenderJSON.php:174-176 | definition: a regular user, a remembered 404 page whose parent is the root, no trash entry yet, and a lookup with a nonzero id that is listable |
| ListPlacement.WithFallback | wire/modules/Process/ProcessPageList/ProcessPageListRenderJSON.php:174-177 | definition: stores the looked-up trash under its id when FallbackApplies holds, and leaves the map alone otherwise |
| ListPlacement.Placement | wire/modules/Process/ProcessPageList/ProcessPageListRenderJSON.php:158-181 | definition: the pages whose records make up children: Kept, then the deferred pages after the fallback, in map order |
| ListPlacement.VisibleToRegular | wire/modules/Process/ProcessPageList/ProcessPageListRenderJSON.php:159-167 | reference definition: the window filtered to the pages a regular user sees in place, in window order |
| ListPlacement.RegularUserKeptOrder | wire/modules/Process/ProcessPageList/ProcessPageListRenderJSON.php:158-172 | for a regular user the pass renders exactly VisibleToRegular of the window: same order and same multiplicities, so an editable 404 page keeps its position among its siblings |
| ListPlacement.ExtraValid | wire/modules/Process/ProcessPageList/ProcessPageListRenderJSON.php:152-166 | definition: `$extraPages` as an id-keyed array: every listed key is stored, every stored key is listed once, in insertion order |
| ListPlacement.Values | wire/modules/Process/ProcessPageList/ProcessPageListRenderJSON.php:179 | definition: the pages of `$extraPages` in the order the foreach visits them, which is key insertion order |
| ListPlacement.Put | wire/modules/Process/ProcessPageList/ProcessPageListRenderJSON.php:166 | storing a page under an id keeps the map well formed: every listed id is stored, every stored id is listed, and no id is listed twice |
| ListPlacement.Lookup | wire/modules/Process/ProcessPageList/ProcessPageListRenderJSON.php:179 | the foreach visits one page per key, the page stored under that key, in key order |
| ListPlacement.DeferredOf | wire/modules/Process/ProcessPageList/ProcessPageListRenderJSON.php:158-168 | only a superuser defers pages; every deferred page is a system page of the window, stored under its own id |
| ListPlacement.PassStep | wire/modules/Process/ProcessPageList/ProcessPageListRenderJSON.php:159-171 | (proof helper) one page more in the window: it is rendered, deferred, remembered as the 404 page or dropped, as the branches decide |
| ListPlacement.RecordsOfAppend | wire/modules/Process/ProcessPageList/ProcessPageListRenderJSON.php:171 | (proof helper) appending a page's record to the records of a list gives the records of the extended list |
| ListPlacement.RecordsOfConcat | wire/modules/Process/ProcessPageList/ProcessPageListRenderJSON.php:179-181 | (proof helper) the records of the kept pages followed by those of the deferred pages are the records of both lists together |
| ListPlacement.KeptMembers | wire/modules/Process/ProcessPageList/ProcessPageListRenderJSON.php:158-172 | a page is rendered by the pass iff it is in the window and the branches render it in place |
| ListPlacement.RegularUserKept | wire/modules/Process/ProcessPageList/ProcessPageListRenderJSON.php:159-167 | for a regular user the pass renders exactly the listable pages that are not system pages, plus the 404 page if it is also editable; a page the pass renders whose id is not the 404 id is not the admin root, trash or login page |
| ListPlacement.Last404Found | wire/modules/Process/ProcessPageList/ProcessPageListRenderJSON.php:161-163 | the remembered 404 page is a listable 404 page of the window, and there is one iff the window has such a page |
| ListPlacement.RegularUserDeferred | wire/modules/Process/ProcessPageList/ProcessPageListRenderJSON.php:174-181 | for a regular user the deferred list is the trash alone when the fallback applies, and empty otherwise |
| ListPlacement.RegularUserPlacement | wire/modules/Process/ProcessPageList/ProcessPageListRenderJSON.php:158-181 | for a regular user children is VisibleToRegular of the window, in window order, then the trash as the last element iff a 404 page under the root was seen and the lookup finds a listable trash with a nonzero id; every listed page is listable, and the trash lookup is the only page from outside the window |
| ListPlacement.DeferredOrigin | wire/modules/Process/ProcessPageList/ProcessPageListRenderJSON.php:165-177 | every deferred page is a page of the window or the trash lookup |
| ListPlacement.SuperuserKept | wire/modules/Process/ProcessPageList/ProcessPageListRenderJSON.php:159-171 | for a superuser the pass renders exactly the window's non-system pages, in window order |
| ListPlacement.ValuesPutNew | wire/modules/Process/ProcessPageList/ProcessPageListRenderJSON.php:166 | storing a page under a new id appends it to the foreach order |
| ListPlacement.SuperuserDeferred | wire/modules/Process/ProcessPageList/ProcessPageListRenderJSON.php:165-166 | for a superuser, with distinct ids, the deferred pages are the window's system pages in first-encounter order |
| ListPlacement.PartitionMultiset | wire/modules/Process/ProcessPageList/ProcessPageListRenderJSON.php:158-172 | the non-system and the system pages together are the window, as a multiset |
| ListPlacement.SuperuserPlacement | wire/modules/Process/ProcessPageList/ProcessPageListRenderJSON.php:165-181 | for a superuser with distinct ids, children lists every page of the window exactly once (same multiset): the non-system pages in window order, then every system page in first-encounter order, each after every non-system page |

## Left out

- The HTTP header, `json_encode` and the `getArray` option (lines 190-192): `Render` returns the structured payload.
- Translation with `$this->_()`: the translated strings are given in `Labels`. The sentinel test compares against what translation returned.
- `getPageLabel` and `getPageActions` come from the parent class. `ProcessPageListRender.php` is not part of this model, so they are the `pageLabel` and `actions` fields of a page, and `array_values` is the identity on that list.
- The page API is given as plain fields of `PageInfo`, answered for the current user:
  - `listable`, `editable`, `numChildren(false)`, `numChildren(1)`;
  - `children("include=all")` with the listable flag of each child;
  - `getAccessParent`, `getAccessTemplate()` and `hasRole('guest')` for the page and its parent;
  - `hasStatus`, `isTrash`, `path()`, the template's `slashUrls` and `name`.
- `hasPermission` and `permissions->has` are given as sets of permission names. `pages->get(trashPageID)` is the optional `trashLookup` page, where None stands for the NullPage. Nothing of the database is modelled.
- The `superuser` flag is set by the parent class, which is not part of this model. It is taken to be `user.isSuperuser`.
- Turning output formatting on only sets a flag here. How formatting changes the values a page returns is not modelled.
- PHP's loose `in_array` comparison is modelled as equality. That is exact for integer ids. It is also exact for the sentinel labels, because PHP compares two strings numerically only when both are numeric, and 'Trash', 'Admin' and '404 Page Not Found' are not.
- The constructor reads the four ids from the configuration. Here they are passed in as `SystemIds`.
- ListPlacement.SuperuserPlacement: stated only for windows whose pages have distinct ids, as a PageArray holds them. With a repeated system id the map keeps the first position and the last page, which `Put` models but no lemma states.
- ListPlacement.SuperuserDeferred: needs the same distinct-ids hypothesis, for the same reason.
- `allowTrash` is not called by `render` in this file. Its callers are in code that is not part of this model.
