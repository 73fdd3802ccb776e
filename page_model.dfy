/** The data the JSON page-list renderer reads: the configured system page ids, the
    translated labels, the current user, and one record per page in which every
    answer of the page API (listable, editable, access templates, child counts,
    labels, actions) is a plain field. */
module PageModel {

  datatype Option<T> = None | Some(value: T)

  /** The four configured ids: http404PageID, adminRootPageID, trashPageID, loginPageID. */
  datatype SystemIds = SystemIds(notFound: int, adminRoot: int, trash: int, login: int)

  /** The `systemIDs` list the renderer builds in its constructor, in the same order. */
  function SystemIDs(ids: SystemIds): seq<int>
  {
    [ids.notFound, ids.adminRoot, ids.trash, ids.login]
  }

  /** Translated strings. `notFound`, `admin` and `trashOpen` are what the translation
      function returns for '404 Page Not Found', 'Admin' and the trash-open message;
      `actionLabels` is the parent renderer's action label table (its 'trash' entry
      overrides the trash page's label). */
  datatype Labels = Labels(notFound: string, admin: string, trashOpen: string,
                           actionLabels: map<string, string>)

  /** What one render call knows about its caller and configuration. */
  datatype Settings = Settings(ids: SystemIds, superuser: bool, labels: Labels)

  /** The current user's permissions: `global` answers hasPermission(name),
      `atTemplate` answers hasPermission(name, true) (granted at some template). */
  datatype User = User(isSuperuser: bool, global: set<string>, atTemplate: set<string>)

  /** Status flags the renderer consults (hasStatus), beside the raw bitmask it echoes. */
  datatype Status = Status(raw: int, temp: bool, locked: bool, draft: bool)

  /** One page action as the parent renderer's getPageActions lists it. */
  datatype Action = Action(cn: string, name: string, url: string)

  /** Everything the renderer asks of a page, for the current user.
      `access` and `parentAccess` stand for getAccessTemplate() of the page and of its
      parent: None when there is no access template, Some(g) when there is one and
      g says whether it has the guest role. `parentId` is 0 when the page has no parent.
      `numChildrenAll` answers numChildren(false) and `numChildrenListed` answers
      numChildren(1), the count of viewable children.
      `childrenListable` lists listable() of each page of children("include=all"). */
  datatype PageInfo = PageInfo(
    id: int,
    parentId: int,
    status: Status,
    inTrash: bool,
    ownsAccess: bool,
    access: Option<bool>,
    parentAccess: Option<bool>,
    listable: bool,
    editable: bool,
    numChildrenAll: nat,
    numChildrenListed: nat,
    childrenListable: seq<bool>,
    path: string,
    slashUrls: bool,
    templateName: string,
    pageLabel: string,
    actions: seq<Action>)

  /** A page object. Its one piece of state the renderer changes is the
      output-formatting flag; everything else is read-only. */
  class Page {
    const info: PageInfo
    var outputFormatting: bool

    constructor (info: PageInfo, outputFormatting: bool)
      ensures this.info == info && this.outputFormatting == outputFormatting
    {
      this.info := info;
      this.outputFormatting := outputFormatting;
    }
  }
}
