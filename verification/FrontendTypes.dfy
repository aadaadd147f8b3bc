/**
 The vocabulary the manifest compiler reads and writes: menus, pages and
 placements as the custom resources spell them, the compiler's normalised
 input, and its errors.
 */
module FrontendTypes {
  import opened Prelude

  datatype MenuPlacement = Global | Workspace | Cluster
  {
    function AsStr(): string {
      match this
      case Global => "global"
      case Workspace => "workspace"
      case Cluster => "cluster"
    }

    function RoutePrefix(): string {
      match this
      case Cluster => "/clusters/:cluster"
      case Workspace => "/workspaces/:workspace"
      case Global => ""
    }
  }

  datatype MenuNodeType = Page | Organization
  datatype PageType = CrdTable | Iframe
  datatype CrdScope = Namespaced | ClusterScoped

  datatype IframePageSpec = IframePageSpec(src: string)
  datatype ColumnSpec = ColumnSpec(key: string, title: string, render: string)
  datatype CrdTablePageSpec = CrdTablePageSpec(
    plural: string,
    kind: Option<string>,
    group: string,
    version: string,
    authKey: Option<string>,
    scope: CrdScope,
    columns: seq<ColumnSpec>)

  type Locales = map<string, map<string, string>>

  // ----- The compiler's input, common to both custom resources -----

  datatype FrontendSecondaryMenuSpec = FrontendSecondaryMenuSpec(
    displayName: string,
    key: string,
    icon: Option<string>,
    pageKey: Option<string>)

  datatype FrontendMenuSpec = FrontendMenuSpec(
    displayName: string,
    key: string,
    icon: Option<string>,
    placement: MenuPlacement,
    nodeType: MenuNodeType,
    pageKey: Option<string>,
    children: seq<FrontendSecondaryMenuSpec>)

  datatype FrontendPageSpec = FrontendPageSpec(
    key: string,
    displayName: Option<string>,
    placements: Option<seq<MenuPlacement>>,
    pageType: PageType,
    crdTable: Option<CrdTablePageSpec>,
    iframe: Option<IframePageSpec>)

  datatype FrontendRenderInput = FrontendRenderInput(
    name: string,
    displayName: Option<string>,
    description: Option<string>,
    schemaVersion: Option<string>,
    routeNamespace: string,
    extensionModule: Option<string>,
    locales: Locales,
    menus: seq<FrontendMenuSpec>,
    pages: seq<FrontendPageSpec>,
    requirePageKey: bool)

  // ----- Errors -----

  /** What an InvalidMenuShape message says. */
  datatype MenuProblem =
    | PageMenuHasChildren
    | OrganizationHasNoChildren
    | OrganizationHasPageKey
    | PageKeyRequired
    | NoMenuPlacement

  /** What an InvalidPageShape message says. */
  datatype PageProblem =
    | KeyNotKebabCase
    | NoPagePlacement
    | IframeConfigMissing
    | IframeHasCrdTable
    | CrdTableConfigMissing
    | CrdTableHasIframe
    | PlacementNotAccepted(placement: MenuPlacement)

  datatype ManifestRenderError =
    | DuplicateTopLevelMenuKey(key: string)
    | DuplicatePageKey(key: string)
    | DuplicateMenuRoute(placement: string, route: string)
    | MissingPageForMenuKey(key: string)
    | InvalidMenuShape(key: string, menuProblem: MenuProblem)
    | InvalidPageShape(key: string, pageProblem: PageProblem)
    | InvalidMenuKey(key: string)
    | MissingCrdColumns(key: string)
    | UnsupportedVersion(version: string)
}
