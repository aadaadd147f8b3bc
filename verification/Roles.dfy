/** Role aggregation and RoleTemplate charts (crates/extension-package-core/src/roles.rs). */
module Roles {
  import opened Prelude
  import opened FrontendTypes
  import opened Render
  import opened Sequences

  datatype RoleScope = ClusterRole | WorkspaceRole | NamespaceRole
  datatype RoleAction = View | Manage
  datatype GeneratedRule = GeneratedRule(apiGroup: string, resource: string, verbs: seq<string>)
  datatype Contribution = Contribution(scope: RoleScope, action: RoleAction, actionKey: string, rule: Option<GeneratedRule>)
  datatype RoleTemplateAggregate = RoleTemplateAggregate(actionKeys: set<string>, rules: set<GeneratedRule>)

  datatype RoleTemplateAggregates = RoleTemplateAggregates(
    clusterView: RoleTemplateAggregate, clusterManage: RoleTemplateAggregate,
    workspaceView: RoleTemplateAggregate, workspaceManage: RoleTemplateAggregate,
    namespaceView: RoleTemplateAggregate, namespaceManage: RoleTemplateAggregate)
  {
    function Get(scope: RoleScope, action: RoleAction): RoleTemplateAggregate {
      match (scope, action)
      case (ClusterRole, View) => clusterView
      case (ClusterRole, Manage) => clusterManage
      case (WorkspaceRole, View) => workspaceView
      case (WorkspaceRole, Manage) => workspaceManage
      case (NamespaceRole, View) => namespaceView
      case (NamespaceRole, Manage) => namespaceManage
    }

    function Set(scope: RoleScope, action: RoleAction, a: RoleTemplateAggregate): (r: RoleTemplateAggregates)
      ensures forall s, t :: r.Get(s, t) == if s == scope && t == action then a else Get(s, t)
    {
      match (scope, action)
      case (ClusterRole, View) => this.(clusterView := a)
      case (ClusterRole, Manage) => this.(clusterManage := a)
      case (WorkspaceRole, View) => this.(workspaceView := a)
      case (WorkspaceRole, Manage) => this.(workspaceManage := a)
      case (NamespaceRole, View) => this.(namespaceView := a)
      case (NamespaceRole, Manage) => this.(namespaceManage := a)
    }

    predicate HasScope(scope: RoleScope) {
      Get(scope, View).actionKeys != {} || Get(scope, Manage).actionKeys != {}
    }
  }

  // ----- Contributions of one page -----

  function CrdRoleScope(placement: MenuPlacement, crdScope: CrdScope): RoleScope {
    match placement
    case Cluster => ClusterRole
    case Workspace => NamespaceRole
    case Global => if crdScope.ClusterScoped? then ClusterRole else NamespaceRole
  }

  function IframeRoleScope(placement: MenuPlacement): Option<RoleScope> {
    match placement
    case Cluster => Some(ClusterRole)
    case Workspace => Some(WorkspaceRole)
    case Global => None
  }

  function Contributions(page: ResolvedFrontendPage): seq<Contribution> {
    match page.page.pageType
    case CrdTable =>
      if page.page.crdTable.None? then []
      else
        var crd := page.page.crdTable.value;
        var scope := CrdRoleScope(page.placement, crd.scope);
        var key := crd.authKey.UnwrapOr(page.actionKey);
        [Contribution(scope, View, key, Some(GeneratedRule(crd.group, crd.plural, ["get", "list", "watch"]))),
         Contribution(scope, Manage, key, Some(GeneratedRule(crd.group, crd.plural, ["*"])))]
    case Iframe =>
      var scope := IframeRoleScope(page.placement);
      if scope.None? then [] else [Contribution(scope.value, View, page.actionKey, None)]
  }

  // ----- Aggregation -----

  function ContributionLists(pages: seq<ResolvedFrontendPage>): seq<seq<Contribution>> {
    seq(|pages|, i requires 0 <= i < |pages| => Contributions(pages[i]))
  }

  /** What a list of contributions gives one scope and action. */
  function AggregateOf(cs: seq<Contribution>, scope: RoleScope, action: RoleAction): RoleTemplateAggregate {
    RoleTemplateAggregate(
      set i | 0 <= i < |cs| && cs[i].scope == scope && cs[i].action == action :: cs[i].actionKey,
      set i | 0 <= i < |cs| && cs[i].scope == scope && cs[i].action == action && cs[i].rule.Some? :: cs[i].rule.value)
  }

  ghost predicate Aggregates(r: RoleTemplateAggregates, cs: seq<Contribution>) {
    forall scope, action :: r.Get(scope, action) == AggregateOf(cs, scope, action)
  }

  lemma AggregateStep(cs: seq<Contribution>, c: Contribution, scope: RoleScope, action: RoleAction)
    ensures AggregateOf(cs + [c], scope, action)
      == if c.scope == scope && c.action == action
         then RoleTemplateAggregate(
                AggregateOf(cs, scope, action).actionKeys + {c.actionKey},
                AggregateOf(cs, scope, action).rules + if c.rule.Some? then {c.rule.value} else {})
         else AggregateOf(cs, scope, action)
  {
    var more := cs + [c];
    assert forall i :: 0 <= i < |cs| ==> more[i] == cs[i];
    assert more[|cs|] == c;
  }

  method AddRoleRule(aggregates: RoleTemplateAggregates, c: Contribution, ghost cs: seq<Contribution>) returns (r: RoleTemplateAggregates)
    requires Aggregates(aggregates, cs)
    ensures Aggregates(r, cs + [c])
  {
    var aggregate := aggregates.Get(c.scope, c.action);
    aggregate := aggregate.(actionKeys := aggregate.actionKeys + {c.actionKey});
    if c.rule.Some? {
      aggregate := aggregate.(rules := aggregate.rules + {c.rule.value});
    }
    r := aggregates.Set(c.scope, c.action, aggregate);
    forall scope, action ensures r.Get(scope, action) == AggregateOf(cs + [c], scope, action) {
      AggregateStep(cs, c, scope, action);
    }
  }

  // ----- What the pages grant -----

  /** The scope in which a CRD page in this placement grants: a cluster page the cluster, a global one what its CRD is scoped to. */
  ghost predicate CrdGrantsIn(placement: MenuPlacement, crdScope: CrdScope, scope: RoleScope) {
    && (scope == ClusterRole <==> placement == Cluster || (placement == Global && crdScope == ClusterScoped))
    && (scope == NamespaceRole <==> placement == Workspace || (placement == Global && crdScope == Namespaced))
  }

  ghost predicate IsCrdPage(p: ResolvedFrontendPage, crd: CrdTablePageSpec, scope: RoleScope) {
    p.page.pageType == CrdTable && p.page.crdTable == Some(crd) && CrdGrantsIn(p.placement, crd.scope, scope)
  }

  /** A page grants its key: a CRD page for viewing and managing, an embedded page outside the global menu for viewing. */
  ghost predicate GrantsKey(p: ResolvedFrontendPage, scope: RoleScope, action: RoleAction, key: string) {
    || (exists crd :: IsCrdPage(p, crd, scope) && key == (if crd.authKey.Some? then crd.authKey.value else p.actionKey))
    || (p.page.pageType == Iframe && action == View && key == p.actionKey
        && ((p.placement == Cluster && scope == ClusterRole) || (p.placement == Workspace && scope == WorkspaceRole)))
  }

  /** Only CRD pages grant access to resources: reading for viewing, everything for managing. */
  ghost predicate GrantsRule(p: ResolvedFrontendPage, scope: RoleScope, action: RoleAction, rule: GeneratedRule) {
    exists crd :: IsCrdPage(p, crd, scope)
      && rule == GeneratedRule(crd.group, crd.plural, if action == View then ["get", "list", "watch"] else ["*"])
  }

  lemma ContributionsMean(p: ResolvedFrontendPage, scope: RoleScope, action: RoleAction)
    ensures forall key :: GrantsKey(p, scope, action, key)
              <==> exists c :: c in Contributions(p) && c.scope == scope && c.action == action && c.actionKey == key
    ensures forall rule :: GrantsRule(p, scope, action, rule)
              <==> exists c :: c in Contributions(p) && c.scope == scope && c.action == action && c.rule == Some(rule)
  {
    if p.page.pageType == CrdTable && p.page.crdTable.Some? {
      var crd, cs := p.page.crdTable.value, Contributions(p);
      assert IsCrdPage(p, crd, scope) <==> CrdRoleScope(p.placement, crd.scope) == scope;
      assert cs[0] in cs && cs[1] in cs;
    } else if p.page.pageType == Iframe && IframeRoleScope(p.placement).Some? {
      assert Contributions(p)[0] in Contributions(p);
    }
  }

  /** What the aggregates of a list of pages hold, on the pages themselves. */
  lemma AggregatesMean(pages: seq<ResolvedFrontendPage>, r: RoleTemplateAggregates, scope: RoleScope, action: RoleAction)
    requires Aggregates(r, Flatten(ContributionLists(pages)))
    ensures forall key :: key in r.Get(scope, action).actionKeys <==> exists p :: p in pages && GrantsKey(p, scope, action, key)
    ensures forall rule :: rule in r.Get(scope, action).rules <==> exists p :: p in pages && GrantsRule(p, scope, action, rule)
  {
    hide Contributions, GrantsKey, GrantsRule;
    var cs := Flatten(ContributionLists(pages));
    assert r.Get(scope, action) == AggregateOf(cs, scope, action);
    forall key ensures key in r.Get(scope, action).actionKeys <==> exists p :: p in pages && GrantsKey(p, scope, action, key) {
      KeyFromPages(pages, scope, action, key);
    }
    forall rule ensures rule in r.Get(scope, action).rules <==> exists p :: p in pages && GrantsRule(p, scope, action, rule) {
      RuleFromPages(pages, scope, action, rule);
    }
  }

  lemma KeyFromPages(pages: seq<ResolvedFrontendPage>, scope: RoleScope, action: RoleAction, key: string)
    ensures key in AggregateOf(Flatten(ContributionLists(pages)), scope, action).actionKeys <==> exists p :: p in pages && GrantsKey(p, scope, action, key)
  {
    hide Contributions, GrantsKey, ContributionLists;
    var cs := Flatten(ContributionLists(pages));
    if key in AggregateOf(cs, scope, action).actionKeys {
      var i :| 0 <= i < |cs| && cs[i].scope == scope && cs[i].action == action && cs[i].actionKey == key;
      ContributionOfPages(pages, cs[i]);
      var p :| p in pages && cs[i] in Contributions(p);
      ContributionsMean(p, scope, action);
      assert GrantsKey(p, scope, action, key);
    }
    if p :| p in pages && GrantsKey(p, scope, action, key) {
      ContributionsMean(p, scope, action);
      var c :| c in Contributions(p) && c.scope == scope && c.action == action && c.actionKey == key;
      ContributionOfPages(pages, c);
      var i :| 0 <= i < |cs| && cs[i] == c;
    }
  }

  lemma RuleFromPages(pages: seq<ResolvedFrontendPage>, scope: RoleScope, action: RoleAction, rule: GeneratedRule)
    ensures rule in AggregateOf(Flatten(ContributionLists(pages)), scope, action).rules <==> exists p :: p in pages && GrantsRule(p, scope, action, rule)
  {
    hide Contributions, GrantsRule, ContributionLists;
    var cs := Flatten(ContributionLists(pages));
    if rule in AggregateOf(cs, scope, action).rules {
      var i :| 0 <= i < |cs| && cs[i].scope == scope && cs[i].action == action && cs[i].rule == Some(rule);
      ContributionOfPages(pages, cs[i]);
      var p :| p in pages && cs[i] in Contributions(p);
      ContributionsMean(p, scope, action);
      assert GrantsRule(p, scope, action, rule);
    }
    if p :| p in pages && GrantsRule(p, scope, action, rule) {
      ContributionsMean(p, scope, action);
      var c :| c in Contributions(p) && c.scope == scope && c.action == action && c.rule == Some(rule);
      ContributionOfPages(pages, c);
      var i :| 0 <= i < |cs| && cs[i] == c;
    }
  }

  method AggregateRoleTemplates(pages: seq<ResolvedFrontendPage>) returns (r: RoleTemplateAggregates)
    ensures Aggregates(r, Flatten(ContributionLists(pages)))
    ensures forall scope, action, key :: key in r.Get(scope, action).actionKeys <==> exists p :: p in pages && GrantsKey(p, scope, action, key)
    ensures forall scope, action, rule :: rule in r.Get(scope, action).rules <==> exists p :: p in pages && GrantsRule(p, scope, action, rule)
  {
    hide Aggregates, Contributions, GrantsKey, GrantsRule;
    var none := RoleTemplateAggregate({}, {});
    r := RoleTemplateAggregates(none, none, none, none, none, none);
    NothingAggregated(r);
    ghost var lists := ContributionLists(pages);
    for i := 0 to |pages|
      invariant Aggregates(r, Flatten(lists[..i]))
    {
      FlattenStep(lists, i);
      var cs := Contributions(pages[i]);
      ghost var before := Flatten(lists[..i]);
      assert before + cs[..0] == before;
      for j := 0 to |cs|
        invariant Aggregates(r, before + cs[..j])
      {
        r := AddRoleRule(r, cs[j], before + cs[..j]);
        assert before + cs[..j] + [cs[j]] == before + cs[..j + 1];
      }
      assert cs[..|cs|] == cs;
    }
    assert lists[..|pages|] == lists;
    forall scope, action
      ensures forall key :: key in r.Get(scope, action).actionKeys <==> exists p :: p in pages && GrantsKey(p, scope, action, key)
      ensures forall rule :: rule in r.Get(scope, action).rules <==> exists p :: p in pages && GrantsRule(p, scope, action, rule)
    {
      AggregatesMean(pages, r, scope, action);
    }
  }

  lemma NothingAggregated(r: RoleTemplateAggregates)
    requires forall scope, action :: r.Get(scope, action) == RoleTemplateAggregate({}, {})
    ensures Aggregates(r, [])
  {
  }

  lemma ContributionOfPages(pages: seq<ResolvedFrontendPage>, c: Contribution)
    ensures c in Flatten(ContributionLists(pages)) <==> exists p :: p in pages && c in Contributions(p)
  {
    FlattenMember(ContributionLists(pages), c);
    if p :| p in pages && c in Contributions(p) {
      var i :| 0 <= i < |pages| && pages[i] == p;
      assert c in ContributionLists(pages)[i];
    }
  }

  /** Aggregation depends only on which pages there are: neither order nor repetition matters. */
  lemma AggregationIgnoresOrder(a: seq<ResolvedFrontendPage>, b: seq<ResolvedFrontendPage>, r: RoleTemplateAggregates, r': RoleTemplateAggregates)
    requires forall p :: p in a <==> p in b
    requires Aggregates(r, Flatten(ContributionLists(a))) && Aggregates(r', Flatten(ContributionLists(b)))
    ensures r == r'
  {
    var x, y := Flatten(ContributionLists(a)), Flatten(ContributionLists(b));
    forall c ensures c in x <==> c in y {
      ContributionOfPages(a, c);
      ContributionOfPages(b, c);
    }
    forall scope, action ensures AggregateOf(x, scope, action) == AggregateOf(y, scope, action) {
      SameMembersSameAggregate(x, y, scope, action);
    }
    assert r.Get(ClusterRole, View) == r'.Get(ClusterRole, View);
    assert r.Get(ClusterRole, Manage) == r'.Get(ClusterRole, Manage);
    assert r.Get(WorkspaceRole, View) == r'.Get(WorkspaceRole, View);
    assert r.Get(WorkspaceRole, Manage) == r'.Get(WorkspaceRole, Manage);
    assert r.Get(NamespaceRole, View) == r'.Get(NamespaceRole, View);
    assert r.Get(NamespaceRole, Manage) == r'.Get(NamespaceRole, Manage);
  }

  lemma SameMembersSameAggregate(x: seq<Contribution>, y: seq<Contribution>, scope: RoleScope, action: RoleAction)
    requires forall c :: c in x <==> c in y
    ensures AggregateOf(x, scope, action) == AggregateOf(y, scope, action)
  {
    assert forall i :: 0 <= i < |x| ==> x[i] in y;
    assert forall i :: 0 <= i < |y| ==> y[i] in x;
  }

  /** Whoever may manage may also view: the manage keys of a scope are among its view keys. */
  lemma ManageKeysAreViewKeys(pages: seq<ResolvedFrontendPage>, r: RoleTemplateAggregates, scope: RoleScope)
    requires Aggregates(r, Flatten(ContributionLists(pages)))
    ensures r.Get(scope, Manage).actionKeys <= r.Get(scope, View).actionKeys
  {
    var cs := Flatten(ContributionLists(pages));
    forall key | key in r.Get(scope, Manage).actionKeys ensures key in r.Get(scope, View).actionKeys {
      var i :| 0 <= i < |cs| && cs[i].scope == scope && cs[i].action == Manage && cs[i].actionKey == key;
      var j := ViewBesideManage(pages, i);
      assert cs[j].actionKey == key;
    }
  }

  /** Whatever page contributes a manage rule contributes a view rule with its key. */
  lemma ViewBesideManage(pages: seq<ResolvedFrontendPage>, i: nat) returns (j: nat)
    requires i < |Flatten(ContributionLists(pages))| && Flatten(ContributionLists(pages))[i].action == Manage
    ensures var cs := Flatten(ContributionLists(pages));
      j < |cs| && cs[j].scope == cs[i].scope && cs[j].action == View && cs[j].actionKey == cs[i].actionKey
  {
    var cs := Flatten(ContributionLists(pages));
    ContributionOfPages(pages, cs[i]);
    var p :| p in pages && cs[i] in Contributions(p);
    var view := ViewOfPage(p, cs[i]);
    ContributionOfPages(pages, view);
    j :| 0 <= j < |cs| && cs[j] == view;
  }

  lemma ViewOfPage(p: ResolvedFrontendPage, manage: Contribution) returns (view: Contribution)
    requires manage in Contributions(p) && manage.action == Manage
    ensures view in Contributions(p) && view.scope == manage.scope && view.action == View && view.actionKey == manage.actionKey
  {
    view := Contributions(p)[0];
  }

  // ----- Charts -----

  datatype RoleTemplateChart = ExtensionChart | AgentChart
  datatype RoleTemplateGuard = Always | Unowned | UnownedOnHost

  function Guard(chart: RoleTemplateChart, scope: RoleScope): Option<RoleTemplateGuard> {
    match (chart, scope)
    case (ExtensionChart, ClusterRole) => None
    case (ExtensionChart, _) => Some(Unowned)
    case (AgentChart, NamespaceRole) => Some(Unowned)
    case (AgentChart, WorkspaceRole) => Some(UnownedOnHost)
    case (AgentChart, ClusterRole) => Some(Always)
  }

  predicate InstallsCategory(chart: RoleTemplateChart, scope: RoleScope) {
    match (chart, scope)
    case (ExtensionChart, WorkspaceRole) => true
    case (ExtensionChart, NamespaceRole) => true
    case (AgentChart, ClusterRole) => true
    case (AgentChart, NamespaceRole) => true
    case _ => false
  }

  function ScopeName(scope: RoleScope): string {
    match scope case ClusterRole => "cluster" case WorkspaceRole => "workspace" case NamespaceRole => "namespace"
  }

  function ActionName(action: RoleAction): string {
    match action case View => "view" case Manage => "manage"
  }

  function RoleName(scope: RoleScope, action: RoleAction, package: string): string {
    ScopeName(scope) + "-" + ActionName(action) + "-" + package
  }

  function CategoryName(scope: RoleScope): string {
    ScopeName(scope) + "-fe-management"
  }

  const ROLE_SCOPES: seq<RoleScope> := [ClusterRole, WorkspaceRole, NamespaceRole]
  const ROLE_ACTIONS: seq<RoleAction> := [View, Manage]

  datatype RoleTemplate = RoleTemplate(
    name: string, category: string, dependency: Option<string>, guard: RoleTemplateGuard, aggregate: RoleTemplateAggregate)

  /** What one chart renders: the Categories it installs, then its RoleTemplates in order. */
  datatype ChartOutput = ChartOutput(categories: seq<string>, templates: seq<RoleTemplate>)

  function TemplateOf(package: string, scope: RoleScope, action: RoleAction, guard: RoleTemplateGuard, aggregate: RoleTemplateAggregate): RoleTemplate {
    RoleTemplate(
      RoleName(scope, action, package), CategoryName(scope),
      if action.Manage? then Some(RoleName(scope, View, package)) else None, guard, aggregate)
  }

  method AppendRoleTemplate(
    templates: seq<RoleTemplate>, package: string, scope: RoleScope, action: RoleAction, guard: RoleTemplateGuard,
    aggregate: RoleTemplateAggregate)
    returns (r: seq<RoleTemplate>)
    ensures r == if aggregate.actionKeys == {} then templates else templates + [TemplateOf(package, scope, action, guard, aggregate)]
  {
    if aggregate.actionKeys == {} {
      return templates;
    }
    var dependency := if action == Manage then Some(RoleName(scope, View, package)) else None;
    r := templates + [RoleTemplate(RoleName(scope, action, package), CategoryName(scope), dependency, guard, aggregate)];
  }

  /** Every Manage template names a View template emitted before it in the same chart. */
  ghost predicate DependenciesEarlier(templates: seq<RoleTemplate>) {
    forall i :: 0 <= i < |templates| && templates[i].dependency.Some?
      ==> exists j :: 0 <= j < i && templates[j].name == templates[i].dependency.value
  }

  /** The templates a chart must emit for the scopes it has visited. */
  ghost predicate EmitsExactly(chart: RoleTemplateChart, package: string, r: RoleTemplateAggregates, templates: seq<RoleTemplate>, scopes: set<RoleScope>) {
    forall t :: t in templates <==>
      exists scope, action :: scope in scopes && Guard(chart, scope).Some? && r.Get(scope, action).actionKeys != {}
        && t == TemplateOf(package, scope, action, Guard(chart, scope).value, r.Get(scope, action))
  }

  method RoleTemplateChartOf(chart: RoleTemplateChart, package: string, pages: seq<ResolvedFrontendPage>)
    returns (out: ChartOutput, ghost r: RoleTemplateAggregates)
    ensures Aggregates(r, Flatten(ContributionLists(pages)))
    ensures forall c :: c in out.categories <==> exists s :: InstallsCategory(chart, s) && r.HasScope(s) && c == CategoryName(s)
    ensures EmitsExactly(chart, package, r, out.templates, {ClusterRole, WorkspaceRole, NamespaceRole})
    ensures forall c :: c in out.categories <==> exists scope :: IsCategory(c, chart, scope, pages)
    ensures forall t :: t in out.templates <==> exists scope, action :: IsTemplate(t, chart, package, scope, action, r)
    ensures DependenciesEarlier(out.templates)
  {
    hide IsCategory, EmitsExactly, DependenciesEarlier, InstalledUpTo, InstallsCategory, Guard, TemplateOf, IsTemplate, GrantsKey, GrantsRule;
    var aggregates := AggregateRoleTemplates(pages);
    r := aggregates;
    NothingEmitted(chart, package, aggregates);
    var categories: seq<string> := [];
    ghost var visited: set<RoleScope> := {};
    for i := 0 to |ROLE_SCOPES|
      invariant visited == set s | s in ROLE_SCOPES[..i]
      invariant InstalledUpTo(chart, aggregates, categories, visited)
    {
      var scope := ROLE_SCOPES[i];
      ScopeInstalled(chart, aggregates, categories, visited, scope);
      if InstallsCategory(chart, scope) && aggregates.HasScope(scope) {
        categories := categories + [CategoryName(scope)];
      }
      visited := visited + {scope};
    }
    assert ROLE_SCOPES[..|ROLE_SCOPES|] == ROLE_SCOPES;
    AllScopesListed();
    AllInstalled(chart, aggregates, categories, visited);
    var templates: seq<RoleTemplate> := [];
    visited := {};
    for i := 0 to |ROLE_SCOPES|
      invariant visited == set s | s in ROLE_SCOPES[..i]
      invariant EmitsExactly(chart, package, aggregates, templates, visited)
      invariant DependenciesEarlier(templates)
    {
      var scope := ROLE_SCOPES[i];
      var guard := Guard(chart, scope);
      if guard.Some? {
        ManageKeysAreViewKeys(pages, aggregates, scope);
        ghost var before := templates;
        templates := AppendRoleTemplate(templates, package, scope, View, guard.value, aggregates.Get(scope, View));
        templates := AppendRoleTemplate(templates, package, scope, Manage, guard.value, aggregates.Get(scope, Manage));
        ScopeEmitted(chart, package, aggregates, before, templates, visited, scope);
      } else {
        ScopeSkipped(chart, package, aggregates, templates, visited, scope);
      }
      visited := visited + {scope};
    }
    assert visited == {ClusterRole, WorkspaceRole, NamespaceRole};
    out := ChartOutput(categories, templates);
    TemplatesMean(chart, package, aggregates, templates);
    CategoriesMean(chart, pages, aggregates, categories);
  }

  /** The categories a chart installs for the scopes it has visited. */
  ghost predicate InstalledUpTo(chart: RoleTemplateChart, r: RoleTemplateAggregates, categories: seq<string>, scopes: set<RoleScope>) {
    forall c :: c in categories <==> exists s :: s in scopes && InstallsCategory(chart, s) && r.HasScope(s) && c == CategoryName(s)
  }

  lemma NothingEmitted(chart: RoleTemplateChart, package: string, r: RoleTemplateAggregates)
    ensures InstalledUpTo(chart, r, [], {}) && EmitsExactly(chart, package, r, [], {}) && DependenciesEarlier([])
  {
  }

  lemma ScopeInstalled(chart: RoleTemplateChart, r: RoleTemplateAggregates, categories: seq<string>, visited: set<RoleScope>, scope: RoleScope)
    requires InstalledUpTo(chart, r, categories, visited)
    ensures InstalledUpTo(
      chart, r, if InstallsCategory(chart, scope) && r.HasScope(scope) then categories + [CategoryName(scope)] else categories, visited + {scope})
  {
    hide InstallsCategory, CategoryName;
  }

  lemma AllInstalled(chart: RoleTemplateChart, r: RoleTemplateAggregates, categories: seq<string>, visited: set<RoleScope>)
    requires InstalledUpTo(chart, r, categories, visited) && forall s: RoleScope :: s in visited
    ensures forall c :: c in categories <==> exists s :: InstallsCategory(chart, s) && r.HasScope(s) && c == CategoryName(s)
  {
    hide InstallsCategory, CategoryName;
  }

  lemma ScopeSkipped(
    chart: RoleTemplateChart, package: string, r: RoleTemplateAggregates, templates: seq<RoleTemplate>, visited: set<RoleScope>, scope: RoleScope)
    requires EmitsExactly(chart, package, r, templates, visited) && Guard(chart, scope).None?
    ensures EmitsExactly(chart, package, r, templates, visited + {scope})
  {
    hide TemplateOf;
  }

  lemma AllScopesListed()
    ensures forall s: RoleScope :: s in ROLE_SCOPES
  {
    forall s: RoleScope ensures s in ROLE_SCOPES {
      match s
      case ClusterRole => assert ROLE_SCOPES[0] == s;
      case WorkspaceRole => assert ROLE_SCOPES[1] == s;
      case NamespaceRole => assert ROLE_SCOPES[2] == s;
    }
  }

  lemma ScopeEmitted(
    chart: RoleTemplateChart, package: string, r: RoleTemplateAggregates, before: seq<RoleTemplate>, after: seq<RoleTemplate>,
    visited: set<RoleScope>, scope: RoleScope)
    requires EmitsExactly(chart, package, r, before, visited) && DependenciesEarlier(before) && Guard(chart, scope).Some?
    requires r.Get(scope, Manage).actionKeys <= r.Get(scope, View).actionKeys
    requires var v, m := r.Get(scope, View), r.Get(scope, Manage); var g := Guard(chart, scope).value;
      after == before
        + (if v.actionKeys == {} then [] else [TemplateOf(package, scope, View, g, v)])
        + (if m.actionKeys == {} then [] else [TemplateOf(package, scope, Manage, g, m)])
    ensures EmitsExactly(chart, package, r, after, visited + {scope}) && DependenciesEarlier(after)
  {
    var v, m := r.Get(scope, View), r.Get(scope, Manage);
    if m.actionKeys != {} {
      assert v.actionKeys != {};
      assert after[|before|].name == RoleName(scope, View, package);
    }
    forall t ensures t in after <==>
      exists s, action :: s in visited + {scope} && Guard(chart, s).Some? && r.Get(s, action).actionKeys != {}
        && t == TemplateOf(package, s, action, Guard(chart, s).value, r.Get(s, action))
    {
      if t in after && t !in before {
        assert t == TemplateOf(package, scope, View, Guard(chart, scope).value, v) || t == TemplateOf(package, scope, Manage, Guard(chart, scope).value, m);
      }
    }
    forall i | 0 <= i < |after| && after[i].dependency.Some?
      ensures exists j :: 0 <= j < i && after[j].name == after[i].dependency.value
    {
      if i < |before| {
        var j :| 0 <= j < i && before[j].name == before[i].dependency.value;
        assert after[j].name == after[i].dependency.value;
      }
    }
  }

  // ----- What the charts install -----

  ghost function ScopeWord(scope: RoleScope): string {
    match scope case ClusterRole => "cluster" case WorkspaceRole => "workspace" case NamespaceRole => "namespace"
  }

  /**
   Cluster templates come from the agent alone, always; namespace templates from
   both, unless another release owns them; workspace templates from the extension,
   and from the agent on the host.
   */
  ghost predicate Installs(chart: RoleTemplateChart, scope: RoleScope, guard: RoleTemplateGuard) {
    && (chart == ExtensionChart ==> scope != ClusterRole && guard == Unowned)
    && (chart == AgentChart ==> guard == (if scope == ClusterRole then Always else if scope == WorkspaceRole then UnownedOnHost else Unowned))
  }

  /** The template of one scope and action, as a chart spells it. */
  ghost predicate IsTemplate(t: RoleTemplate, chart: RoleTemplateChart, package: string, scope: RoleScope, action: RoleAction, r: RoleTemplateAggregates) {
    && Installs(chart, scope, t.guard)
    && t.name == ScopeWord(scope) + "-" + (if action == View then "view" else "manage") + "-" + package
    && t.category == ScopeWord(scope) + "-fe-management"
    && t.dependency == (if action == View then None else Some(ScopeWord(scope) + "-view-" + package))
    && t.aggregate == r.Get(scope, action) && t.aggregate.actionKeys != {}
  }

  /** A chart that emits exactly what it must holds one such template for each scope it installs and action with a key. */
  lemma TemplatesMean(chart: RoleTemplateChart, package: string, r: RoleTemplateAggregates, templates: seq<RoleTemplate>)
    requires EmitsExactly(chart, package, r, templates, {ClusterRole, WorkspaceRole, NamespaceRole})
    ensures forall t :: t in templates <==> exists scope, action :: IsTemplate(t, chart, package, scope, action, r)
  {
    hide EmitsExactly;
    forall t ensures t in templates <==> exists scope, action :: IsTemplate(t, chart, package, scope, action, r) {
      EmittedAt(chart, package, r, templates, t);
      forall scope, action {
        TemplateSpelled(chart, package, scope, action, r, t);
      }
    }
  }

  lemma EmittedAt(chart: RoleTemplateChart, package: string, r: RoleTemplateAggregates, templates: seq<RoleTemplate>, t: RoleTemplate)
    requires EmitsExactly(chart, package, r, templates, {ClusterRole, WorkspaceRole, NamespaceRole})
    ensures t in templates <==> exists scope, action :: IsEmitted(chart, package, scope, action, r, t)
  {
    hide TemplateOf;
    if t in templates {
      var scope, action :| Guard(chart, scope).Some? && r.Get(scope, action).actionKeys != {}
        && t == TemplateOf(package, scope, action, Guard(chart, scope).value, r.Get(scope, action));
      assert IsEmitted(chart, package, scope, action, r, t);
    }
    if scope, action :| IsEmitted(chart, package, scope, action, r, t) {
      assert scope in {ClusterRole, WorkspaceRole, NamespaceRole};
    }
  }

  ghost predicate IsEmitted(chart: RoleTemplateChart, package: string, scope: RoleScope, action: RoleAction, r: RoleTemplateAggregates, t: RoleTemplate) {
    Guard(chart, scope).Some? && r.Get(scope, action).actionKeys != {} && t == TemplateOf(package, scope, action, Guard(chart, scope).value, r.Get(scope, action))
  }

  lemma TemplateSpelled(chart: RoleTemplateChart, package: string, scope: RoleScope, action: RoleAction, r: RoleTemplateAggregates, t: RoleTemplate)
    ensures IsEmitted(chart, package, scope, action, r, t) <==> IsTemplate(t, chart, package, scope, action, r)
  {
    assert RoleName(scope, View, package) == ScopeWord(scope) + "-view-" + package;
    assert RoleName(scope, action, package) == ScopeWord(scope) + "-" + (if action == View then "view" else "manage") + "-" + package;
  }

  /** The category of a scope in which some page grants something, as the chart that installs it spells it. */
  ghost predicate IsCategory(c: string, chart: RoleTemplateChart, scope: RoleScope, pages: seq<ResolvedFrontendPage>) {
    && (chart == ExtensionChart ==> scope != ClusterRole)
    && (chart == AgentChart ==> scope != WorkspaceRole)
    && c == ScopeWord(scope) + "-fe-management"
    && exists action, key :: GrantedBy(pages, scope, action, key)
  }

  ghost predicate GrantedBy(pages: seq<ResolvedFrontendPage>, scope: RoleScope, action: RoleAction, key: string) {
    exists p :: p in pages && GrantsKey(p, scope, action, key)
  }

  lemma CategoriesMean(chart: RoleTemplateChart, pages: seq<ResolvedFrontendPage>, r: RoleTemplateAggregates, categories: seq<string>)
    requires Aggregates(r, Flatten(ContributionLists(pages)))
    requires forall c :: c in categories <==> exists s :: InstallsCategory(chart, s) && r.HasScope(s) && c == CategoryName(s)
    ensures forall c :: c in categories <==> exists scope :: IsCategory(c, chart, scope, pages)
  {
    hide Aggregates, GrantsKey, GrantedBy, IsCategory, InstallsCategory, CategoryName;
    forall scope ensures r.HasScope(scope) <==> exists action, key :: GrantedBy(pages, scope, action, key) {
      ScopeHasPages(pages, r, scope);
    }
    forall c ensures c in categories <==> exists scope :: IsCategory(c, chart, scope, pages) {
      forall scope { CategorySpelled(chart, pages, r, c, scope); }
    }
  }

  lemma CategorySpelled(chart: RoleTemplateChart, pages: seq<ResolvedFrontendPage>, r: RoleTemplateAggregates, c: string, scope: RoleScope)
    requires r.HasScope(scope) <==> exists action, key :: GrantedBy(pages, scope, action, key)
    ensures IsCategory(c, chart, scope, pages) <==> InstallsCategory(chart, scope) && r.HasScope(scope) && c == CategoryName(scope)
  {
    hide GrantedBy;
  }

  lemma ScopeHasPages(pages: seq<ResolvedFrontendPage>, r: RoleTemplateAggregates, scope: RoleScope)
    requires Aggregates(r, Flatten(ContributionLists(pages)))
    ensures r.HasScope(scope) <==> exists action, key :: GrantedBy(pages, scope, action, key)
  {
    hide Aggregates, GrantsKey, GrantsRule;
    AggregatesMean(pages, r, scope, View);
    AggregatesMean(pages, r, scope, Manage);
    if r.Get(scope, View).actionKeys != {} {
      var key :| key in r.Get(scope, View).actionKeys;
      assert GrantedBy(pages, scope, View, key);
    }
    if r.Get(scope, Manage).actionKeys != {} {
      var key :| key in r.Get(scope, Manage).actionKeys;
      assert GrantedBy(pages, scope, Manage, key);
    }
    if action, key :| GrantedBy(pages, scope, action, key) {
      assert key in r.Get(scope, action).actionKeys;
    }
  }

  /** Every Category a template of either chart refers to is installed by one of the two charts. */
  lemma CategoriesAreInstalled(
    chart: RoleTemplateChart, package: string, r: RoleTemplateAggregates,
    extension: ChartOutput, agent: ChartOutput, t: RoleTemplate)
    requires forall c :: c in extension.categories <==> exists s :: InstallsCategory(ExtensionChart, s) && r.HasScope(s) && c == CategoryName(s)
    requires forall c :: c in agent.categories <==> exists s :: InstallsCategory(AgentChart, s) && r.HasScope(s) && c == CategoryName(s)
    requires EmitsExactly(chart, package, r, (if chart.ExtensionChart? then extension else agent).templates, {ClusterRole, WorkspaceRole, NamespaceRole})
    requires t in (if chart.ExtensionChart? then extension else agent).templates
    ensures t.category in extension.categories || t.category in agent.categories
  {
    var scope, action :| Guard(chart, scope).Some? && r.Get(scope, action).actionKeys != {}
      && t == TemplateOf(package, scope, action, Guard(chart, scope).value, r.Get(scope, action));
    assert r.HasScope(scope);
    assert InstallsCategory(ExtensionChart, scope) || InstallsCategory(AgentChart, scope);
  }
}
