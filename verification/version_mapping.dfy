/**
 * Version-mapping coordinate resolution for published dependencies
 * (VersionMappingVariantDependencyResolver).
 *
 * A declared dependency is turned into the (group, name, version) written into
 * publication metadata. When a version-mapping resolution result is configured, the
 * resolver first looks the requested module up among the resolved components, then
 * among the resolved dependency edges; a project selected through an edge is
 * re-resolved through the project publication resolver. Without a match, a module
 * keeps its declared group and name and its declared version goes through the
 * declared-version transformer, while a project keeps its publication coordinates.
 */
module VersionMapping {
  import opened Wrappers

  /** The identity path of a project (a build unit) within a multi-project build. */
  type IdentityPath = string

  /** A module version identifier; also the shape of the resolved coordinates. */
  datatype Coordinates = Coordinates(group: string, name: string, version: string)

  /** The id of a resolved component: a project of this build, or anything else. */
  datatype ComponentId = ProjectComponentId(identityPath: IdentityPath) | OtherComponentId

  /** A node of the resolved graph; its module version may be absent. */
  datatype ResolvedComponent = ResolvedComponent(id: ComponentId, moduleVersion: Option<Coordinates>)

  /** What an edge of the graph asked for. */
  datatype ComponentSelector =
    | ModuleSelector(group: string, moduleName: string)
    | ProjectSelector(identityPath: IdentityPath)
    | OtherSelector

  /** An edge of the resolved graph: resolved to a selected component, or not resolved. */
  datatype DependencyResult =
    | ResolvedDependency(requested: ComponentSelector, selected: ResolvedComponent)
    | UnresolvedDependency(requested: ComponentSelector)

  /**
   * A snapshot of the version-mapping configuration's resolution result. The Java sets
   * have no specified iteration order; a sequence fixes one.
   */
  datatype ResolutionResult = ResolutionResult(components: seq<ResolvedComponent>, dependencies: seq<DependencyResult>)

  /**
   * The resolver's final fields: the project publication resolver, the optional
   * version-mapping configuration (None when it is null) and the declared-version
   * transformer. The two collaborators are opaque functions.
   */
  datatype Resolver = Resolver(
    publication: IdentityPath -> Coordinates,
    versionMapping: Option<ResolutionResult>,
    transformer: (string, string, Option<string>) -> string)

  /** A capability requested by a dependency. */
  datatype Capability = Capability(group: string, name: string, version: Option<string>)

  /** A declared dependency: on an external module, or on a project of this build. */
  datatype ModuleDependency =
    | ExternalModuleDependency(group: string, name: string, version: Option<string>,
                               attributes: map<string, string>, requestedCapabilities: set<Capability>)
    | ProjectDependency(identityPath: IdentityPath, group: string, name: string, version: Option<string>,
                        attributes: map<string, string>, requestedCapabilities: set<Capability>)

  /** A declared dependency constraint: on a module, or on a project of this build. */
  datatype DependencyConstraint =
    | ModuleConstraint(group: string, name: string, version: Option<string>, attributes: map<string, string>)
    | ProjectConstraint(identityPath: IdentityPath, group: string, name: string, version: Option<string>,
                        attributes: map<string, string>)

  // ---------------------------------------------------------------------------
  // The two linear searches of maybeResolveVersion
  // ---------------------------------------------------------------------------

  /** A component matches when it has a module version with the requested group and name. */
  predicate ComponentMatches(c: ResolvedComponent, group: string, moduleName: string) {
    c.moduleVersion.Some? && c.moduleVersion.value.group == group && c.moduleVersion.value.name == moduleName
  }

  /**
   * An edge matches when it is resolved and its selector is a module selector with the
   * requested group and module, or a project selector whose identity path equals the
   * requested one (a module lookup passes no path, so no project selector matches it).
   */
  predicate EdgeMatches(d: DependencyResult, group: string, moduleName: string, identityPath: Option<IdentityPath>) {
    d.ResolvedDependency? &&
    match d.requested
    case ModuleSelector(g, m) => g == group && m == moduleName
    case ProjectSelector(p) => identityPath == Some(p)
    case OtherSelector => false
  }

  /** The index of the first matching component, or |cs| when none matches. */
  function FirstMatchingComponent(cs: seq<ResolvedComponent>, group: string, moduleName: string): (k: nat)
    ensures k <= |cs|
    ensures k < |cs| ==> ComponentMatches(cs[k], group, moduleName)
    ensures forall j :: 0 <= j < k ==> !ComponentMatches(cs[j], group, moduleName)
  {
    if |cs| == 0 then 0
    else if ComponentMatches(cs[0], group, moduleName) then 0
    else 1 + FirstMatchingComponent(cs[1..], group, moduleName)
  }

  /** The index of the first matching edge, or |ds| when none matches. */
  function FirstMatchingDependency(ds: seq<DependencyResult>, group: string, moduleName: string,
                                   identityPath: Option<IdentityPath>): (k: nat)
    ensures k <= |ds|
    ensures k < |ds| ==> EdgeMatches(ds[k], group, moduleName, identityPath)
    ensures forall j :: 0 <= j < k ==> !EdgeMatches(ds[j], group, moduleName, identityPath)
  {
    if |ds| == 0 then 0
    else if EdgeMatches(ds[0], group, moduleName, identityPath) then 0
    else 1 + FirstMatchingDependency(ds[1..], group, moduleName, identityPath)
  }

  /**
   * getModuleVersionId: a selected project is replaced by its publication identity;
   * any other component gives its own (possibly absent) module version.
   */
  function ModuleVersionId(r: Resolver, selected: ResolvedComponent): Option<Coordinates> {
    match selected.id
    case ProjectComponentId(p) => Some(r.publication(p))
    case OtherComponentId => selected.moduleVersion
  }

  /**
   * What maybeResolveVersion returns: nothing without a mapping configuration; else the
   * module version of the first matching component, as it is; else, for the first
   * matching edge, the module version id of its selected component; else nothing.
   */
  function MappedVersion(r: Resolver, group: string, moduleName: string, identityPath: Option<IdentityPath>): Option<Coordinates> {
    match r.versionMapping
    case None => None
    case Some(graph) =>
      var k := FirstMatchingComponent(graph.components, group, moduleName);
      if k < |graph.components| then graph.components[k].moduleVersion
      else
        var e := FirstMatchingDependency(graph.dependencies, group, moduleName, identityPath);
        if e < |graph.dependencies| then ModuleVersionId(r, graph.dependencies[e].selected) else None
  }

  /** maybeResolveVersion: the two scans, each returning on its first match. */
  method MaybeResolveVersion(r: Resolver, group: string, moduleName: string, identityPath: Option<IdentityPath>)
    returns (resolved: Option<Coordinates>)
    ensures resolved == MappedVersion(r, group, moduleName, identityPath)
  {
    if r.versionMapping.None? {
      return None;
    }
    var graph := r.versionMapping.value;
    var components := graph.components;
    for i := 0 to |components|
      invariant forall j :: 0 <= j < i ==> !ComponentMatches(components[j], group, moduleName)
    {
      var moduleVersion := components[i].moduleVersion;
      if moduleVersion.Some? && group == moduleVersion.value.group && moduleName == moduleVersion.value.name {
        return moduleVersion;
      }
    }
    var dependencies := graph.dependencies;
    for i := 0 to |dependencies|
      invariant forall j :: 0 <= j < i ==> !EdgeMatches(dependencies[j], group, moduleName, identityPath)
    {
      var dependency := dependencies[i];
      if dependency.ResolvedDependency? {
        match dependency.requested
        case ModuleSelector(g, m) =>
          if g == group && m == moduleName {
            return ModuleVersionId(r, dependency.selected);
          }
        case ProjectSelector(p) =>
          if identityPath == Some(p) {
            return ModuleVersionId(r, dependency.selected);
          }
        case OtherSelector =>
      }
    }
    return None;
  }

  // ---------------------------------------------------------------------------
  // Resolution of modules and projects, and the dispatch on the dependency's kind
  // ---------------------------------------------------------------------------

  /** resolveModule: the mapped coordinates, or the declared ones with a transformed version. */
  function ResolveModule(r: Resolver, group: string, name: string, declaredVersion: Option<string>): Coordinates {
    match MappedVersion(r, group, name, None)
    case Some(resolved) => resolved
    case None => Coordinates(group, name, r.transformer(group, name, declaredVersion))
  }

  /** resolveProject: the mapped coordinates of the project's publication, or that publication. */
  function ResolveProject(r: Resolver, identityPath: IdentityPath): Coordinates {
    var coordinates := r.publication(identityPath);
    match MappedVersion(r, coordinates.group, coordinates.name, Some(identityPath))
    case Some(resolved) => resolved
    case None => coordinates
  }

  /** resolveComponentCoordinates for a module dependency. */
  function ResolveComponentCoordinates(r: Resolver, dependency: ModuleDependency): Coordinates {
    match dependency
    case ProjectDependency(identityPath, _, _, _, _, _) => ResolveProject(r, identityPath)
    case ExternalModuleDependency(group, name, version, _, _) => ResolveModule(r, group, name, version)
  }

  /** resolveComponentCoordinates for a dependency constraint. */
  function ResolveConstraintCoordinates(r: Resolver, constraint: DependencyConstraint): Coordinates {
    match constraint
    case ProjectConstraint(identityPath, _, _, _, _) => ResolveProject(r, identityPath)
    case ModuleConstraint(group, name, version, _) => ResolveModule(r, group, name, version)
  }

  // ---------------------------------------------------------------------------
  // Warnings for what this resolver cannot honour
  // ---------------------------------------------------------------------------

  /** "group:name:version", with an absent version printed as "null" (String.format's "%s"). */
  function DeclaredText(group: string, name: string, version: Option<string>): string {
    group + ":" + name + ":" + version.GetOr("null")
  }

  function AttributesWarning(group: string, name: string, version: Option<string>): string {
    DeclaredText(group, name, version) + " declared with Gradle attributes"
  }

  function CapabilitiesWarning(group: string, name: string, version: Option<string>): string {
    DeclaredText(group, name, version) + " declared with Gradle capabilities"
  }

  /** The attributes and capabilities warnings differ, whatever the dependency. */
  lemma WarningsDiffer(group: string, name: string, version: Option<string>)
    ensures AttributesWarning(group, name, version) != CapabilitiesWarning(group, name, version)
  {
  }

  /**
   * The warnings resolveVariantCoordinates adds for a module dependency: the attributes
   * warning iff it has attributes, then the capabilities warning iff it requests
   * capabilities, each starting with the declared "group:name:version".
   */
  function DependencyWarnings(d: ModuleDependency): (w: seq<string>)
    ensures |w| == (if |d.attributes| > 0 then 1 else 0) + (if |d.requestedCapabilities| > 0 then 1 else 0)
    ensures AttributesWarning(d.group, d.name, d.version) in w <==> |d.attributes| > 0
    ensures CapabilitiesWarning(d.group, d.name, d.version) in w <==> |d.requestedCapabilities| > 0
    ensures |w| == 2 ==> w[0] == AttributesWarning(d.group, d.name, d.version)
    ensures forall m <- w :: DeclaredText(d.group, d.name, d.version) <= m
  {
    WarningsDiffer(d.group, d.name, d.version);
    (if |d.attributes| > 0 then [AttributesWarning(d.group, d.name, d.version)] else []) +
    (if |d.requestedCapabilities| > 0 then [CapabilitiesWarning(d.group, d.name, d.version)] else [])
  }

  /** The warnings resolveVariantCoordinates adds for a constraint: at most the attributes one. */
  function ConstraintWarnings(c: DependencyConstraint): (w: seq<string>)
    ensures |w| <= 1
    ensures w == [] <==> |c.attributes| == 0
    ensures forall m <- w :: m == AttributesWarning(c.group, c.name, c.version)
  {
    if |c.attributes| > 0 then [AttributesWarning(c.group, c.name, c.version)] else []
  }

  /** The variant warning collector of one resolution pass: an append-only list of messages. */
  class WarningCollector {
    var unsupported: seq<string>

    constructor ()
      ensures unsupported == []
    {
      unsupported := [];
    }

    method AddUnsupported(message: string)
      modifies this
      ensures unsupported == old(unsupported) + [message]
    {
      unsupported := unsupported + [message];
    }
  }

  /** resolveVariantCoordinates for a module dependency: warn, then resolve at component level. */
  method ResolveVariantCoordinates(r: Resolver, dependency: ModuleDependency, warnings: WarningCollector)
    returns (coordinates: Coordinates)
    modifies warnings
    ensures warnings.unsupported == old(warnings.unsupported) + DependencyWarnings(dependency)
    ensures coordinates == ResolveComponentCoordinates(r, dependency)
  {
    if |dependency.attributes| > 0 {
      warnings.AddUnsupported(AttributesWarning(dependency.group, dependency.name, dependency.version));
    }
    if |dependency.requestedCapabilities| > 0 {
      warnings.AddUnsupported(CapabilitiesWarning(dependency.group, dependency.name, dependency.version));
    }
    coordinates := ResolveComponentCoordinates(r, dependency);
  }

  /** resolveVariantCoordinates for a dependency constraint: only attributes can be warned about. */
  method ResolveConstraintVariantCoordinates(r: Resolver, constraint: DependencyConstraint, warnings: WarningCollector)
    returns (coordinates: Coordinates)
    modifies warnings
    ensures warnings.unsupported == old(warnings.unsupported) + ConstraintWarnings(constraint)
    ensures coordinates == ResolveConstraintCoordinates(r, constraint)
  {
    if |constraint.attributes| > 0 {
      warnings.AddUnsupported(AttributesWarning(constraint.group, constraint.name, constraint.version));
    }
    coordinates := ResolveConstraintCoordinates(r, constraint);
  }

  // ---------------------------------------------------------------------------
  // Properties of the lookup
  // ---------------------------------------------------------------------------

  /**
   * Direct scan: the first component carrying the requested group and name decides the
   * result, which is that component's own module version, even when the component is a
   * project: no publication re-resolution happens on this path.
   */
  lemma DirectHit(r: Resolver, group: string, moduleName: string, identityPath: Option<IdentityPath>, i: nat)
    requires r.versionMapping.Some?
    requires i < |r.versionMapping.value.components|
    requires ComponentMatches(r.versionMapping.value.components[i], group, moduleName)
    requires forall j :: 0 <= j < i ==> !ComponentMatches(r.versionMapping.value.components[j], group, moduleName)
    ensures MappedVersion(r, group, moduleName, identityPath) == r.versionMapping.value.components[i].moduleVersion
  {
  }

  /** With at most one component per (group, name), any matching component is the one found. */
  lemma UniqueComponentHit(r: Resolver, group: string, moduleName: string, identityPath: Option<IdentityPath>, i: nat)
    requires r.versionMapping.Some?
    requires var cs := r.versionMapping.value.components;
      forall a, b :: 0 <= a < b < |cs| && ComponentMatches(cs[a], group, moduleName) ==> !ComponentMatches(cs[b], group, moduleName)
    requires i < |r.versionMapping.value.components|
    requires ComponentMatches(r.versionMapping.value.components[i], group, moduleName)
    ensures MappedVersion(r, group, moduleName, identityPath) == r.versionMapping.value.components[i].moduleVersion
  {
  }

  /**
   * Edge fallback: when no component matches, the first resolved edge whose selector
   * matches decides: a selected project gives its publication coordinates, any other
   * selected component its own module version, which may be absent (and then the lookup
   * ends with nothing, whatever later edges hold).
   */
  lemma EdgeFallback(r: Resolver, group: string, moduleName: string, identityPath: Option<IdentityPath>, e: nat)
    requires r.versionMapping.Some?
    requires forall j :: 0 <= j < |r.versionMapping.value.components| ==>
      !ComponentMatches(r.versionMapping.value.components[j], group, moduleName)
    requires e < |r.versionMapping.value.dependencies|
    requires EdgeMatches(r.versionMapping.value.dependencies[e], group, moduleName, identityPath)
    requires forall j :: 0 <= j < e ==> !EdgeMatches(r.versionMapping.value.dependencies[j], group, moduleName, identityPath)
    ensures var selected := r.versionMapping.value.dependencies[e].selected;
      && (selected.id.ProjectComponentId? ==> MappedVersion(r, group, moduleName, identityPath) == Some(r.publication(selected.id.identityPath)))
      && (selected.id.OtherComponentId? ==> MappedVersion(r, group, moduleName, identityPath) == selected.moduleVersion)
  {
  }

  /** With no matching component and no matching edge, the lookup yields nothing. */
  lemma NoMatchNoVersion(r: Resolver, group: string, moduleName: string, identityPath: Option<IdentityPath>)
    requires r.versionMapping.Some?
    requires forall j :: 0 <= j < |r.versionMapping.value.components| ==>
      !ComponentMatches(r.versionMapping.value.components[j], group, moduleName)
    requires forall j :: 0 <= j < |r.versionMapping.value.dependencies| ==>
      !EdgeMatches(r.versionMapping.value.dependencies[j], group, moduleName, identityPath)
    ensures MappedVersion(r, group, moduleName, identityPath) == None
  {
  }

  /**
   * Whenever the lookup yields coordinates, some component carries exactly them and
   * matches, or some matching edge selected them (as a project publication or as the
   * selected component's module version).
   */
  lemma MappedVersionHasWitness(r: Resolver, group: string, moduleName: string, identityPath: Option<IdentityPath>)
    requires MappedVersion(r, group, moduleName, identityPath).Some?
    ensures r.versionMapping.Some?
    ensures var graph := r.versionMapping.value; var c := MappedVersion(r, group, moduleName, identityPath).value;
      || (exists i :: 0 <= i < |graph.components| && ComponentMatches(graph.components[i], group, moduleName)
                      && graph.components[i].moduleVersion == Some(c))
      || (exists e :: 0 <= e < |graph.dependencies| && EdgeMatches(graph.dependencies[e], group, moduleName, identityPath)
                      && ModuleVersionId(r, graph.dependencies[e].selected) == Some(c))
  {
  }

  /** The resolved edges with a module selector: the only edges a module lookup can match. */
  function ModuleEdges(ds: seq<DependencyResult>): (fs: seq<DependencyResult>)
    ensures forall d <- fs :: d in ds && d.ResolvedDependency? && d.requested.ModuleSelector?
  {
    if |ds| == 0 then []
    else
      var keep := ds[0].ResolvedDependency? && ds[0].requested.ModuleSelector?;
      (if keep then [ds[0]] else []) + ModuleEdges(ds[1..])
  }

  lemma {:induction false} FirstModuleEdgePreserved(ds: seq<DependencyResult>, group: string, moduleName: string)
    ensures var k := FirstMatchingDependency(ds, group, moduleName, None);
      var fs := ModuleEdges(ds);
      var kf := FirstMatchingDependency(fs, group, moduleName, None);
      (k < |ds| <==> kf < |fs|) && (k < |ds| ==> ds[k] == fs[kf])
  {
    if |ds| > 0 {
      FirstModuleEdgePreserved(ds[1..], group, moduleName);
      var keep := ds[0].ResolvedDependency? && ds[0].requested.ModuleSelector?;
      var rest := ModuleEdges(ds[1..]);
      if keep {
        assert ModuleEdges(ds) == [ds[0]] + rest;
        assert ModuleEdges(ds)[1..] == rest;
      } else {
        assert ModuleEdges(ds) == rest;
      }
    }
  }

  /**
   * A module lookup (no identity path) ignores unresolved edges and edges with project or
   * other selectors: dropping them all leaves its result unchanged.
   */
  lemma ModuleLookupSeesOnlyModuleEdges(r: Resolver, group: string, moduleName: string)
    requires r.versionMapping.Some?
    ensures var graph := r.versionMapping.value;
      var pruned := r.(versionMapping := Some(graph.(dependencies := ModuleEdges(graph.dependencies))));
      MappedVersion(r, group, moduleName, None) == MappedVersion(pruned, group, moduleName, None)
  {
    FirstModuleEdgePreserved(r.versionMapping.value.dependencies, group, moduleName);
  }

  // ---------------------------------------------------------------------------
  // Properties of module and project resolution
  // ---------------------------------------------------------------------------

  /** Without a version-mapping configuration, a module keeps its group and name and the
    * transformer decides its version. */
  lemma ResolveModuleWithoutMapping(r: Resolver, group: string, name: string, declaredVersion: Option<string>)
    requires r.versionMapping.None?
    ensures ResolveModule(r, group, name, declaredVersion) == Coordinates(group, name, r.transformer(group, name, declaredVersion))
  {
  }

  /** A module present in the graph resolves to that component's coordinates, whatever
    * version was declared. */
  lemma ResolveModuleMappedComponent(r: Resolver, group: string, name: string, declaredVersion: Option<string>, i: nat)
    requires r.versionMapping.Some?
    requires i < |r.versionMapping.value.components|
    requires ComponentMatches(r.versionMapping.value.components[i], group, name)
    requires forall j :: 0 <= j < i ==> !ComponentMatches(r.versionMapping.value.components[j], group, name)
    ensures var c := ResolveModule(r, group, name, declaredVersion);
      Some(c) == r.versionMapping.value.components[i].moduleVersion && c.group == group && c.name == name
  {
  }

  /**
   * A module absent from the components but requested by the first matching edge resolves
   * to the selected project's publication, or to the selected component's module version;
   * when that version is absent it falls back to the declared coordinates.
   */
  lemma ResolveModuleThroughEdge(r: Resolver, group: string, name: string, declaredVersion: Option<string>, e: nat)
    requires r.versionMapping.Some?
    requires forall j :: 0 <= j < |r.versionMapping.value.components| ==>
      !ComponentMatches(r.versionMapping.value.components[j], group, name)
    requires e < |r.versionMapping.value.dependencies|
    requires EdgeMatches(r.versionMapping.value.dependencies[e], group, name, None)
    requires forall j :: 0 <= j < e ==> !EdgeMatches(r.versionMapping.value.dependencies[j], group, name, None)
    ensures var selected := r.versionMapping.value.dependencies[e].selected;
      var c := ResolveModule(r, group, name, declaredVersion);
      && r.versionMapping.value.dependencies[e].requested == ModuleSelector(group, name)
      && (selected.id.ProjectComponentId? ==> c == r.publication(selected.id.identityPath))
      && (selected.id.OtherComponentId? && selected.moduleVersion.Some? ==> c == selected.moduleVersion.value)
      && (selected.id.OtherComponentId? && selected.moduleVersion.None? ==>
            c == Coordinates(group, name, r.transformer(group, name, declaredVersion)))
  {
  }

  /** With nothing matching in the graph, the declared group and name are kept and the
    * transformer decides the version. */
  lemma ResolveModuleUnmatched(r: Resolver, group: string, name: string, declaredVersion: Option<string>)
    requires r.versionMapping.Some?
    requires forall j :: 0 <= j < |r.versionMapping.value.components| ==>
      !ComponentMatches(r.versionMapping.value.components[j], group, name)
    requires forall j :: 0 <= j < |r.versionMapping.value.dependencies| ==>
      !EdgeMatches(r.versionMapping.value.dependencies[j], group, name, None)
    ensures ResolveModule(r, group, name, declaredVersion) == Coordinates(group, name, r.transformer(group, name, declaredVersion))
  {
  }

  /** Without a version-mapping configuration, a project resolves to its publication. */
  lemma ResolveProjectWithoutMapping(r: Resolver, identityPath: IdentityPath)
    requires r.versionMapping.None?
    ensures ResolveProject(r, identityPath) == r.publication(identityPath)
  {
  }

  /** A project whose publication coordinates nothing in the graph matches resolves to
    * exactly those publication coordinates. */
  lemma ResolveProjectUnmatched(r: Resolver, identityPath: IdentityPath)
    requires r.versionMapping.Some?
    requires var p := r.publication(identityPath);
      forall j :: 0 <= j < |r.versionMapping.value.components| ==>
        !ComponentMatches(r.versionMapping.value.components[j], p.group, p.name)
    requires var p := r.publication(identityPath);
      forall j :: 0 <= j < |r.versionMapping.value.dependencies| ==>
        !EdgeMatches(r.versionMapping.value.dependencies[j], p.group, p.name, Some(identityPath))
    ensures ResolveProject(r, identityPath) == r.publication(identityPath)
  {
  }

  /**
   * A project whose publication coordinates are carried by a component: the first such
   * component's own module version is the result, with no further publication lookup.
   */
  lemma ResolveProjectMappedComponent(r: Resolver, identityPath: IdentityPath, i: nat)
    requires r.versionMapping.Some?
    requires i < |r.versionMapping.value.components|
    requires var p := r.publication(identityPath);
      ComponentMatches(r.versionMapping.value.components[i], p.group, p.name)
    requires var p := r.publication(identityPath);
      forall j :: 0 <= j < i ==> !ComponentMatches(r.versionMapping.value.components[j], p.group, p.name)
    ensures var p := r.publication(identityPath); var c := ResolveProject(r, identityPath);
      Some(c) == r.versionMapping.value.components[i].moduleVersion && c.group == p.group && c.name == p.name
  {
    var p := r.publication(identityPath);
    DirectHit(r, p.group, p.name, Some(identityPath), i);
  }

  /**
   * A project whose publication coordinates no component carries, with a first matching edge
   * (a module selector on those coordinates, or a project selector on its identity path):
   * a selected project gives that project's publication, any other selection its own module
   * version, and an absent module version leaves the raw publication coordinates.
   */
  lemma ResolveProjectThroughEdge(r: Resolver, identityPath: IdentityPath, e: nat)
    requires r.versionMapping.Some?
    requires var p := r.publication(identityPath);
      forall j :: 0 <= j < |r.versionMapping.value.components| ==>
        !ComponentMatches(r.versionMapping.value.components[j], p.group, p.name)
    requires e < |r.versionMapping.value.dependencies|
    requires var p := r.publication(identityPath);
      EdgeMatches(r.versionMapping.value.dependencies[e], p.group, p.name, Some(identityPath))
    requires var p := r.publication(identityPath);
      forall j :: 0 <= j < e ==> !EdgeMatches(r.versionMapping.value.dependencies[j], p.group, p.name, Some(identityPath))
    ensures var selected := r.versionMapping.value.dependencies[e].selected;
      var c := ResolveProject(r, identityPath);
      && (selected.id.ProjectComponentId? ==> c == r.publication(selected.id.identityPath))
      && (selected.id.OtherComponentId? && selected.moduleVersion.Some? ==> c == selected.moduleVersion.value)
      && (selected.id.OtherComponentId? && selected.moduleVersion.None? ==> c == r.publication(identityPath))
  {
    var p := r.publication(identityPath);
    EdgeFallback(r, p.group, p.name, Some(identityPath), e);
  }

  /**
   * A project substituted in the graph: when no component carries its publication
   * coordinates and the first matching edge is a project selector for its identity path
   * that selected a project, the result is that selected project's publication.
   */
  lemma ResolveProjectThroughProjectEdge(r: Resolver, identityPath: IdentityPath, e: nat)
    requires r.versionMapping.Some?
    requires var p := r.publication(identityPath);
      forall j :: 0 <= j < |r.versionMapping.value.components| ==>
        !ComponentMatches(r.versionMapping.value.components[j], p.group, p.name)
    requires e < |r.versionMapping.value.dependencies|
    requires r.versionMapping.value.dependencies[e].ResolvedDependency?
    requires r.versionMapping.value.dependencies[e].requested == ProjectSelector(identityPath)
    requires r.versionMapping.value.dependencies[e].selected.id.ProjectComponentId?
    requires var p := r.publication(identityPath);
      forall j :: 0 <= j < e ==> !EdgeMatches(r.versionMapping.value.dependencies[j], p.group, p.name, Some(identityPath))
    ensures ResolveProject(r, identityPath) == r.publication(r.versionMapping.value.dependencies[e].selected.id.identityPath)
  {
  }

  // ---------------------------------------------------------------------------
  // Properties of the dispatch
  // ---------------------------------------------------------------------------

  /** A project dependency is resolved from its identity path alone: its declared group,
    * name, version, attributes and capabilities play no part. */
  lemma ProjectDependencyIgnoresDeclaredCoordinates(r: Resolver, d1: ModuleDependency, d2: ModuleDependency)
    requires d1.ProjectDependency? && d2.ProjectDependency? && d1.identityPath == d2.identityPath
    ensures ResolveComponentCoordinates(r, d1) == ResolveComponentCoordinates(r, d2)
    ensures ResolveComponentCoordinates(r, d1) == ResolveProject(r, d1.identityPath)
  {
  }

  /** An external dependency and a module constraint on the same declared coordinates
    * resolve alike, as do a project dependency and a project constraint on one path. */
  lemma ConstraintsResolveLikeDependencies(r: Resolver, d: ModuleDependency, c: DependencyConstraint)
    requires d.ExternalModuleDependency? == c.ModuleConstraint?
    requires d.ExternalModuleDependency? ==> d.group == c.group && d.name == c.name && d.version == c.version
    requires d.ProjectDependency? ==> d.identityPath == c.identityPath
    ensures ResolveConstraintCoordinates(r, c) == ResolveComponentCoordinates(r, d)
  {
  }

  /** An external dependency resolves exactly as resolveModule does on its declared group,
    * name and version, whatever attributes and capabilities it carries. */
  lemma ExternalDependencyResolvesAsModule(r: Resolver, d: ModuleDependency)
    requires d.ExternalModuleDependency?
    ensures ResolveComponentCoordinates(r, d) == ResolveModule(r, d.group, d.name, d.version)
    ensures ResolveComponentCoordinates(r, d) ==
      ResolveComponentCoordinates(r, ExternalModuleDependency(d.group, d.name, d.version, map[], {}))
  {
  }
}
