# Gradle publication coordinates, build-identifier codec, problem attributes and wrapper URL hook

A Dafny model of four pieces of a Gradle fork:

- **Version-mapping coordinate resolution** (`version_mapping.dfy`, module `VersionMapping`).
  When a publication is generated, each declared dependency or dependency constraint gets the
  `(group, name, version)` written into the metadata. Without a version-mapping configuration,
  a module keeps its declared group and name, and the declared-version transformer picks its
  version. A project gets the coordinates its publication resolver gives. With a configuration,
  `maybeResolveVersion` looks in its resolution result. It first scans the resolved components
  for one with the requested group and name. It then scans the resolved dependency edges for
  one that requested the module, or requested the project's identity path. A project selected
  through an edge is replaced by its publication coordinates. Unsupported attributes and
  capabilities produce warnings in a collector.
  - The lookup is a specification function, `MappedVersion`. It is built on first-match index
    functions whose contracts fix the first matching index.
  - The two Java loops are the method `MaybeResolveVersion`, proved equal to `MappedVersion`.
  - The warning collector is a class whose list of messages the variant-resolution methods
    extend.
- **Build identifier serialization** (`build_identifier_serializer.dfy`). Write emits the
  build name and then the "is current build" flag. Read consumes a string and then a boolean,
  and rebuilds the current-build or the foreign-build identifier. The encoder and decoder are
  classes over a sequence of typed tokens. The round trip is proved in both directions.
- **Problem event attributes** (`problem_event.dfy`). The event record, and
  `createRawAttributes`, which flattens a problem into a string map:
  - fixed keys for the id, message, severity, path, line, documentation link and description;
  - `solution1` … `solutionN` for the solutions, in order.

  `Integer.toString` is modelled concretely, so the solution keys are proved pairwise distinct
  and distinct from the fixed keys.
- **Wrapper distribution URL hook** (`wrapper_executor_hook.dfy`). It picks the Gradle
  distribution URL:
  - on Jenkins, from a wrapper property;
  - elsewhere, from a JSON or `.properties` config file found three directories above the
    wrapper properties file.

  A candidate is accepted only if it starts with `http` and ends with `.zip`. Otherwise the
  original URL is kept.

Java `null` is `Option.None`, and a thrown exception is a `Result.Failure` (`wrappers.dfy`).

A project component found by the component scan is returned with its own module version
(`VersionMappingVariantDependencyResolver.java:130`); only a component selected through an
edge goes through `getModuleVersionId` (lines 146, 151 and 160-168). `DirectHit` states this.

## Model

Source paths are relative to the repository root.

| member | source | states |
|---|---|---|
| VersionMapping.FirstMatchingComponent | subprojects/publish/src/main/java/org/gradle/api/publish/internal/mapping/VersionMappingVariantDependencyResolver.java:126-132 | the index found is the first component with a module version of the requested group and name, or the length when there is none |
| VersionMapping.FirstMatchingDependency | subprojects/publish/src/main/java/org/gradle/api/publish/internal/mapping/VersionMappingVariantDependencyResolver.java:138-155 | the index found is the first resolved edge whose module selector has the requested group and module, or whose project selector has the requested identity path; the length when there is none |
| VersionMapping.MaybeResolveVersion | subprojects/publish/src/main/java/org/gradle/api/publish/internal/mapping/VersionMappingVariantDependencyResolver.java:117-158 | the two scans, each returning at its first match, compute the lookup `MappedVersion`: nothing without a configuration, else the first matching component's version, else the first matching edge's selection, else nothing |
| VersionMapping.MappedVersion | subprojects/publish/src/main/java/org/gradle/api/publish/internal/mapping/VersionMappingVariantDependencyResolver.java:117-158 | no contract of its own: the specification of the lookup; `MaybeResolveVersion` is proved to compute it, and `DirectHit`, `EdgeFallback`, `NoMatchNoVersion` and `MappedVersionHasWitness` pin down each outcome |
| VersionMapping.ModuleVersionId | subprojects/publish/src/main/java/org/gradle/api/publish/internal/mapping/VersionMappingVariantDependencyResolver.java:160-168 | no contract of its own: a selected project gives its publication coordinates, anything else its own module version, as `EdgeFallback` states |
| VersionMapping.DirectHit | subprojects/publish/src/main/java/org/gradle/api/publish/internal/mapping/VersionMappingVariantDependencyResolver.java:126-132 | the first matching component decides the lookup, and its own module version is returned even for a project component |
| VersionMapping.UniqueComponentHit | subprojects/publish/src/main/java/org/gradle/api/publish/internal/mapping/VersionMappingVariantDependencyResolver.java:126-132 | when at most one component carries the requested group and name, any matching component's version is the result |
| VersionMapping.EdgeFallback | subprojects/publish/src/main/java/org/gradle/api/publish/internal/mapping/VersionMappingVariantDependencyResolver.java:138-168 | when no component matches, the first matching edge decides: a selected project gives its publication coordinates, any other selection gives its own (possibly absent) module version |
| VersionMapping.NoMatchNoVersion | subprojects/publish/src/main/java/org/gradle/api/publish/internal/mapping/VersionMappingVariantDependencyResolver.java:117-158 | with no matching component and no matching edge, the lookup gives nothing |
| VersionMapping.MappedVersionHasWitness | subprojects/publish/src/main/java/org/gradle/api/publish/internal/mapping/VersionMappingVariantDependencyResolver.java:117-168 | any coordinates the lookup gives come from a matching component carrying them, or from a matching edge whose selection maps to them |
| VersionMapping.FirstModuleEdgePreserved | subprojects/publish/src/main/java/org/gradle/api/publish/internal/mapping/VersionMappingVariantDependencyResolver.java:139-155 | for a module lookup, the first matching edge is found at the same edge after unresolved, project-selector and other-selector edges are removed |
| VersionMapping.ModuleLookupSeesOnlyModuleEdges | subprojects/publish/src/main/java/org/gradle/api/publish/internal/mapping/VersionMappingVariantDependencyResolver.java:110-111 | a module lookup (null identity path) gives the same result when the graph keeps only resolved edges with module selectors |
| VersionMapping.ResolveModuleWithoutMapping | subprojects/publish/src/main/java/org/gradle/api/publish/internal/mapping/VersionMappingVariantDependencyResolver.java:110-121 | without a version-mapping configuration, a module keeps its group and name and its version is the transformer's |
| VersionMapping.ResolveModuleMappedComponent | subprojects/publish/src/main/java/org/gradle/api/publish/internal/mapping/VersionMappingVariantDependencyResolver.java:110-115 | a module present as a component resolves to that component's coordinates, which have the requested group and name, whatever version was declared |
| VersionMapping.ResolveModuleThroughEdge | subprojects/publish/src/main/java/org/gradle/api/publish/internal/mapping/VersionMappingVariantDependencyResolver.java:110-115 | a module found only through an edge resolves to the selected project's publication, or the selected component's version, or the declared coordinates with the transformed version when that version is absent |
| VersionMapping.ResolveModuleUnmatched | subprojects/publish/src/main/java/org/gradle/api/publish/internal/mapping/VersionMappingVariantDependencyResolver.java:110-115 | with nothing matching in the graph, a module keeps its group and name and its version is the transformer's |
| VersionMapping.ResolveModule | subprojects/publish/src/main/java/org/gradle/api/publish/internal/mapping/VersionMappingVariantDependencyResolver.java:110-115 | no contract of its own: `ResolveModuleWithoutMapping`, `ResolveModuleMappedComponent`, `ResolveModuleThroughEdge` and `ResolveModuleUnmatched` give its result in every case |
| VersionMapping.ResolveProject | subprojects/publish/src/main/java/org/gradle/api/publish/internal/mapping/VersionMappingVariantDependencyResolver.java:103-108 | no contract of its own: `ResolveProjectWithoutMapping`, `ResolveProjectMappedComponent`, `ResolveProjectThroughEdge` and `ResolveProjectUnmatched` give its result in every case (no configuration, component hit, edge hit, no match) |
| VersionMapping.ResolveComponentCoordinates | subprojects/publish/src/main/java/org/gradle/api/publish/internal/mapping/VersionMappingVariantDependencyResolver.java:87-93 | no contract of its own: `ProjectDependencyIgnoresDeclaredCoordinates` and `ExternalDependencyResolvesAsModule` state the dispatch on the dependency's kind |
| VersionMapping.ResolveConstraintCoordinates | subprojects/publish/src/main/java/org/gradle/api/publish/internal/mapping/VersionMappingVariantDependencyResolver.java:95-101 | no contract of its own: `ConstraintsResolveLikeDependencies` states it dispatches as the dependency overload does |
| VersionMapping.ResolveProjectWithoutMapping | subprojects/publish/src/main/java/org/gradle/api/publish/internal/mapping/VersionMappingVariantDependencyResolver.java:103-108 | without a configuration, a project resolves to exactly its publication coordinates |
| VersionMapping.ResolveProjectUnmatched | subprojects/publish/src/main/java/org/gradle/api/publish/internal/mapping/VersionMappingVariantDependencyResolver.java:103-108 | a project whose publication coordinates and identity path match nothing in the graph keeps its publication coordinates |
| VersionMapping.ResolveProjectMappedComponent | subprojects/publish/src/main/java/org/gradle/api/publish/internal/mapping/VersionMappingVariantDependencyResolver.java:103-108 | a project whose publication coordinates a component carries resolves to the first such component's own module version, which has the publication's group and name |
| VersionMapping.ResolveProjectThroughEdge | subprojects/publish/src/main/java/org/gradle/api/publish/internal/mapping/VersionMappingVariantDependencyResolver.java:103-108 | with no component carrying the publication coordinates, the first matching edge (module selector on those coordinates or project selector on the path) gives the selected project's publication, or the selected component's version, or the raw publication coordinates when that version is absent |
| VersionMapping.ResolveProjectThroughProjectEdge | subprojects/publish/src/main/java/org/gradle/api/publish/internal/mapping/VersionMappingVariantDependencyResolver.java:103-108 | a project substituted in the graph (first matching edge is its project selector and selected a project) resolves to the selected project's publication |
| VersionMapping.ProjectDependencyIgnoresDeclaredCoordinates | subprojects/publish/src/main/java/org/gradle/api/publish/internal/mapping/VersionMappingVariantDependencyResolver.java:87-93 | a project dependency resolves from its identity path alone, through resolveProject |
| VersionMapping.ExternalDependencyResolvesAsModule | subprojects/publish/src/main/java/org/gradle/api/publish/internal/mapping/VersionMappingVariantDependencyResolver.java:87-93 | an external dependency resolves as resolveModule on its declared group, name and version, independent of its attributes and capabilities |
| VersionMapping.ConstraintsResolveLikeDependencies | subprojects/publish/src/main/java/org/gradle/api/publish/internal/mapping/VersionMappingVariantDependencyResolver.java:95-101 | a module constraint resolves like an external dependency on the same coordinates, and a project constraint like a project dependency on the same path |
| VersionMapping.WarningsDiffer | subprojects/publish/src/main/java/org/gradle/api/publish/internal/mapping/VersionMappingVariantDependencyResolver.java:64-69 | the attributes warning and the capabilities warning for the same dependency are different messages |
| VersionMapping.DependencyWarnings | subprojects/publish/src/main/java/org/gradle/api/publish/internal/mapping/VersionMappingVariantDependencyResolver.java:63-70 | the attributes warning is present iff the dependency has attributes, the capabilities warning iff it requests capabilities, attributes first, each starting with "group:name:version" |
| VersionMapping.ConstraintWarnings | subprojects/publish/src/main/java/org/gradle/api/publish/internal/mapping/VersionMappingVariantDependencyResolver.java:77-80 | a constraint gets the attributes warning iff it has attributes, and no other warning |
| VersionMapping.DeclaredText | subprojects/publish/src/main/java/org/gradle/api/publish/internal/mapping/VersionMappingVariantDependencyResolver.java:65 | no contract of its own: "group:name:version", an absent version printed as "null"; `DependencyWarnings` states every warning starts with it |
| VersionMapping.AttributesWarning | subprojects/publish/src/main/java/org/gradle/api/publish/internal/mapping/VersionMappingVariantDependencyResolver.java:64-66 | no contract of its own: the declared text followed by " declared with Gradle attributes"; `WarningsDiffer` separates it from the capabilities warning |
| VersionMapping.CapabilitiesWarning | subprojects/publish/src/main/java/org/gradle/api/publish/internal/mapping/VersionMappingVariantDependencyResolver.java:67-69 | no contract of its own: the declared text followed by " declared with Gradle capabilities" |
| VersionMapping.WarningCollector.constructor | subprojects/publish/src/main/java/org/gradle/api/publish/internal/mapping/VersionMappingVariantDependencyResolver.java:63 | a collector starts with no messages |
| VersionMapping.WarningCollector.AddUnsupported | subprojects/publish/src/main/java/org/gradle/api/publish/internal/mapping/VersionMappingVariantDependencyResolver.java:65 | appends exactly the message to the collector's list |
| VersionMapping.ResolveVariantCoordinates | subprojects/publish/src/main/java/org/gradle/api/publish/internal/mapping/VersionMappingVariantDependencyResolver.java:62-74 | appends exactly the dependency's warnings to the collector, in order, and returns the component-level coordinates |
| VersionMapping.ResolveConstraintVariantCoordinates | subprojects/publish/src/main/java/org/gradle/api/publish/internal/mapping/VersionMappingVariantDependencyResolver.java:76-85 | appends exactly the constraint's warning (if any) to the collector and returns the component-level coordinates |
| BuildIdentifierSerialization.Decode | subprojects/dependency-management/src/main/java/org/gradle/api/internal/artifacts/ivyservice/resolveengine/result/BuildIdentifierSerializer.java:30-38 | decoding succeeds iff a string token is followed by a boolean token, and then yields that name and that current-build flag |
| BuildIdentifierSerialization.Encode | subprojects/dependency-management/src/main/java/org/gradle/api/internal/artifacts/ivyservice/resolveengine/result/BuildIdentifierSerializer.java:42-43 | no contract of its own: the name token then the current-build flag token; `DecodeEncode` and `EncodeDecode` make it the inverse of `Decode` |
| BuildIdentifierSerialization.Encoder.constructor | subprojects/dependency-management/src/main/java/org/gradle/api/internal/artifacts/ivyservice/resolveengine/result/BuildIdentifierSerializer.java:41 | an encoder starts with nothing written |
| BuildIdentifierSerialization.Encoder.WriteString | subprojects/dependency-management/src/main/java/org/gradle/api/internal/artifacts/ivyservice/resolveengine/result/BuildIdentifierSerializer.java:42 | appends exactly one string token |
| BuildIdentifierSerialization.Encoder.WriteBoolean | subprojects/dependency-management/src/main/java/org/gradle/api/internal/artifacts/ivyservice/resolveengine/result/BuildIdentifierSerializer.java:43 | appends exactly one boolean token |
| BuildIdentifierSerialization.Decoder.constructor | subprojects/dependency-management/src/main/java/org/gradle/api/internal/artifacts/ivyservice/resolveengine/result/BuildIdentifierSerializer.java:30 | a decoder starts at the beginning of its input |
| BuildIdentifierSerialization.Decoder.ReadString | subprojects/dependency-management/src/main/java/org/gradle/api/internal/artifacts/ivyservice/resolveengine/result/BuildIdentifierSerializer.java:31 | a string token is returned and consumed; at the end of the input or on a token of the other type it fails without consuming |
| BuildIdentifierSerialization.Decoder.ReadBoolean | subprojects/dependency-management/src/main/java/org/gradle/api/internal/artifacts/ivyservice/resolveengine/result/BuildIdentifierSerializer.java:32 | a boolean token is returned and consumed; at the end of the input or on a token of the other type it fails without consuming |
| BuildIdentifierSerialization.Write | subprojects/dependency-management/src/main/java/org/gradle/api/internal/artifacts/ivyservice/resolveengine/result/BuildIdentifierSerializer.java:40-44 | appends the name and then the current-build flag to what the encoder holds |
| BuildIdentifierSerialization.Read | subprojects/dependency-management/src/main/java/org/gradle/api/internal/artifacts/ivyservice/resolveengine/result/BuildIdentifierSerializer.java:29-38 | reads the identifier `Decode` describes at the current position, consuming two tokens on success and one when only the boolean read fails |
| BuildIdentifierSerialization.DecodeEncode | subprojects/dependency-management/src/main/java/org/gradle/api/internal/artifacts/ivyservice/resolveengine/result/BuildIdentifierSerializer.java:29-44 | reading what write emitted gives back the same identifier, whatever precedes or follows it |
| BuildIdentifierSerialization.EncodeDecode | subprojects/dependency-management/src/main/java/org/gradle/api/internal/artifacts/ivyservice/resolveengine/result/BuildIdentifierSerializer.java:29-44 | the two tokens of any successful read are exactly what write emits for the identifier read |
| BuildIdentifierSerialization.WriteThenRead | subprojects/dependency-management/src/main/java/org/gradle/api/internal/artifacts/ivyservice/resolveengine/result/BuildIdentifierSerializer.java:29-44 | write into a fresh encoder, then read from its output, returns the identifier written |
| ProblemEvents.NaturalString | subprojects/build-events/src/main/java/org/gradle/internal/build/event/types/DefaultProblemEvent.java:81 | a number's decimal text is non-empty and made of digits, with two or more digits from ten on |
| ProblemEvents.NaturalStringInjective | subprojects/build-events/src/main/java/org/gradle/internal/build/event/types/DefaultProblemEvent.java:96 | different natural numbers have different decimal texts |
| ProblemEvents.IntegerString | subprojects/build-events/src/main/java/org/gradle/internal/build/event/types/DefaultProblemEvent.java:81 | no contract of its own: `Integer.toString`, a "-" before the digits of a negative number; `IntegerStringInjective` states that it loses nothing |
| ProblemEvents.IntegerStringInjective | subprojects/build-events/src/main/java/org/gradle/internal/build/event/types/DefaultProblemEvent.java:81 | different integers, negative ones included, have different texts: the "line" value identifies the line |
| ProblemEvents.SolutionKeyIsNotFixed | subprojects/build-events/src/main/java/org/gradle/internal/build/event/types/DefaultProblemEvent.java:94-98 | no "solutionN" key collides with a fixed key |
| ProblemEvents.SolutionKeysDistinct | subprojects/build-events/src/main/java/org/gradle/internal/build/event/types/DefaultProblemEvent.java:94-98 | different solution numbers give different keys, so no solution overwrites another |
| ProblemEvents.CreateRawAttributes | subprojects/build-events/src/main/java/org/gradle/internal/build/event/types/DefaultProblemEvent.java:68-100 | id, message and severity are always present; path, line, doc and description are present iff given, with their values (line as decimal text); solutionN maps to the N-th solution for N in 1..count; no other key is present |
| ProblemEvents.ProblemEvent.DisplayName | subprojects/build-events/src/main/java/org/gradle/internal/build/event/types/DefaultProblemEvent.java:102-105 | no contract of its own: the fixed display name "Problem kdkdkd" |
| WrapperHook.TrimEmpty | subprojects/wrapper/src/main/java/org/gradle/wrapper/WrapperExecutorHook.java:94 | a text trims to nothing iff each of its characters is at or below the space |
| WrapperHook.Trim | subprojects/wrapper/src/main/java/org/gradle/wrapper/WrapperExecutorHook.java:94 | no contract of its own: `String.trim`; `TrimEmpty` states when it gives nothing |
| WrapperHook.NotEmptyString | subprojects/wrapper/src/main/java/org/gradle/wrapper/WrapperExecutorHook.java:93-95 | no contract of its own: `NotEmptyStringMeaning` states it holds iff the text is present with a character above the space |
| WrapperHook.IsGradleZipUrl | subprojects/wrapper/src/main/java/org/gradle/wrapper/WrapperExecutorHook.java:97-99 | no contract of its own: `GradleZipUrlMeaning` states it holds iff the URL is present, starts with "http" and ends with ".zip" |
| WrapperHook.NotEmptyStringMeaning | subprojects/wrapper/src/main/java/org/gradle/wrapper/WrapperExecutorHook.java:93-95 | a text is "not empty" iff it is present and has a character above the space |
| WrapperHook.GradleZipUrlMeaning | subprojects/wrapper/src/main/java/org/gradle/wrapper/WrapperExecutorHook.java:97-99 | a URL is accepted iff it is present, starts with "http" and ends with ".zip" (the blankness test never decides) |
| WrapperHook.RemoveSpaces | subprojects/wrapper/src/main/java/org/gradle/wrapper/WrapperExecutorHook.java:138 | the text searched holds no space, every other character occurs in it as often as in the original, and a single character is dropped iff it is a space; with `RemoveSpacesAppend` this fixes the result, order included |
| WrapperHook.RemoveSpacesAppend | subprojects/wrapper/src/main/java/org/gradle/wrapper/WrapperExecutorHook.java:138 | removing spaces from a concatenation is the concatenation of the results, so the kept characters stay in order |
| WrapperHook.GetProperty | subprojects/wrapper/src/main/java/org/gradle/wrapper/WrapperExecutorHook.java:101-107 | the stored value when the key is present, the default otherwise |
| WrapperHook.RootDir | subprojects/wrapper/src/main/java/org/gradle/wrapper/WrapperExecutorHook.java:89-91 | throws NullPointerException iff the path has fewer than three names; with exactly three the root is absent; otherwise it is the path without its last three names |
| WrapperHook.ParentFile | subprojects/wrapper/src/main/java/org/gradle/wrapper/WrapperExecutorHook.java:90 | no contract of its own: `File.getParentFile` on a path of names; `RootDir` states the result of three steps |
| WrapperHook.ChildFile | subprojects/wrapper/src/main/java/org/gradle/wrapper/WrapperExecutorHook.java:56 | no contract of its own: `new File(parent, child)`, the child alone when the parent is null |
| WrapperHook.GetContentFromFile | subprojects/wrapper/src/main/java/org/gradle/wrapper/WrapperExecutorHook.java:124-131 | no contract of its own: the file's text, or "" when reading fails; `GetModifyDistributionUrl` states how the ".json" case uses it |
| WrapperHook.GetValueInJson | subprojects/wrapper/src/main/java/org/gradle/wrapper/WrapperExecutorHook.java:133-146 | the first match of the pattern in the space-free text, or "" when nothing matches |
| WrapperHook.GetJenkinsDistributionUrl | subprojects/wrapper/src/main/java/org/gradle/wrapper/WrapperExecutorHook.java:80-87 | present iff the "jenkinsDistributionUrl" property is present and a Gradle zip URL, and then equal to it |
| WrapperHook.GetModifyDistributionUrl | subprojects/wrapper/src/main/java/org/gradle/wrapper/WrapperExecutorHook.java:52-78 | any URL returned is a Gradle zip URL; a blank or missing "configFile" gives none; it throws iff the name is not blank and either the wrapper file is too shallow (NullPointerException) or loading an existing ".properties" config throws; otherwise a missing file gives none, an existing ".json" file gives its pattern match iff the text is not blank and the match is a Gradle zip URL, a loaded ".properties" file gives its "distributionUrl" iff that is a Gradle zip URL, and any other file gives none |
| WrapperHook.ConfigFileUrlOrigin | subprojects/wrapper/src/main/java/org/gradle/wrapper/WrapperExecutorHook.java:52-78 | a URL found comes from an existing config file under the root directory: the pattern's match in a non-blank ".json" text, or the "distributionUrl" entry of a loaded ".properties" table |
| WrapperHook.ModifyDistributionUrlByNeed | subprojects/wrapper/src/main/java/org/gradle/wrapper/WrapperExecutorHook.java:27-50 | the result is the original URL or a Gradle zip URL; on Jenkins it is the "jenkinsDistributionUrl" property when that is accepted, else the original; elsewhere it is the config file's URL when the lookup finds one, else the original, also when the lookup throws |

## Left out

- Obtaining the resolution result from the version-mapping `Configuration` (`getIncoming().getResolutionResult()`) is not modelled. The model takes a snapshot of its components and dependency edges. The Java sets have no specified iteration order, so a sequence fixes one, and "first match" means first in that sequence.
- The project publication resolver and the declared-version transformer are opaque functions in the model. Their own behaviour is not part of this model.
- Null group or name on a declared dependency is not modelled; only the version may be absent. The warning text prints an absent version as `null`, as `String.format` does.
- The implementation of `VariantWarningCollector` is not shown in the modelled sources; the model's `WarningCollector` is an append-only list of messages.
- The build identifier classes and the `Encoder`/`Decoder` interfaces are not part of this model. `DefaultBuildIdentifier` is taken to be the current-build identifier and `ForeignBuildIdentifier` the foreign one. The stream is a sequence of typed tokens, so byte-level encoding, `IOException` and stream truncation inside a token are left out. A token of the wrong type is a decode error.
- The problem event's timestamp (`System.currentTimeMillis`), its descriptor, its `Throwable` cause and its progress-event superclass are not modelled. The record keeps the fields the getters return. `Severity.toString` and `ProblemId.getId` are taken as given strings. `HashMap` iteration order plays no part, because the result is a map.
- The `System.err` logging and `printStackTrace` calls of the wrapper hook are not modelled.
- Reading the `JENKINS_URL` environment variable is not modelled directly. The hook's host provides the variable, file existence, file reading, properties loading and the regular-expression search as inputs.
- WrapperHook.GetValueInJson: the pattern `"key":"(\S+)"` is an opaque search function over the space-free text. Which substring it captures is not modelled.
- WrapperHook.GetContentFromFile: charset decoding is not modelled. Only `IOException` is caught, so any other exception would propagate; the host's read function gives a text or a failure.
- WrapperHook.GetModifyDistributionUrl: a `loadProperties` failure inside `Properties.load` is swallowed in the source, leaving a possibly partial table. The host gives that table, or the exception that closing the stream throws. Other exceptions from the file system (for example, security exceptions from `exists`) are not modelled.
- WrapperHook.RootDir: a path is a sequence of names. `getParentFile` drops the last name and gives nothing for a single name; the details of `java.io.File` path parsing are not modelled.
