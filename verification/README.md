# A verified model of OIDC shim injection

This project models the logic of the ztwim-oidc-shims operator in Dafny and proves what it
promises. An `OIDCShim` or `ClusterOIDCShim` describes a token, variables and files for the pods it
matches. A mutating webhook resolves the shim's parameters for a pod, renders a *plan*, and injects
the plans of all matching shims into the pod. A controller validates shims beforehand and reports
the result in their status.

`dafny verify dfyconfig.toml` checks everything.

## Modules

| file | what it holds |
|---|---|
| `Text.dfy`, `Bytes.dfy`, `Keys.dfy` | splitting and joining, numerals, string order; sizes of string maps; derived keys and names |
| `Pods.dfy` | the pod as a value (`PodState`) and as an object (`Pod`), first-match lookups |
| `Injection.dfy` | the engine as a specification: targets, collisions, one plan, the fold over plans |
| `Engine.dfy` | the engine as written: loops over a mutable `Pod`, proved to compute that fold |
| `Decisions.dfy`, `Manifest.dfy` | which plans are accepted, where they go and what is reported; the finished pod field by field |
| `Greedy.dfy` | monotone refusal, maximality, invisible skips, deferred init containers |
| `Payload.dfy` | what is written to annotations and init containers; byte accounting |
| `Mounts.dfy` | the exact mounts of every container after a run |
| `Delivery.dfy` | reading a finished pod: mount, volume, item, annotation, content, and what is in the way |
| `Uniqueness.dfy` | what the API server admits: distinct and well-formed names, mount paths, modes, size, with exact conditions |
| `Frame.dfy` | what is left alone, the exact lists afterwards, decoding the bookkeeping |
| `Templates.dfy` | the template language: evaluation, referenced keys, coincidence, a static check |
| `Params.dfy`, `Equations.dfy` | ordered parameters: resolution, validation, and the laws between them |
| `FileModes.dfy`, `Paths.dfy`, `HelperConf.dfy` | octal modes; clean paths and containment; the helper configuration and a reader for it |
| `Specs.dfy`, `Plans.dfy`, `Selection.dfy`, `Validation.dfy` | the resources; building a plan; matching; the static validator |
| `Reports.dfy` | which defects of a spec the validators report |
| `Listing.dfy`, `Handler.dfy` | sorted listing; one admission request from end to end, and runs of requests |
| `Requests.dfy` | what decides a request, its plans, its warnings and its parameters |
| `Precedence.dfy`, `Admission.dfy` | order and precedence of shims; what a request guarantees about the pod it returns |
| `Witnesses.dfy`, `WitnessRuns.dfy` | concrete shims and pods, run through a request, for every condition the code does not enforce |
| `Reconcile.dfy` | the controller's reconcile, and runs of edits and reconciles |
| `Options.dfy` | the comma-separated flag value |

## Modelling decisions

- A Dafny `char` stands for one byte of a Go string, so `|s|` is `len(s)`. Trimming removes ASCII
  white space. Quoting escapes quote, backslash and ASCII control characters as `strconv.Quote`
  does and leaves other bytes alone.
- A nil map is the empty map, a nil slice the empty sequence, a nil pointer an `Option`.
- Warnings and errors are datatypes that name the plan or parameter and the reason, not texts.
- Templates are trees of text, fields (possibly chained), string literals, `eq` of two values,
  `if`, `with` and sequences, over values that always contain the builtins. A template that does
  not parse is a separate case. Printing the dot at top level prints the whole map in key order.
- ConfigMaps, namespaces, service accounts, shim lists, exclusion and the clock are inputs. A label
  selector is a flag saying whether it compiles, with a matching predicate.
- `path.Clean` is modelled by its processing of path elements. A mount path denotes the location its
  cleaned form leads to from the root.
- Reading a path in a container follows its mount, unless another mount of the container is in the
  way: a read-only one at a proper ancestor, in which the mount point could not be created
  (internal/injection/plan.go:241-242 gives this reason), one at the same place, or one below
  it on the way to the file. What a volume already contains at that point is not known to the model.
- `sort.Slice` is modelled by an insertion sort; `Listing.SortedUnique` shows that with distinct
  names every sort gives the same list.
- An API server that answers page requests and accepts or rejects a status update is an input of
  the reconcile. `int32` conversions are explicit.

## Findings

Promises that hold only under a condition the code does not enforce. Each is proved as an
equivalence with that condition, and each has a counterexample. Those about injected pods are in
`Witnesses.dfy` and `WitnessRuns.dfy`: shims that the resource schema admits and, except where noted,
the controller accepts, and a pod, taken through one request.

- A file is readable in a target container exactly when the token volume is not named like the
  shim's own config volume and no other mount is in the file's way: the container's own, the same
  shim's, or another applied shim's (`Delivery.FilesDelivered`). Paths of different shims are
  compared for equality only (`Witnesses.TokenMayTakeConfigName`,
  `WitnessRuns.TokenMayBlockOtherFile`, `Witnesses.UncleanTokenBlocksOwnFile`).
- The helper reads its configuration exactly when neither socket nor token is in the way of
  `/etc/oidcshim/helper.conf` and the config volume is not shadowed
  (`Delivery.HelperConfDelivered`, `Witnesses.TokenMayHideHelperConf`).
- The token reaches the app, at the path `.tokenPath` names, exactly when the file name stays inside
  the token directory, the token volume is not named like the socket volume, and nothing is in its
  way in the helpers or in the app (`Delivery.TokenDelivered`, `Witnesses.TokenFileMayEscape`,
  `Witnesses.TokenMayTakeSocketName`, `Witnesses.FileMayBlockToken`).
- A pod that meets the API server's rules on names, mount paths, file modes and annotation size
  still meets them exactly when, for every applied shim, the token volume avoids those two names, no
  target is named twice, the helpers' three mount paths differ, no app container is named like its
  init or refresh container, the shim's name has no dot and at most 46 bytes, the token volume's
  name is a label and file modes are at most 0777; and contents, keys and bookkeeping together stay
  within 256 KiB (`Uniqueness.InjectionKeepsAdmissible`, `Witnesses.TargetsMayRepeat`,
  `Witnesses.InitMayShadowApp`, `Witnesses.DottedNameRefused`,
  `Witnesses.TokenVolumeMayBeNoLabel`, `WitnessRuns.KeysMayExceedLimit`). A pod that does not meet
  them is refused, so such a shim keeps its pods from being created, against
  internal/webhook/pod/handler.go:195-197.
- A parameter solves its equation over the final values exactly when its template did not print
  the whole map: `ReferencedKeys` reports no key for a top-level dot (`Equations.EquationsSolved`,
  `Templates.DotEscapesReferencedKeys`). Two valid orders of one list give the same result exactly
  when every parameter that prints the map follows the same names in both
  (`Equations.OrderIndependence`, `Equations.OrderVisibleThroughDot`).
- A checked template renders exactly when every expression on the path taken has a kind; a field
  inside `with` has none (`Templates.RenderExact`, `Templates.FieldInsideWithFails`). A validated
  list or shim fails over a template exactly then (`Equations.ResolveErrorsExact`,
  `Validation.ValidatedShimsDoNotGoWrong`).
- The "under the token directory" test is exact for clean absolute paths, except that below the
  root directory, or below a mount path with a trailing slash, it recognises nothing
  (`Paths.AtOrUnderIsAncestor`, `Paths.UncleanMountMissesFiles`).
- Validator and builder differ in file modes alone: the builder's parser accepts modes the
  validator rejects, and turns modes from 2^31 on into negative numbers
  (`Validation.ValidatorImpliesBuilder`, `FileModes.ParsedInRange`,
  `FileModes.ParserLaxerThanPattern`, `Validation.BuilderLaxerThanValidator`). The resource schema
  has the validator's pattern too, so such modes come only from objects older than the schema.

Where documentation and code disagree the model follows the code. README.md:75 says a shim with
`Ready=False` is skipped; the handler never reads the condition, and five of the validator's eight
rules are not checked again at admission (`Admission.RejectedYetPlanned`). In
`Witnesses.RejectedShimStillInjected` a parameter named `tokenPath`, which the schema admits and the
validator rejects, overwrites the builtin and points the app at a path without a token.
README.md:208 says templates have no functions; Go's own builtin `eq` is available, as
internal/params/template_test.go:92 relies on.

## Model

| member | source | states |
|---|---|---|
| `Text.CommaListRoundTrip` | internal/selection/match.go:43-51 | parsing a joined list gives the list back if and only if every name is trimmed, non-empty and comma-free |
| `Text.TrimSpacePadded` | internal/selection/match.go:45-48 | trimming gives exactly the text that the white space surrounds |
| `Text.CommaListLaws` | internal/selection/match.go:43-51 | a comma separates two lists, a blank part names nothing, any other part names what its white space surrounds; these laws determine the reading of every list |
| `Text.PaddedListRead` | internal/selection/match.go:43-51 | white space around the names of a list does not change which names are read, or their order |
| `Text.CommaNormalForm` | internal/config/options.go:103-122 | reading, printing and reading a comma list again changes nothing |
| `Text.LessExact` | internal/webhook/pod/handler.go:182-183 | the order of names is decided by the first differing byte, a prefix coming before its extensions |
| `Keys.DocumentedKeys` | api/v1alpha1/common_types.go:25-70 | the annotation and label keys and values, written out as documented |
| `Keys.FileAnnotationInjective` | internal/injection/mutate.go:43-45 | two file annotation keys coincide exactly when shim and index do, dashes in names or not |
| `Keys.PayloadKeysApart` | api/v1alpha1/common_types.go:28-58 | payload keys of a shim never equal a bookkeeping key, the container filter, or each other across kinds |
| `Keys.DerivedNamesApart` | internal/injection/mutate.go:38-40 | init, refresh and config names are injective in the shim, and init never equals refresh, config never equals socket |
| `Keys.DerivedNamesAreLabels` | internal/controller/shim_reconcile.go:57-62 | the refresh container's name is an RFC 1123 label if and only if the shim's name fits, which holds up to exactly 46 bytes; then all derived names are |
| `Keys.ObjectNameFits` | internal/controller/shim_reconcile.go:169-178 | among legal object names exactly those without a dot and within the cap fit |
| `Keys.FieldRefRoundTrip` | internal/injection/mutate.go:178-180 | the downward-API field path selects exactly the annotation it was built from |
| `Keys.ShimKeyInjective` | api/v1alpha1/shim.go:59-79 | shim keys of well-named objects determine kind, namespace and name |
| `Bytes.SumBytes` | internal/injection/mutate.go:118-124 | the range loop over annotations computes their total size in whatever order it visits them |
| `Bytes.MapBytesSet` | internal/injection/mutate.go:272-277 | setting an annotation adds its bytes and gives back those of the entry it replaces |
| `Engine.LookupVolume` | internal/injection/collisions.go:130-137 | the loop returns the source of the first volume with the name, or nothing if there is none |
| `Engine.LookupContainer` | internal/injection/collisions.go:139-146 | the loop returns the first index with the name, or nothing if there is none |
| `Engine.HasMountPath` | internal/injection/collisions.go:152-159 | true exactly when some mount has the path |
| `Engine.HasEnvNamed` | internal/injection/collisions.go:161-168 | true exactly when some variable has the name |
| `Engine.ParseCommaList` | internal/injection/collisions.go:116-128 | the loop yields the trimmed non-empty parts in order |
| `Engine.PlanMountPaths` | internal/injection/collisions.go:80-87 | the token path followed by every file path |
| `Engine.PlanBytes` | internal/injection/plan.go:146-152 | the helper configuration plus all file contents |
| `Engine.Targets` | internal/injection/collisions.go:91-112 | the pod's filter overrides the plan's, missing names are warned about, no filter means all containers |
| `Engine.FindCollision` | internal/injection/collisions.go:31-77 | the first reason in the checked order, or none when socket, volumes, init names and paths are all free |
| `Engine.AddVolumes` | internal/injection/mutate.go:132-173 | appends the socket if absent, the token volume and the config volume, and touches nothing else |
| `Engine.InjectIntoContainers` | internal/injection/mutate.go:222-253 | the in-place loop equals the target-by-target specification, warnings included |
| `Engine.WritePlanMetadata` | internal/injection/mutate.go:256-270 | writes the plan's payload annotations and its label |
| `Engine.ConsiderPlan` | internal/injection/mutate.go:68-98 | one turn of the loop on the pod object is one step of the specification |
| `Engine.ApplyPlans` | internal/injection/mutate.go:50-114 | the in-place call computes the fold: pod, applied plans and warnings; a nil pod is a no-op. What the fold decides and writes is stated field by field in `Decisions` and `Manifest` |
| `Decisions.TargetsExact` | internal/injection/collisions.go:91-112 | nothing asked for means every container; otherwise the targets are the asked names that exist, in order and as often as asked, the pod's annotation before the plan's list, and exactly the others are reported |
| `Decisions.ReachesExact` | internal/injection/mutate.go:222-226 | a plan reaches a container if and only if it is the first of its name and is asked for, or nothing is |
| `Decisions.CollisionExact` | internal/injection/collisions.go:31-77 | no collision exactly when socket, volume names, init container names and paths are free, read off the lists; otherwise the reported kind is the first that is not |
| `Decisions.RefusalExact` | internal/injection/mutate.go:68-91 | a plan is accepted if and only if its bytes fit, an asked container exists and nothing it claims is taken; a refusal reports the first failure with true figures and names |
| `Decisions.InjectWarningsExact` | internal/injection/mutate.go:241-251 | a variable is reported as left alone exactly when the container, an earlier entry of the plan or an earlier visit defines it |
| `Decisions.RunWarns` | internal/injection/mutate.go:68-98 | the warnings of a run are exactly those some turn reports in the state it sees |
| `Decisions.ApplyTwice` | internal/injection/mutate.go:54-57 | an injected pod is marked, and a second call with any plans leaves it as it is |
| `Manifest.HelpersRun` | internal/injection/mutate.go:183-205 | for every applied plan the pod starts with a container that runs to completion and one that keeps running, named after the shim, from the plan's image, started with the path at which they read the plan's own configuration |
| `Manifest.VolumesListed` | internal/injection/mutate.go:132-173 | the volumes added, field by field: a read-only socket of the first plan's driver if missing, then per plan an in-memory token volume and the projection of its annotations with paths and modes |
| `Manifest.MountedExact` | internal/injection/mutate.go:222-239 | a finished container mounts exactly what it did and, for every applied plan that goes into it, the token and each file, read-only, the files through their own items |
| `Greedy.RefusalMonotone` | internal/injection/collisions.go:31-77 | a plan refused for any reason is refused in every state in which lists have only grown |
| `Greedy.RunLater` | internal/injection/mutate.go:68-98 | every later state of the loop only extends every earlier one |
| `Greedy.GreedyMaximal` | internal/injection/mutate.go:68-98 | in the final state every plan of the list is refused, applied or not, so nothing could be added |
| `Greedy.SkippingInvisible` | internal/injection/mutate.go:68-98 | running only the applied plans gives the same state and applies all of them |
| `Greedy.ApplyOnAppliedIsSame` | internal/injection/mutate.go:50-114 | the call on its own applied list gives the identical pod and applied list |
| `Greedy.AppliedSubsequence` | internal/injection/mutate.go:68-98 | applied is a subsequence of the input and every other plan has a skip warning naming it |
| `Greedy.DeferredPrependRefines` | internal/injection/mutate.go:93-104 | queuing init containers and prepending once equals inserting them into the pod plan by plan |
| `Payload.QueueIsHelpers` | internal/injection/mutate.go:93 | the queue holds the init and the refresh container of every applied plan, in order; what those are is `Manifest.HelpersRun` |
| `Payload.AppliedShimsDistinct` | internal/injection/collisions.go:42-46 | whatever the input, applied plans have pairwise distinct shim names |
| `Payload.PayloadsDisjoint` | internal/injection/mutate.go:256-260 | payloads of different shims share no annotation key and avoid bookkeeping keys |
| `Payload.ApplyAnnotations` | internal/injection/mutate.go:105-111 | the final annotations are the old ones overlaid with the applied payloads and the two bookkeeping entries |
| `Payload.AddedBytesExact` | internal/injection/mutate.go:61-75 | the running count is the rendered bytes of the applied plans, and stays within the budget |
| `Payload.AnnotationAccount` | internal/injection/mutate.go:61-111 | final bytes plus overwritten bytes equal old bytes plus content, keys and bookkeeping; old bytes plus content are at most 192 KiB |
| `Payload.AnnotationBound` | internal/injection/plan.go:118-122 | the final size exceeds 192 KiB by at most the added keys and the bookkeeping entries |
| `Payload.AnnotationLimitExact` | internal/injection/plan.go:118-122 | the finished pod is within the API server's 256 KiB if and only if content, keys and bookkeeping, less what they overwrite, fit |
| `Payload.HeadroomSuffices` | internal/injection/mutate.go:61-64 | when keys and bookkeeping fit into the 64 KiB between the two limits, so does the pod |
| `Delivery.FilesDelivered` | internal/injection/mutate.go:132-270 | for every applied plan, target and file, following mount, volume, item and annotation gives that plan's content, and nothing exactly when the token volume shadows the config volume or a mount of the pod or of an applied plan is in the way |
| `Delivery.BlockedExact` | internal/injection/collisions.go:48-58 | a mount of a finished container is obstructed exactly when one of the container's own mounts, or of an applied plan that reaches it, is in the way |
| `Delivery.CleanTokenNotInTheWay` | internal/injection/plan.go:241-247 | for clean paths a token directory other than the root is in the way of a file exactly when the builder rejects the file |
| `Delivery.HelperConfDelivered` | internal/injection/mutate.go:183-205 | both helper containers read their plan's own configuration, and nothing exactly when socket or token is in the way or its volume is shadowed |
| `Delivery.TokenDelivered` | internal/injection/plan.go:90-91 | at the token path the app reads, read-only, the memory volume the helpers write, if and only if the file name stays inside the directory, the token volume has its own name and nothing is in the way in helpers and app |
| `Delivery.PlainTokenInside` | internal/injection/plan.go:90-91 | a plain file name stays inside any absolute token directory |
| `Delivery.SocketDelivered` | internal/injection/mutate.go:183-193 | both helpers find the agent's socket, on a volume of the plan's driver, if and only if the socket file stays inside its directory and neither token nor configuration is in the way |
| `Mounts.MountsExact` | internal/injection/mutate.go:222-241 | a container's mounts after one plan: its own, then the plan's once per target that names it |
| `Mounts.RunMountsExact` | internal/injection/mutate.go:68-98 | a container's mounts after a run: its own, then each applied plan's in order |
| `Uniqueness.VolumesStayDistinct` | internal/injection/collisions.go:36-40 | volume names stay distinct exactly when no applied token volume takes the socket's or its own config volume's name |
| `Uniqueness.InitsStayDistinct` | internal/injection/collisions.go:42-46 | init container names stay distinct among themselves, unconditionally |
| `Uniqueness.NamesStayDistinct` | internal/injection/collisions.go:42-46 | names stay distinct across init and app containers exactly when no app container is named like an applied shim's helper |
| `Uniqueness.HelperMountsDistinct` | internal/injection/mutate.go:183-205 | the helpers' mount paths are distinct exactly when socket, token and configuration directories differ |
| `Uniqueness.MountsStayDistinct` | internal/injection/collisions.go:48-58 | mount paths stay distinct per container exactly when every applied plan's targets are duplicate-free |
| `Uniqueness.EnvStaysDistinct` | internal/injection/mutate.go:242-250 | variable names stay distinct, even with repeated targets |
| `Uniqueness.StaysOk` | internal/controller/shim_reconcile.go:57-62 | volume and container names stay labels and file modes stay in 0..0777 exactly when every applied plan's names and modes fit |
| `Uniqueness.InjectionKeepsAdmissible` | internal/injection/mutate.go:50-114 | an admissible pod stays admissible exactly when token names, targets, helper paths and helper names are apart, names and modes fit, and the annotations stay within the limit |
| `Witnesses.TokenMayTakeConfigName` | internal/injection/collisions.go:32-40 | counterexample: a valid shim whose token volume is named like its config volume is injected; its file is unreadable and the pod not admissible |
| `Witnesses.TokenMayTakeSocketName` | internal/injection/collisions.go:32-40 | counterexample: with the socket's name the token does not reach the app and the pod is not admissible |
| `Witnesses.TargetsMayRepeat` | internal/injection/collisions.go:104-110 | counterexample: a container named twice leaves the pod not admissible |
| `Witnesses.InitMayShadowApp` | internal/injection/collisions.go:42-46 | counterexample: an init container takes an app container's name and the pod is not admissible |
| `Witnesses.TokenMayHideHelperConf` | internal/injection/mutate.go:189-193 | counterexample: a token mounted at the configuration directory hides the configuration and leaves the pod not admissible |
| `Witnesses.TokenFileMayEscape` | internal/injection/plan.go:90-91 | counterexample: with file name ../token a valid shim is injected and its token does not reach the app |
| `Witnesses.DottedNameRefused` | internal/injection/mutate.go:38-40 | counterexample: a valid shim with a dot in its name leaves the pod not admissible |
| `Witnesses.TokenVolumeMayBeNoLabel` | internal/injection/plan.go:69-77 | counterexample: a token volume name that is no label leaves the pod not admissible |
| `WitnessRuns.AllApplied` | internal/injection/mutate.go:68-98 | plans that claim no name and no path of each other, within the budget, are all applied to a plain pod |
| `WitnessRuns.TokenMayBlockOtherFile` | internal/injection/collisions.go:48-58 | counterexample: one valid shim's token directory lies above another valid shim's file; both are applied and the file is unreadable |
| `WitnessRuns.KeysMayExceedLimit` | internal/injection/mutate.go:61-75 | counterexample: 400 valid shims with 32 empty files each are all applied within the budget and the annotations exceed 256 KiB |
| `Witnesses.UncleanTokenBlocksOwnFile` | internal/injection/plan.go:241-247 | counterexample: a token path with a trailing slash passes the path checks and blocks the shim's own file |
| `Witnesses.FileMayBlockToken` | internal/injection/plan.go:227-247 | counterexample: a file mounted above the token directory is accepted and the token does not reach the app |
| `Witnesses.RejectedShimStillInjected` | internal/webhook/pod/handler.go:204-241 | counterexample: a shim the validator rejects for a reserved parameter name ends in a patched pod whose variable carries the overwritten token path |
| `Frame.ApplyFrame` | internal/injection/mutate.go:50-114 | old lists keep their place, new init containers are exactly init and refresh per applied plan, unnamed containers are unchanged, labels are the old ones and those of the applied shims, nothing applied means nothing changed |
| `Frame.LabelExact` | internal/injection/mutate.go:262-269 | a pod carries a shim's label with its kind's value if and only if the shim was applied, or it did before and no shim of that name was applied |
| `Frame.ApplyExact` | internal/injection/mutate.go:132-253 | the exact volumes, the exact mounts of every container, and the value of every variable: the container's own, else the earliest applied plan's |
| `Frame.RunVolumesExact` | internal/injection/mutate.go:133-144 | the socket volume is added once however many plans apply |
| `Frame.ShimsAnnotationDecodes` | internal/injection/mutate.go:106-111 | the shims annotation parses back to the applied shims' keys in order |
| `Frame.IdsInjective` | api/v1alpha1/shim.go:59-79 | equal lists of keys name equal lists of shims |
| `Templates.Coincidence` | internal/params/template.go:33-63 | maps agreeing on the visited keys fail together and, unless the whole map is printed, render alike |
| `Templates.CoincidenceExact` | internal/params/template.go:47-113 | over a proper extension the rendering is the same if and only if the template does not print the whole map |
| `Templates.DotEscapesReferencedKeys` | internal/params/template.go:68-107 | counterexample: the top-level dot reports no key and depends on all of them |
| `Templates.CollectCharacterised` | internal/params/template.go:55-63 | the reported keys are the visited ones, each once |
| `Templates.CollectOrder` | internal/params/template.go:45-63 | the reported keys are in order of first appearance |
| `Templates.KeyCollector.Visit` | internal/params/template.go:57-63 | a key is added unless it was seen, and the seen set stays in step with the list |
| `Templates.KeyCollector.WalkBranch` | internal/params/template.go:109-113 | visits the condition, the list and the else list, in that order |
| `Templates.KeyCollector.WalkNode` | internal/params/template.go:68-107 | the walk adds exactly the keys of the tree, in visiting order, to what was collected before |
| `Templates.CollectKeys` | internal/params/template.go:47-65 | the method reports an error exactly for unparsable templates and otherwise the collected keys |
| `Templates.RenderExact` | internal/params/template.go:33-43 | over a map that defines its reported keys a template renders if and only if every expression on the path taken has a kind; to which text is `Templates.PiecesRender` and `Templates.BranchesRender` |
| `Templates.RenderIsExecution` | internal/params/template.go:33-43 | rendering is execution: a template writes its pieces to the output one after another, the output so far first |
| `Templates.PiecesRender` | internal/params/template.go:33-43 | a template made of texts and keys renders to the concatenation, in order, of the texts and the keys' values |
| `Templates.BranchesRender` | internal/params/template.go:33-43 | a non-empty field takes the first branch of if and with, an empty one the else branch; with binds the dot to the field's value; eq of two strings is true exactly when they are equal |
| `Templates.PrintTwo` | internal/params/template.go:33-43 | a map prints as Go prints it, the smaller key first |
| `Templates.Progress` | internal/params/template.go:33-43 | a statically well-kinded template renders over every map that defines its reported keys |
| `Templates.ShownMapsDiffer` | internal/params/template.go:33-43 | a template that prints the map renders differently over any two different parts of one map with colon-free keys |
| `Templates.StraightLineExact` | internal/params/template.go:33-43 | without branches rendering succeeds if and only if the template is well-kinded |
| `Templates.FieldsAndIfsRender` | internal/params/template.go:33-43 | templates of text, fields and conditionals always render when their reported keys are defined |
| `Templates.FieldInsideWithFails` | internal/params/template.go:99-100 | counterexample: a field inside with fails though its key is reported and defined |
| `Params.ResolveLoop` | internal/params/resolve.go:96-125 | the loop computes parameter after parameter over the values so far, stopping at the first error; which value each source gives is `Equations.ValuesBySource` |
| `Params.BuiltinsNamed` | internal/params/resolve.go:44-69 | the five builtins under the names templates use, and no other key |
| `Params.NearestObjectWins` | internal/params/resolve.go:167-176 | annotation and label parameters take the Pod's value, else the ServiceAccount's, else the Namespace's, empty or not |
| `Params.Validate` | internal/params/validate.go:30-74 | the collected problems are empty exactly for lists with fresh names, one source each and templates that look back only |
| `Params.SourcesCounted` | internal/params/validate.go:85-100 | every source that is set counts once, whichever the others are |
| `Equations.NothingOverwritten` | internal/params/resolve.go:105-122 | in a validated list no builtin and no earlier parameter is ever overwritten |
| `Equations.FinalKeys` | internal/params/resolve.go:96-125 | the final keys are the builtins, unchanged, and the parameter names |
| `Equations.EquationsSolved` | internal/params/resolve.go:96-161 | every parameter has the value its definition gives over the final values, if and only if its template did not print the whole map when it was resolved |
| `Equations.ValuesBySource` | internal/params/resolve.go:105-176 | in a resolved validated list a constant is its value, an annotation or label the nearest object's, a ConfigMap key the entry the read gave, a template its rendering; where there is none, the default or nothing |
| `Equations.OrderIndependence` | internal/params/validate.go:57-70 | two validated permutations both fail, or agree if and only if every parameter that printed the map follows the same names in both |
| `Equations.ScopedOrderIndependence` | internal/params/resolve.go:105-122 | permutations without such templates fail together or resolve to equal values, on every pod |
| `Equations.OrderVisibleThroughDot` | internal/params/resolve.go:152-158 | counterexample: a template printing the whole map makes the order visible |
| `Equations.ResolveErrorsExact` | internal/params/resolve.go:96-161 | a validated list reports a template error for a parameter if and only if that parameter is reached and evaluates an expression without a kind, and any other error if and only if a reached parameter's ConfigMap or missing required value makes it unavailable |
| `FileModes.PatternParses` | internal/spiffehelper/render.go:37 | every mode the pattern accepts parses to its octal value, within 0..511 |
| `FileModes.ParsedInRange` | internal/injection/plan.go:288-294 | the parser yields 0..511 if and only if the mode is an octal numeral with zeros before its last three digits |
| `FileModes.ParserLaxerThanPattern` | internal/injection/plan.go:288-294 | counterexample: other widths parse, and modes from 2^31 on become negative |
| `Paths.AtOrUnderIsAncestor` | internal/injection/plan.go:233-247 | on clean absolute paths the string test is the ancestor-or-equal relation on locations, except below the root |
| `Paths.SiblingAccepted` | internal/controller/shim_reconcile.go:263-275 | a sibling sharing a string prefix is accepted, a child of the token directory is not |
| `Paths.UncleanMountMissesFiles` | internal/injection/plan.go:244 | counterexample: root and trailing-slash mount paths let files below them through |
| `Paths.DefaultMountClean` | internal/injection/plan.go:78-80 | the default token directory is a clean path, so the test is exact for it |
| `Paths.JoinedLocation` | internal/injection/plan.go:90-91 | a joined path leads where the name continues from the directory, out of it where the name says so |
| `HelperConf.RenderConfig` | internal/spiffehelper/render.go:63-102 | the method with its quoting loop computes the rendered text or the first error |
| `HelperConf.ErrorIsFirstFault` | internal/spiffehelper/render.go:63-78 | rendering fails if and only if a field is missing or the mode is malformed, and reports the first such fault |
| `HelperConf.RenderRoundTrip` | internal/spiffehelper/render.go:39-102 | an independent reader recovers every field of a rendered configuration, the mode in normal form |
| `HelperConf.PlainRendered` | internal/spiffehelper/render.go:39-45 | with printable fields the text is exactly the documented lines, the fields in quotes and a four-digit mode |
| `HelperConf.RenderInjective` | internal/spiffehelper/render.go:39-102 | two configurations render alike if and only if they agree up to mode normalisation |
| `HelperConf.EmittedMode` | internal/spiffehelper/render.go:85-89 | the emitted mode starts with zero, matches the pattern and keeps its octal value |
| `Plans.RenderFiles` | internal/injection/plan.go:218-260 | the file loop with its seen paths computes the specified list or first error, and its running count is the content size |
| `Plans.BuildPlan` | internal/injection/plan.go:156-273 | the method computes the specified construction; what it yields is `Plans.BuiltPlan` and `Plans.BuiltPlanMeaning`, which error `Plans.BuildErrorExplained` |
| `Plans.FilesExact` | internal/injection/plan.go:227-260 | the file loop succeeds if and only if contents render, paths are distinct and outside the token directory, and modes parse |
| `Plans.BuildExact` | internal/injection/plan.go:156-273 | a plan is built if and only if every field renders, the audience is not empty, paths, modes and location are fine and the size is within the cap; else the error is determined |
| `Plans.BuiltPlan` | internal/injection/plan.go:156-187 | a built plan takes every setting the shim overrides from the shim and the others from the defaults, has distinct paths outside the token directory, its shim's names and containers, its files' rendered content, and charges at most the cap |
| `Plans.TokenDefaults` | internal/injection/plan.go:68-88 | each token setting is the spec's where given, else derived from the shim's name or the documented default |
| `Plans.BuildErrorExplained` | internal/injection/plan.go:193-258 | whenever a template, path or mode is wrong the error names the first thing that fails, and why, in the order of audience, extra audiences, variables, files |
| `Plans.BuiltPlanMeaning` | internal/injection/plan.go:193-286 | the configuration a plan carries reads back to the rendered audiences, effective socket and token location; variables are rendered in order |
| `Selection.MatchTarget` | internal/selection/match.go:98-121 | the loop returns an error for an invalid selector, else enrolled, or some selector set and all set ones matching |
| `Selection.EnrollmentListExact` | internal/selection/match.go:81-90 | enrolling through comma lists in annotation and label enrolls into exactly the shims either names |
| `Selection.EnrolledExact` | internal/selection/match.go:56-92 | each of namespace, service account and pod enrolls exactly when it names the shim and its own toggle is not false |
| `Selection.MatchesExact` | internal/selection/match.go:98-121 | an error exactly when a set selector does not compile; otherwise a match exactly when enrolled, or some selector is set and each set one matches its own, existing object |
| `Selection.OptedOutExact` | internal/selection/match.go:130-138 | a pod opts out exactly when its annotation says false, letter by letter in either case, with any white space around it |
| `Validation.ValidateFiles` | internal/controller/shim_reconcile.go:248-279 | no problems exactly when paths are fine and every mode matches the pattern |
| `Validation.ValidatorImpliesBuilder` | internal/controller/shim_reconcile.go:241-247 | once contents render, the validator accepts files if and only if the builder does and the modes have the pattern |
| `Validation.BuilderLaxerThanValidator` | internal/injection/plan.go:249-255 | counterexample: the converse fails on a file mode |
| `Validation.ValidateShim` | internal/controller/shim_reconcile.go:157-167 | no problems exactly when every rule of the validator is met |
| `Reports.ParameterReports` | internal/params/validate.go:30-74 | a parameter problem is reported if and only if some parameter has that defect |
| `Reports.ShimReports` | internal/controller/shim_reconcile.go:157-294 | a shim problem of any kind is reported if and only if the spec has that defect |
| `Validation.ValidatedBuildExact` | internal/injection/plan.go:156-273 | a validated shim is built if and only if its fields are kinded along the path taken, the audience is not empty and the size is within the cap, and the error says which |
| `Validation.ValidatedShimsDoNotGoWrong` | internal/controller/shim_reconcile.go:155-167 | for every pod and cluster a validated shim is skipped over a template if and only if one that is reached evaluates an expression without a kind; otherwise only for a missing value, an unreadable ConfigMap, an empty audience or the size cap |
| `Validation.KindedShimsNeverGoWrong` | internal/controller/shim_reconcile.go:155-167 | a shim whose templates are statically well-kinded never fails over a template, on any pod |
| `Validation.TokenPathNamed` | internal/injection/plan.go:93-108 | with valid parameters .tokenPath is the path the token is written to, on every pod |
| `Listing.SortedUnique` | internal/webhook/pod/handler.go:182-183 | with distinct names there is one sorted arrangement |
| `Handler.BuildPlansLoop` | internal/webhook/pod/handler.go:198-244 | the loop plans every matching shim in order and warns about the others that could not be planned |
| `Handler.PlansWellFormed` | internal/webhook/pod/handler.go:213-241 | every plan handed to the engine was built from a listed shim and has distinct paths |
| `Handler.HandlePod` | internal/webhook/pod/handler.go:75-134 | the handler on a pod object computes the specified response and pod, which `Requests.HandleExact` decides |
| `Requests.HandleExact` | internal/webhook/pod/handler.go:75-134 | a pod is patched if and only if a create request decodes, the annotation does not say false, the pod is not marked, its namespace is not excluded, all reads succeed and some listed shim applies; otherwise the pod is unchanged and the answer names the first failing condition |
| `Requests.PlansExact` | internal/webhook/pod/handler.go:198-244 | the plans handed to the engine are exactly those that listed, matching shims resolve and build to |
| `Requests.SomethingApplied` | internal/injection/mutate.go:68-102 | a run applies something if and only if one of its plans is acceptable on the pod as it came |
| `Requests.ResponseWarns` | internal/webhook/pod/handler.go:117-126 | the warnings of an answer are exactly the listed shims' complaints and the engine's warnings |
| `Requests.InputExact` | internal/webhook/pod/handler.go:217-224 | parameters are resolved from the pod's metadata, the service account and namespace as read, the builtins, and ConfigMaps of the shim's own namespace or, for a cluster shim, the configured one or the pod's |
| `Handler.HandleIgnoresListOrder` | internal/webhook/pod/handler.go:167-193 | the outcome does not depend on the order in which shims are listed |
| `Precedence.OneShimPerName` | internal/webhook/pod/handler.go:116-117 | the applied plans of every request have pairwise distinct shim names |
| `Precedence.NamespacedFirst` | internal/webhook/pod/handler.go:167-193 | namespaced plans precede cluster-wide plans, each group in name order |
| `Precedence.NamespacedWins` | internal/webhook/pod/handler.go:167-193 | on a shared name the cluster plan is applied only if the namespaced one was refused with a warning, and is warned about when the namespaced one is accepted |
| `Precedence.PlansAccounted` | internal/webhook/pod/handler.go:116-125 | every plan handed to the engine is applied or named by a warning of the response |
| `Precedence.EveryShimAccounted` | internal/webhook/pod/handler.go:195-244 | no listed shim is dropped silently: it does not match, a warning names it, or its plan is applied or warned about |
| `Admission.AdmittedPodsDeliver` | internal/webhook/pod/handler.go:116-133 | every patched pod delivers every file of every applied shim, exactly unless it is shadowed or blocked |
| `Admission.AdmittedPodsGetTokens` | internal/webhook/pod/handler.go:116-133 | every applied shim's token reaches its targets exactly when its file stays inside the directory and nothing is in its way |
| `Admission.AdmittedHelpersFindSocket` | internal/webhook/pod/handler.go:116-133 | every applied shim's helpers find the agent's socket exactly when nothing is in the way |
| `Admission.CountedExactly` | internal/controller/shim_reconcile.go:116-127 | the controller's label selection picks up exactly the pods a plan of that name and kind was applied to |
| `Admission.AdmittedPodsAdmissible` | internal/webhook/pod/handler.go:116-133 | a patched pod stays admissible exactly under those conditions |
| `Admission.AdmittedPodsRecordShims` | internal/webhook/pod/handler.go:116-133 | a patched pod is marked and its record decodes to the applied, listed shims in order |
| `Handler.HandleEffect` | internal/webhook/pod/handler.go:94-125 | the handler changes a pod exactly when it patches it, then marks it, and never touches a marked pod |
| `Handler.AtMostOneInjection` | internal/webhook/pod/handler.go:94-96 | over any interleaving with mutations that keep the status, at most one request changes the pod |
| `Admission.RejectedYetPlanned` | internal/webhook/pod/handler.go:204-241 | a shim the validator rejects is planned exactly when it matches, resolves and builds and breaks one of the five rules admission does not check |
| `Reconcile.CountMatchedPods` | internal/controller/shim_reconcile.go:130-152 | the page loop returns the wrapped total, or fails when any page does |
| `Reconcile.TotalAdds` | internal/controller/shim_reconcile.go:130-152 | totals add up over pages |
| `Reconcile.CountFaithful` | internal/controller/shim_reconcile.go:148-150 | the reported number is an int32 congruent to the number of pods, and equal to it exactly below 2^31 |
| `Reconcile.ReconcileShim` | internal/controller/shim_reconcile.go:72-104 | the method stores the desired status, or keeps the old one when the update is rejected, and writes only on change |
| `Reconcile.ReconcileExact` | internal/controller/shim_reconcile.go:72-104 | one reconcile fails to update exactly when the stored status does not describe the object and the update is rejected, and then changes nothing; otherwise the status describes it: readiness, reason, problems, generation, count, and a transition time that moves only with the status |
| `Reconcile.SetConditionStores` | internal/controller/shim_reconcile.go:87 | the stored Ready condition is the new one and other conditions are untouched |
| `Reconcile.Quiescent` | internal/controller/shim_reconcile.go:95-99 | reconciling again with the same spec and count, or a failed count, writes nothing |
| `Reconcile.StatusTruthful` | internal/controller/shim_reconcile.go:65-104 | after any run, a stored Ready is True exactly when the validator accepts the spec of the observed generation, and the pod count is the last one stored |
| `Reconcile.ReadyAfterReconcile` | internal/controller/shim_reconcile.go:76-88 | after a stored reconcile readiness is exactly validity of the current spec |
| `Options.NameListFlag.Set` | internal/config/options.go:110-122 | setting stores the parsed names, and printing them sets the same list again |

## Left out

- Templates.Progress: one direction only; an ill-kinded branch that is never taken does no harm (`Templates.DeadBranchHarmless`). The equivalence is `Templates.RenderExact`.
- Uniqueness.InjectionKeepsAdmissible: `Admissible` leaves out the API server's syntax checks on values that are copied through unchanged (variable names, CSI driver names, images, resources, security contexts) and on annotation and label keys.
- Directories in a token file name: whether spiffe-helper creates them is up to it; the model says where the path leads.
- What a volume already holds: a read-only mount above a path counts as being in the way even if the volume happens to contain the mount point.
- Go's template lexer and the rest of its language: `$` variables, `define` and `template`, `range`, pipelines with several commands, other builtin functions. `walkNode` does not visit `$` variables or `define` bodies, so the laws about referenced keys do not extend to them.
- Warning and error texts, logging, admission decoding and JSON patch generation.
- Security context, resources, image pull policy and the helper image's effect: copied through unchanged.
- Aliasing of resources and security context between the shim cache and the pod; specs and plans are values.
- Multi-byte characters: Unicode white space in `TrimSpace`, the long s that `EqualFold` takes for an s when a pod opts out, and `strconv.Quote`'s treatment of non-printable runes above 0x7f.
- Stale informer reads and optimistic concurrency in the reconcile; a rejected update stands for both.
- `Exclusions.Excluded`, `Options.Validate`, `ApplyEnv` and flag binding: single-branch code; exclusion is an input and the relevant option checks are a predicate.
- Manager wiring, generated deep copies, CRD schemas and everything under `config/`.
