# Verified model of the gateway's control plane

This project models the core of a control plane for a standalone Envoy gateway and proves properties of the
model. It covers four parts.

* **The configuration compiler** (link, build, synthesize, materialize, cross-reference check). Messages that the
  compiler only copies are values; listeners, filter chains, filters and clusters are objects, because the compiler
  rewrites them in place and the chains of one HTTPS listener share one connection-manager filter.
* **The publish state machine and its files.** Database tables, snapshots and the draft form a transition system;
  the publisher is an object whose every state is shown to be a state of a run of that system, with any store,
  snapshot, compile or delivery call allowed to fail. Draft replacement is modelled down to each stat and move.
* **Delivery and hot restart**: the process record, epoch allocation, the static artifact and its restoration.
* **In-place buffers**: the login window, the restart backoff window and the metrics ring, each against the plain
  list of everything ever recorded.

The main results:

* `Compile.Compile` succeeds exactly when the link checks and the build succeed, in either mode; no later stage
  reports an error, the result has no dangling reference, and the data plane then serves exactly the configured
  listeners where they are configured, each with its own routes, certificates and client CA, and exactly the clusters of
  the upstreams and of the authorization services. What that means is told from the configuration alone:
  `ServedRules.ServedRule` for the match, the traffic shares and the policies of a rule, with the nearest of rule, route,
  listener and Gateway winning (`BuildValues.NearestGoverns`), `ServedAuth.ServedExtAuth` for the contacted
  authorization service, `ServedAuth.ServedIpAccess` for the admitted addresses, `ServedListeners.ServedTls` for
  certificates and client certificates, and its neighbours for forwarding and endpoints.
* `ModeEquivalence.ModesAgree`: for any work set, user resources included, the xDS and the static result mean the
  same exactly when no compiled TLS context carries a certificate reference of its own and every cluster whose
  endpoints move out is a STATIC cluster with an assignment under its own name.
* `PublishRuns.ExactlyOneForever`, `PublishRuns.HistoryGrows` and `Publisher.Serve`: over every run, one active
  publish, one effective version from the first confirmation on, and a history that only grows; what a publish leaves
  in the tables is exact for every fault (`Publisher.PublisherObject.PublishWithBaseLocked`, `Publisher.RowsMean`). `Watching.Watch.Handle`:
  a report makes a version effective only if some poll of the data plane saw its IR, and nothing else.
* `DraftReplace.Disk.Commit`, `Supervisor.Live`, `StaticDelivery.Server.Apply`: what survives every combination of
  failures, with the exact condition where something does not.

Verify with `dafny verify dfyconfig.toml`, or give all `.dfy` files to one `dafny verify`.

## Assumptions

* Structural validation ran first: one-of fields are sum types, object names are unique per kind and contain no `/`
  (`Config.WellFormed`).
* Certificate name extraction, the certificate file checks, the digest, the IP-literal test and the text form of a CIDR
  prefix are parameters. The text form is assumed to be injective, for the addresses a rule admits, and the digest on the
  provider keys in use, for the service behind an authorization filter. Parsing a URL leaves no `|` in scheme and host.
* A SQL statement or transaction, a rename and the creation of a file are atomic. The clock does not run backwards.
  No other process edits the draft during one call. Removing a partly written target or an installed entry succeeds.
* Integers are unbounded where the source uses 64-bit counters and durations; the doubling loop of the backoff is
  shown not to exceed its maximum.

## Where the code falls short of the property

Each of these has a concrete input and the exact condition under which the property holds.

* A cluster with a custom cluster type reads as STATIC, so xDS mode replaces its type by EDS
  (`ModeEquivalence.CustomClusterDiverges`; condition: `ModeEquivalence.ModesAgree`).
* An HTTPS listener with an empty certificate list passes every check and is then left out of the result
  (`Compile.ListenerWithoutCertificatesVanishes`; condition: `Compile.Compile` serves exactly the listeners for which
  `ListenerValues.Produced` holds).
* The hostname check compares distinct routes only, so the domains of a listener's virtual hosts can collide
  (`VirtualHosts.OneRouteMayRepeatItself`; condition: `VirtualHosts.DomainsUnambiguousIff`).
* Two HTTP authorization providers with different path prefixes and CA files can have one key, because neither part is
  delimited; on one listener they then pass as the same provider (`ProviderKeys.KeyConfusesPaths`). The key of a
  provider fits no other one exactly when neither its path prefix nor its CA file contains `|ca=`
  (`ProviderKeys.KeyNamesProviderIff`); among validated policies the exact condition is a little weaker, because plain
  HTTP has no CA file, HTTPS needs one unless verification is off, and no path starts with the mark
  (`ProviderKeys.ValidatedKeyNamesProviderIff`).
* Draft replacement restores the old draft after a failure, except after a stat error on `native.yaml` that follows
  the removal of `config.d`: that error returns without restoring, and the backup is deleted
  (`DraftReplace.StatErrorLosesDraft`). A backup copy whose source could not be removed completely leaves a partial
  source. Condition: `DraftReplace.Disk.Commit`, `Recovers`.
* Replacing a draft ends with a hash of the new one. When that hash fails, an error is returned over the new draft
  (`Drafts.HashErrorAfterCommit`; condition: `Drafts.DataDir.ReplaceDraft` and `Drafts.DataDir.RollbackSource` give the
  data directory after every error).
* A directory sync that fails after the rename makes `Writer.Write` and `RecordStore.Save` report an error although
  the file was replaced, so a failed delivery can leave the new artifact or the killed child's record behind
  (`StaticDelivery.UnsyncedWriteReplacesArtifact`, `StaticDelivery.UnsyncedSaveRecordsDeadChild`; condition:
  `StaticDelivery.Server.Apply`, `KeepsArtifact` and `KeepsProcess`).
* The canonical encoding prefixes each body with its length but not the names. Two resource sets that
  pass the cross-reference check can then share one hash input, when a user resource's name holds a NUL
  (`Encoding.NulNamesCollide`; condition: `Encoding.DecodesBack`).

## Model

| member | source | states |
|---|---|---|
| `Names.SecretBelongs` | internal/compile/names.go:25-30 | a certificate secret's name belongs to exactly the listener it is named after |
| `Names.SecretInjective` | internal/compile/names.go:25-27 | a secret name determines its listener and number |
| `Link.BuildIndex` | internal/compile/link.go:53-62 | the index holds exactly the named listeners, upstreams and policies |
| `Link.ResolvePolicyRefs` | internal/compile/link.go:116-131 | no error exactly when every policy reference resolves |
| `Link.ResolveReferences` | internal/compile/link.go:53-112 | no error exactly when no listener, upstream or policy reference of the configuration dangles |
| `Link.CheckListenerAddressUnique` | internal/compile/link.go:135-149 | no error exactly when no two listeners share address and port, the joined key being injective |
| `Link.CheckRouteForm` | internal/compile/link.go:155-197 | no error exactly when every route has one form and fits the protocol of every listener it attaches to |
| `Link.CheckTlsRules` | internal/compile/link.go:438-455 | no error exactly when HTTPS listeners, and only they, have a TLS section |
| `LinkL4.CheckL4RouteConstraints` | internal/compile/link.go:203-304 | no error exactly when L4 listeners carry no HTTP settings, TCP and UDP have one route and the normalised server names of a TLS listener are distinct and non-empty |
| `LinkL4.SniBelongsToOne` | internal/compile/link.go:263-299 | on an accepted TLS listener a normalised server name belongs to one route |
| `LinkHostnames.CheckHostnameConflicts` | internal/compile/link.go:309-350 | no error exactly when no two distinct routes claim one lower-cased hostname on an existing listener |
| `LinkHostnames.DomainNamesOneRoute` | internal/compile/link.go:309-350 | after a clean check a folded domain names one virtual host of a listener |
| `VirtualHosts.DomainsUnambiguousIff` | internal/compile/build_route.go:38-52 | after the link checks the domains of all virtual hosts of a listener are pairwise distinct up to case exactly when no attached route lists a hostname twice |
| `VirtualHosts.OneRouteMayRepeatItself` | internal/compile/link.go:309-350 | an accepted configuration whose virtual hosts share a domain |
| `Policies.NormalizePolicies` | internal/compile/build_policy.go:54-86 | the nested loops compute the fold of all attachments in level order |
| `Policies.NormalisationIsNearest` | internal/compile/build_policy.go:54-86 | for each policy type the result is that of the last attachment of the type, inline or by reference, or none |
| `BuildValues.NearestGoverns` | internal/compile/build_route.go:92-94 | for every policy type, what governs a rule is the last attachment of the type at the rule, else at its route, else at the listener, else at the Gateway; a basicAuth policy at any level is unsupported |
| `Policies.BuildPerFilter` | internal/compile/build_policy.go:142-199 | one entry per policy in force, that of an ipAccess policy being its principal |
| `Policies.AccessKeepsMeaning` | internal/compile/build_policy.go:162-165 | a rule admits exactly the addresses its effective ipAccess policy admits, and all of them without one |
| `Policies.LoweringKeepsMeaning` | internal/compile/build_policy.go:181-194 | listener filter plus finalized per-route override run ext_authz exactly when the effective policy wants it |
| `BuildRoutes.RegisterExtAuth` | internal/compile/build_extauth.go:35-55 | registration succeeds exactly while all wanted providers are real and share one key; then the assembly is the first one's and its cluster, leading to that provider's host and port, is the only one added |
| `ServedRules.ActionDoes` | internal/compile/build_route.go:196-216 | every upstream gets the sum of the weights of its backends, one where unset, and no other cluster is named; a single unweighted backend is a plain cluster, a redirect keeps its code and a response its status |
| `BuildRoutes.BuildRule` | internal/compile/build_route.go:69-108 | the route of the rule, and no error exactly when its own settings are valid and its provider fits |
| `BuildRoutes.BuildVirtualHost` | internal/compile/build_route.go:20-34 | all rules in order under the sorted domains, the providers registered in rule order |
| `BuildRoutes.FinalizeExtAuthRoutes` | internal/compile/build_extauth.go:183-208 | without a listener filter overrides are dropped, with one every unconfigured route is disabled |
| `BuildRoutes.BuildHcm` | internal/compile/build_listener.go:187-240 | the connection manager and route configuration of the listener, and no error exactly when providers agree and all rules are valid |
| `BuildValues.ExtAuthKeepsMeaning` | internal/compile/build_extauth.go:35-78 | on a listener whose providers share one key, ext_authz runs on a rule exactly when the nearest attachment exists and is not disabled, and the filter is that of a provider with that policy's key |
| `ProviderKeys.KeyNamesPlace` | internal/compile/build_extauth.go:57-78 | policies with one key name the same kind of service at the same host and port with the same failure mode; they are the same provider when neither path prefix contains the CA mark |
| `ProviderKeys.KeyNamesProviderIff` | internal/compile/build_extauth.go:57-78 | a key fits one provider only exactly when neither its path prefix nor its CA file contains the CA mark |
| `ProviderKeys.ValidatedKeyNamesProviderIff` | internal/protocol/policy.go:247-269 | the same among validated policies, exactly when the policy cannot be cut at a mark into another validated one |
| `ProviderKeys.ProviderHasOneKey` | internal/compile/build_extauth.go:57-78 | the same provider, up to case of scheme and host, has one key |
| `ProviderKeys.KeyConfusesPaths` | internal/compile/build_extauth.go:57-78 | two validated providers with different paths and CA files and one key |
| `BuildListeners.DedupSortedInPlace` | internal/compile/build_listener.go:48-58 | the sorted name list is compacted in place to its distinct names |
| `BuildListeners.BuildHttpsFilterChains` | internal/compile/build_listener.go:144-182 | one chain per certificate, all holding the same filter object; no error exactly when every certificate names hosts and no host is claimed twice |
| `BuildListeners.BuildHttpListener` | internal/compile/build_listener.go:61-130 | the listener shows exactly the configured chains and is bound to the configured address; it is absent exactly when an HTTPS listener has no certificates |
| `BuildListeners.ForwardRoutesFor` | internal/compile/build_l4.go:34-42 | the forward routes attached to the listener, in name order |
| `BuildListeners.BuildL4Listener` | internal/compile/build_l4.go:18-151 | a listener that shows the configured TCP, TLS or UDP proxy, bound to the configured address, only UDP to a datagram socket; the route list is never indexed while empty |
| `ListenerValues.LinkedIsBuildable` | internal/compile/build_l4.go:18-31 | after the link checks no build indexes an empty route list or a missing TLS section |
| `ListenerValues.OneForward` | internal/compile/build_l4.go:34-56 | TCP and UDP listeners forward to exactly the one attached route |
| `ListenerValues.SniSelectsOneChain` | internal/compile/build_l4.go:58-109 | a normalised server name selects at most one compiled chain, and that chain forwards to the upstream of the route that declares it |
| `ListenerValues.DeclaredSniHasChain` | internal/compile/build_l4.go:58-109 | every declared server name has a chain to its route's upstream |
| `ListenerValues.HttpsNameSelectsOneChain` | internal/compile/build_listener.go:144-182 | on a built HTTPS listener a server name selects at most one chain, the one whose certificate names it |
| `ListenerValues.CertificateNameHasChain` | internal/compile/build_listener.go:144-182 | every name of a certificate has a chain with that certificate |
| `Build.BuildAllListeners` | internal/compile/build.go:34-81 | all listeners in name order, none sharing an object with another; no error exactly when every HTTP listener is valid; the authorization clusters are exactly those of the listeners' providers, the later of one name staying |
| `Build.AuthComesFrom` | internal/compile/build_extauth.go:85-126 | every authorization cluster is that of some listener's provider, under its own name |
| `Build.BuildUpstreams` | internal/compile/build_upstream.go:22-117 | one cluster per upstream, its assignment under the cluster's own name; an unresolved Kubernetes source is an error |
| `Build.BuildAllClusters` | internal/compile/build.go:34-81 | the sorted clusters are those of the upstreams and of the external authorization services, with distinct names |
| `CompiledSecrets.ExtractFromListener` | internal/compile/patch.go:93-147 | one secret per TLS chain under its ordinal and one client CA for the listener |
| `CompiledSecrets.ExtractCompiledSecrets` | internal/compile/patch.go:93-147 | the secrets of all listeners in order, and exactly the names of compiled listeners and secrets |
| `CompiledSecrets.ListenerSecretsUnique` | internal/compile/patch.go:93-147 | the secrets of a listener have distinct names |
| `TidyWork.SecretsUnique` | internal/compile/patch.go:93-147 | so do the secrets of all listeners together |
| `TidyWork.ChainFindsSecrets` | internal/compile/materialize.go:104-219 | chain n finds certificate n of its own listener, and the listener's client CA |
| `TidyWork.SecretsAreUsed` | internal/compile/materialize.go:223-233 | no extracted secret is an orphan |
| `Materialize.CheckOrphanSecrets` | internal/compile/materialize.go:223-233 | no error exactly when every compiled secret of the listener is used |
| `Materialize.ReferenceSds` | internal/compile/materialize.go:104-147 | every TLS context now names its secrets; no error exactly when all are found and none is orphaned |
| `Materialize.FindHcmFilter` | internal/compile/patch.go:633-642 | the first connection manager of the listener, or none |
| `Materialize.InlineListener` | internal/compile/materialize.go:151-219 | certificates and CA are inline again and only references to inlined routes changed, under any sharing of filters; with one shared connection manager no chain keeps a route reference |
| `WorkSet.ShapeXds` | internal/compile/materialize.go:34-100 | shaping one listener changes no other; no error exactly when every compiled listener can be shaped |
| `WorkSet.ShapeStatic` | internal/compile/materialize.go:34-100 | the same for the static shape, with exactly the inlined route configurations recorded |
| `WorkSet.ExtractEds` | internal/compile/materialize.go:237-260 | exactly the clusters that read as STATIC give up their assignment; an error exactly on a name collision |
| `Synthesis.WorkSetObject.MaterializeXds` | internal/compile/materialize.go:34-100 | succeeds exactly when every listener and cluster can be shaped, and then holds the xDS form of the work set by name |
| `Synthesis.WorkSetObject.MaterializeStatic` | internal/compile/materialize.go:34-100 | succeeds exactly when every listener can be shaped, and then holds the static form; listeners with one connection manager keep no route reference |
| `CrossRefs.CheckRouteConfigRefs` | internal/compile/validate.go:281-308 | no error exactly when every cluster a route names exists |
| `CrossRefs.CheckCrossRefs` | internal/compile/validate.go:148-229 | no error exactly when every RDS, SDS, EDS, TCP, UDP, ext_authz and route-to-cluster reference resolves |
| `ModeEquivalence.ModesAgree` | internal/compile/materialize.go:34-260 | both forms of a work set mean the same exactly when it is clean |
| `ModeEquivalence.CustomClusterDiverges` | internal/compile/materialize.go:237-260 | a custom cluster type for which both modes succeed and differ |
| `TidyWork.BothAccept` | internal/compile/materialize.go:34-100 | a work set with resolving references and plain TLS contexts is accepted in both modes |
| `TidyMeaning.XdsMeaning` | internal/compile/materialize.go:104-147 | its xDS form has no dangling reference and means the work set |
| `TidyMeaning.StaticMeaning` | internal/compile/materialize.go:151-219 | so does its static form once no route reference is left |
| `CompiledWork.CompiledIsTidy` | internal/compile/link.go:53-112 | the link checks make every compiled work set such a work set |
| `LinkChecks.CheckPolicyAttachmentLevels` | internal/compile/link.go:366-401 | no error exactly when no rule carries an ipAccess policy, inline or by reference |
| `LinkChecks.AccessIsPerRoute` | internal/compile/link.go:363-366 | after a clean check all rules of a route on a listener are under one ipAccess policy, that of the nearest outer level |
| `LinkChecks.CheckCertificates` | internal/compile/link.go:463-501 | no error exactly when every certificate and key are a pair and every client CA file parses |
| `LinkChecks.CheckKubernetesService` | internal/compile/link.go:505-518 | no error exactly when an endpoint source is there or no upstream needs one |
| `Compile.LinkAll` | internal/compile/link.go:22-44 | no error exactly when every link check passes |
| `Compile.BuildWork` | internal/compile/build.go:34-81 | no error exactly when all listeners and upstreams can be built, and then the work set is the configuration's, authorization clusters included |
| `Compile.StaticStandsAlone` | internal/compile/materialize.go:34-100 | the static result of a configuration contains no route, secret or endpoint resource |
| `Compile.Compile` | internal/compile/compile.go:20-54 | succeeds exactly when linking and building do, in either mode; errors of one stage only; the result is closed and serves exactly the configured listeners, bound where they are configured, and clusters |
| `Compile.BoundApart` | internal/compile/link.go:135-149 | every listener is served at its configured address and port, and no two served listeners share one |
| `Compile.ModeDoesNotMatter` | internal/compile/compile.go:20-54 | results of the two modes mean the same |
| `ServedAuth.ServedExtAuth` | internal/compile/build_extauth.go:35-208 | in the compiled result, on every chain, every rule of every attached route is authorized exactly as the nearest attachment of rule, route, listener and Gateway asks, and the filter's cluster leads to the host and port of that policy's service, with its failure mode, kind and scheme, and its path unless another validated provider has its key |
| `ServedAuth.ServedIpAccess` | internal/compile/build_policy.go:162-229 | in the compiled result, on every chain, every rule of every attached route admits exactly the addresses that its nearest ipAccess attachment admits |
| `ServedRules.ServedRule` | internal/compile/build_route.go:20-108 | in the compiled result, on every chain, every rule of every attached route is found under the route's virtual host at its own position, with its match, its traffic shares and the entries of its nearest policies |
| `ServedRules.ServedVhost` | internal/compile/build_route.go:20-34 | every virtual host is that of one attached route, with its hostnames or the catch-all |
| `ServedRules.ServedFilterOrder` | internal/compile/build_policy.go:89-140 | the filters come in the fixed order, each once, the router last; ext_authz is there exactly when some rule wants it |
| `ServedListeners.ServedTls` | internal/compile/build_listener.go:266-310 | chain n of an HTTPS listener serves the names of certificate n under exactly that file pair; a client certificate is demanded exactly when a client CA is configured, and checked against that CA |
| `ServedListeners.ServedNameHasOneCertificate` | internal/compile/build_listener.go:144-182 | under a server name at most one certificate is presented |
| `ServedListeners.ServedPlain` | internal/compile/build_listener.go:61-130 | an HTTP listener has one chain, for any name and without TLS |
| `ServedListeners.ServedForward` | internal/compile/build_l4.go:34-151 | a TCP or UDP listener sends everything to the upstream of its one attached route |
| `ServedListeners.ServedPassthrough` | internal/compile/build_l4.go:58-109 | every attached route of a TLS listener has a chain for its normalised server names to its upstream, behind the TLS inspector and without terminating TLS |
| `ServedListeners.ServedPassthroughOnly` | internal/compile/build_l4.go:58-109 | and every chain is that of an attached route |
| `ServedListeners.ServedUpstream` | internal/compile/build_upstream.go:22-117 | the cluster of an upstream holds the upstream's own endpoints, or its DNS name with the configured resolution |
| `ServedAuth.FilterLeadsToProvider` | internal/compile/build_extauth.go:80-126 | the cluster a listener's filter names leads to the listener's provider, whichever listener defined it |
| `Compile.ListenerWithoutCertificatesVanishes` | internal/compile/build_listener.go:61-130 | an accepted configuration whose only listener no result serves |
| `IpAccess.CidrPrincipals` | internal/compile/build_policy.go:231-252 | the masked prefixes, each once, in text order |
| `IpAccess.PrincipalAdmits` | internal/compile/build_policy.go:201-229 | the tree of principals matches an address exactly when the policy admits it |
| `IpAccess.BuildIpAccess` | internal/compile/build_policy.go:201-261 | the principal of the policy, which admits an address exactly when the allow list is empty or contains it and the deny list does not |
| `IpAccess.CanonicalOrder` | internal/compile/build_policy.go:231-252 | lists with the same masked prefixes compile to the same principals |
| `Encoding.MarshalDeterministic` | internal/ir/ir.go:88-129 | the bytes are the hash input of the resource maps |
| `Encoding.HashInputIsUnique` | internal/ir/ir.go:88-150 | a resource set has one hash input, whatever order its maps are read in |
| `Encoding.DecodesBack` | internal/ir/ir.go:88-129 | the bytes decode to exactly the records exactly when no name holds a NUL |
| `Encoding.HashInputIsFaithful` | internal/ir/ir.go:88-129 | different resource sets without NUL in names have different hash inputs |
| `Encoding.NulNamesCollide` | internal/ir/ir.go:88-129 | two resource sets with an EDS assignment and a bootstrap that pass the cross-reference check and share one hash input; one cluster name holds a NUL |
| `Encoding.HashDraft` | internal/conf/draft.go:125-155 | the bytes fed to the draft hash |
| `Encoding.PartsDecodeBack` | internal/conf/draft.go:125-155 | they decode to exactly the ordered list of paths and contents |
| `Store.Tables.NextVersionSeq` | internal/store/store.go:220-239 | reserves the number one above the greatest, or does nothing |
| `Store.Tables.InsertVersion` | internal/store/store.go:242-262 | writes the row of a positive number, or does nothing |
| `Store.Tables.LatestVersion` | internal/store/store.go:312-322 | the greatest matching number that is not reserved, or none when there is none |
| `Store.Tables.CreatePublishRun` | internal/store/store.go:344-366 | a new run, refused exactly when another run is active or the statement fails |
| `Store.Tables.UpdatePublishRun` | internal/store/store.go:369-381 | rewrites the run's row, refused by the index exactly when another run is active |
| `Store.Tables.TransitionPublish` | internal/store/store.go:387-428 | all of the transition or nothing: only a linked, recorded version moves, and superseding leaves no other effective version |
| `Store.Tables.ActivePublishRuns` | internal/store/store.go:459-495 | exactly the active runs, in order |
| `PublishRuns.StepKeepsInv` | internal/store/store.go:117-119 | every statement the publisher may issue keeps one active run, one effective version, matching run and version states and backward links |
| `PublishRuns.RunsAreSafe` | internal/conf/publish.go:129-325 | the same in every state of every run |
| `PublishRuns.ExactlyOneForever` | internal/store/store.go:312-322 | once a version is effective every later state has exactly one, which is the latest effective one |
| `PublishRuns.OnlyConfirmed` | internal/store/store.go:387-428 | a version becomes effective only by confirming the active run it is linked to |
| `PublishRuns.HistoryGrows` | internal/store/store.go:220-262 | numbers strictly increase, snapshots never change, and of a recorded version only the state changes |
| `PublishRuns.Ancestry` | internal/conf/publish.go:188-236 | the walk along parents strictly descends and ends |
| `Publisher.PublisherObject.PublishWithBaseLocked` | internal/conf/publish.go:129-260 | accepted exactly when the draft loads and matches the token, no run is active, the configuration compiles and no call fails; leaves the effective version alone, stays settled while run updates succeed, and an accepted publish is confirming, delivered, snapshotted and linked to the latest version; for every fault the tables, the snapshots and the delivered versions afterwards are exact |
| `Publisher.RowsMean` | internal/conf/publish.go:183-260 | what the run and the version row of a publish with a number say: confirming exactly when accepted, failed exactly when the data plane refused it, only reserved before the row is written |
| `Publisher.EarlyRunMeans` | internal/conf/publish.go:155-190 | what the run of a publish without a number says: validation failed exactly on a load or compile error |
| `Publisher.PublisherObject.HandleConfirmEvent` | internal/conf/publish.go:68-86 | moves exactly the active run whose recorded version has the reported IR: to effective, alone, when that IR was observed, to timeout otherwise; every other report changes nothing |
| `Publisher.AnswerMeans` | internal/conf/publish.go:68-86 | a decisive report leaves no run active and makes the version the one effective version, or times run and version out |
| `Publisher.PublisherObject.Confirm` | internal/conf/publish.go:263-291 | succeeds exactly on a confirming run whose IR was observed, and then that version alone is effective |
| `Publisher.PublisherObject.Recheck` | internal/conf/publish.go:296-325 | moves a timed-out run and its version back exactly when no run is active and no call fails; nothing becomes effective |
| `Publisher.PublisherObject.RollbackPublish` | internal/conf/rollback.go:90-104 | accepted exactly when the snapshot is restored, the draft hashed and the publish accepted; whenever the files are put back the draft holds them; it publishes the files of the old snapshot again and points back to it |
| `Publisher.PublisherObject.Publish` | internal/conf/publish.go:105-117 | the published version is the one effective version exactly when the publish is accepted and the confirmation meets no fault |
| `Publisher.Serve` | internal/conf/publish.go:68-325 | whatever is asked in whatever order with whatever failures, the states form a run; while run updates succeed the publisher is found settled |
| `DraftReplace.MoveDraftPath` | internal/conf/replace.go:163-178 | rename, or copy and removal across devices, with cleanup of the target: succeeds entirely, or leaves the target alone and the source intact up to an unfinished removal |
| `DraftReplace.Disk.Restore` | internal/conf/replace.go:153-158 | exactly the entries whose restoring move succeeds come back |
| `DraftReplace.Disk.Commit` | internal/conf/replace.go:107-158 | success gives exactly the staged entries; after an error the old draft is back exactly when no entry was lost first; native.yaml never meets configuration files; nothing else is touched; the data directory is exact in every case |
| `DraftReplace.FailedCommit` | internal/conf/replace.go:107-158 | what a failed commit leaves is the old draft exactly when it recovers |
| `DraftReplace.StatErrorLosesDraft` | internal/conf/replace.go:112-127 | a stat error after which the old draft is gone |
| `SourcePaths.AcceptedPaths` | internal/conf/replace.go:78-105 | the accepted paths are exactly native.yaml, or YAML files directly below config.d; no path escapes the draft |
| `Drafts.ValidateSourceSet` | internal/conf/replace.go:78-105 | accepts exactly distinct paths of the mode's form |
| `Drafts.DataDir.ReplaceDraft` | internal/conf/replace.go:22-76 | succeeds exactly when reading, the token, the source set, staging, loading, the commit and the last hash allow it; once the commit succeeds the draft is exactly the given files; before, an error leaves the draft alone exactly when the commit was not reached or recovers; the data directory is exact in every case |
| `Drafts.HashErrorAfterCommit` | internal/conf/replace.go:72-76 | an error returned although the new draft is in place |
| `Drafts.StageHolds` | internal/conf/replace.go:45-66 | staging a source set and reading it back changes nothing |
| `Drafts.DataDir.LoadDraft` | internal/conf/draft.go:39-81 | creates config.d when it is absent and changes nothing else; refuses a mixed draft |
| `Drafts.DataDir.Snapshot` | internal/conf/draft.go:172-223 | captures the sources under a number that has no snapshot yet, or does nothing; every snapshot has the form of a source set |
| `Drafts.DataDir.RollbackSource` | internal/conf/rollback.go:14-86 | succeeds exactly when the snapshot has files, is not mixed, may overwrite the draft and no call fails; once the commit succeeds the draft's files are exactly those captured; the data directory is exact in every case |
| `Supervisor.Host.Load` | internal/proc/record.go:33-52 | the normalised record, whose next epoch is above its epoch |
| `Supervisor.Host.Save` | internal/proc/record.go:55-101 | the record is replaced unless the save failed before its rename |
| `Supervisor.Process.SpawnAndWait` | internal/proc/supervisor.go:142-173 | succeeds exactly when every step does; keeps the recorded next epoch above every epoch since |
| `Supervisor.Process.HotRestart` | internal/proc/supervisor.go:246-307 | uses the recorded next epoch exactly when that is saved and the child starts; the record afterwards is exact; succeeds exactly when every step does; a failure keeps status and current process always, and the recorded process exactly unless the save of a live child's record failed past its rename |
| `Supervisor.Process.Start` | internal/proc/supervisor.go:102-140 | adopts, gives up, refuses or starts at epoch zero, exactly as the record and the process it names demand |
| `Supervisor.Process.Exited` | internal/proc/supervisor.go:206-242 | only the exit of the current process counts; an epoch-zero process that is not degraded is restarted at epoch zero, any other leaves the supervisor degraded |
| `Supervisor.Live` | internal/proc/supervisor.go:102-307 | over every history of a host, epochs strictly increase between two epoch-zero starts |
| `StaticDelivery.Server.Apply` | internal/deliver/static/server.go:60-112 | succeeds exactly when every step does; failure always keeps the accepted version and the process status, the artifact exactly under KeepsArtifact and the recorded process exactly under KeepsProcess |
| `StaticDelivery.UnsyncedSaveRecordsDeadChild` | internal/deliver/static/server.go:60-112 | a failed delivery after which the record names the killed child |
| `StaticDelivery.UnsyncedWriteReplacesArtifact` | internal/deliver/static/writer.go:17-55 | a failed delivery after which the artifact is the new one |
| `Limiter.AddressLog.Compact` | internal/auth/limiter.go:36-42 | compaction in place keeps exactly the entries after the cutoff, and nothing changes when all are kept |
| `Limiter.AddressLog.Admit` | internal/auth/limiter.go:36-47 | refuses exactly when ten admissions lie in the last minute; a refusal leaves the log as it was and its delay is exact |
| `Limiter.TenPerMinute` | internal/auth/limiter.go:36-47 | at most ten admissions fall into any minute |
| `Limiter.LoginLimiter.Allow` | internal/auth/limiter.go:25-48 | the account lock is checked first and only an expired one is forgotten; every other account and address is untouched |
| `Limiter.FailuresCount` | internal/auth/limiter.go:25-67 | without a success every failure of a name counts, whatever attempts lie between and whatever other names do |
| `Limiter.FifthFailureLocks` | internal/auth/limiter.go:25-67 | the fifth one locks the name for five minutes from that failure |
| `Limiter.LockHolds` | internal/auth/limiter.go:25-67 | a lock lasts to its end unless the name succeeds or fails five times more, and the first attempt after it starts over |
| `Limiter.Serve` | internal/auth/limiter.go:25-67 | over any sequence of calls each account is what its own history makes of it, and an attempt on a locked account is told the time left |
| `Limiter.LoginLimiter.Failure` | internal/auth/limiter.go:50-61 | counts the failure under the folded name |
| `Limiter.EveryFifthFailureLocks` | internal/auth/limiter.go:50-61 | every fifth failure in a row locks the account for five minutes |
| `Backoff.RestartBackoff.Delay` | internal/proc/backoff.go:38-48 | the delay is the initial one doubled per earlier failure of the streak, capped, and no value on the way exceeds the cap |
| `Backoff.RestartBackoff.Fail` | internal/proc/backoff.go:22-50 | the delay counts failures since the last stable run; degraded exactly when enough failures of the whole history lie in the last ten minutes |
| `Backoff.StreakIsMaximal` | internal/proc/backoff.go:35-49 | the streak is the longest run of failures at the end after a stable one |
| `Backoff.RestartBackoff.Reset` | internal/proc/backoff.go:53-58 | clears window, streak and history |
| `Backoff.Poller.RecordBackoff` | internal/state/state.go:531-549 | the delay after the f-th failure in a row is min(2^(f-1), 60) seconds |
| `Series.Ring.Put` | internal/state/series.go:68-72 | the ring holds the last samples of everything ever added |
| `Series.SeriesStore.Add` | internal/state/series.go:57-74 | refused exactly when it would start one series too many; other series are untouched |
| `Series.TrimSeries` | internal/api/state_handlers.go:212-234 | exactly the last min(samples, capacity, window/interval) samples, oldest first |
| `Confirmation.Walk` | internal/state/state.go:579-600 | collects exactly the version infos of the tree with the type above each |
| `Confirmation.ListedIsReached` | internal/state/state.go:579-600 | every collected version lies at the end of a path through the tree |
| `Confirmation.ReachedIsListed` | internal/state/state.go:579-600 | and whatever a path leads to is collected |
| `Confirmation.VersionsAre` | internal/state/state.go:602-616 | a version counts exactly when it is not empty and the type above it mentions neither endpoint nor eds in any case of letters |
| `Confirmation.Filter` | internal/state/state.go:602-610 | endpoint resources are dropped in place |
| `Confirmation.ConfigDumpVersions` | internal/state/state.go:573-631 | the observed string of the non-empty versions outside endpoint resources |
| `Confirmation.ObservedIsExact` | internal/state/state.go:611-630 | it equals an expected version that cannot be read as a list exactly when that is the only version |
| `Confirmation.ExactIff` | internal/state/state.go:611-630 | comparing the observed string decides whether the expected version is the only one, exactly when no comma separates two non-empty ascending parts of it |
| `Confirmation.Service.ExpectVersion` | internal/state/state.go:311-326 | opens a registration without an answer |
| `Confirmation.Service.Refresh` | internal/state/state.go:382-400 | a registration gets at most one answer: confirmed exactly when the versions read as the expected one, timed out exactly when they do not and the deadline has passed |
| `Watching.Watch.Poll` | internal/state/state.go:382-400 | an answer is sent exactly when a registration is open and was seen or timed out, and is lost exactly when the channel is full; every confirmation in the channel goes back to a poll |
| `Watching.Watch.Handle` | internal/conf/publish.go:36-86 | the effective version changes only to an awaited version whose IR some poll saw, alone unless it reads as a list; a decisive report that meets no fault has its effect |

## Left out

- Envoy patches and EnvoyResources: the content of patches is a library's, and their target location, decoding and insertion are not modelled; `ModeEquivalence.ModesAgree` still covers work sets with user resources.
- Default filling, and the resolution of managed certificate references to their file pair: single-branch rules over data the model takes as given.
- JWT provider assembly, CORS, rate limits, header operations, retries, timeouts, route matches, health checks and upstream TLS: copied into messages whose meaning lives in Envoy; the model carries them as opaque text.
- Structural validation of messages in stage F6, the source map and compile warnings.
- LinkChecks.CheckCertificates: an entry is a pair of files; a managed reference is taken as resolved, so an unavailable store or an invalid reference is not an error here.
- Build.BuildUpstreams: a cluster carries its name, discovery type and assignment only, so load balancing, health checks and TLS towards upstreams and authorization services are not in it.
- Build.BuildAllClusters: the clusters that fetch JWT key sets are not modelled.
- BuildRoutes.BuildRule: header operations, the scheme of a redirect, the body of a response and the errors of JWT registration are not modelled.
- Policies.BuildPerFilter: the errors of JWT registration and of message marshalling are not modelled.
- BuildRoutes.BuildHcm: JWT assembly and access log settings are not modelled.
- BuildListeners.DedupSortedInPlace: certificate parsing itself is a parameter.
- Encoding.HashInputIsFaithful: sets with a NUL in a name are left out; one such pair collides, and that their records never decode is `Encoding.DecodesBack`.
- Publisher.PublisherObject.PublishWithBaseLocked: that an active run is confirming needs the run updates to succeed; a failed update leaves an active run that only a later report can move, as in the source.
- Recovery of a run left active by a crash, and a hot restart racing with a process exit: the code promises nothing there.
- Supervisor.Process.Start: process identity, signals and readiness polling are outcomes of the environment.
- DraftReplace.MoveDraftPath: the copy of a directory is one step that may stop halfway; symbolic links are a copy failure, and cleaning up a target succeeds.
- Limiter.AddressLog.Admit: the backing array has a fixed capacity of ten, which the log never exceeds; growth and reallocation of the slice are not modelled.
- Series.SeriesStore.Add: sample times and the base time are not modelled.
- Store.Tables.InsertVersion: author, message, timestamps and statistics are not modelled.
- Event channels other than the one that carries confirmations; HTTP handlers, sessions, the web UI, the xDS server, the YAML renderer and SQLite itself.
