# Crenel, modelled and proved

Crenel keeps the reverse proxies ("edges") and DNS providers of a small network in agreement
about which hosts are exposed. Every command becomes one transaction: plan a change against the
live state, check ownership, confirm, apply the steps in an order that never announces a host
that is not served, re-read everything, and roll back in reverse if anything went wrong. This
project models that engine, two DNS drivers with an ownership boundary, the configuration's YAML
reader together with the line editor that writes to the same file, the Pi-hole session cache and
the distance transform behind the wordmark, and proves what each of them is for.

`dafny verify dfyconfig.toml` checks everything. A proof that names functions in a `hide`
statement only keeps their bodies out of the solver's sight.

## How the parts fit

| part | modules |
|---|---|
| values: routes, live edges, records, changes; what a change leaves of a zone | `Model`, `Zones` |
| front-to-downstream links, roles, chain depth | `Topology` |
| planning one operation; the words the laws are stated in | `Planner`, `Terms`, `Plans` |
| steps, their order, their compensators | `Steps`, `Orders`, `Announce`, `Sequence` |
| runs forward and back under any environment | `Runs`, `Rollbacks`, `Undo`, `Changes` |
| read-back, gate, the whole flow, what it needs to be given | `Verify`, `Gate`, `Flow`, `Consent`, `Resume`, `Renaming` |
| reconcile | `Canonical`, `Reconcile`, `ReconcileDns`, `Converge`, `Corrections` |
| declarative files | `Declarative`, `Idempotent`, `DeclarativeRun`, `FilePlans` |
| the engine and its providers as mutable objects | `Engine` |
| Cloudflare | `Cloudflare`, `CloudflareRuns`, `CloudflareRefines`, `CloudflareWrites`, `CloudflareDriver` |
| dnscontrol | `DnsControl`, `DnsControlLaws`, `DnsControlGuard`, `DnsControlDriver` |
| YAML reader and origins editor | `Yaml`, `YamlText`, `YamlScalars`, `YamlDocuments`, `YamlFrames`, `YamlLayout`, `YamlEdits`, `YamlParser`, `OriginsEditor`, `OriginsWrites`, `OriginsTokens`, `OriginsLaws`, `OriginsAgree`, `OriginsExact`, `OriginsMisses` |
| session cache, distance transform | `PiholeSession`, `Bevel` |

Code that updates things in place is modelled in place: `Engine.Engine`, `Engine.EdgeProvider`,
`Engine.DnsBackend`, `CloudflareDriver.Server`, `CloudflareDriver.Driver`,
`DnsControlDriver.Driver` and `PiholeSession.OSDoer` are classes, and the loops of the planner,
the parser, the editor, the relaxation and the search are methods with invariants. Each such
method is tied to a function of the old state; the theorems are about those functions. `Plans`,
`Corrections`, `FilePlans`, `Consent`, `Rollbacks`, `Sequence`, `CloudflareWrites`,
`DnsControlGuard`, `OriginsWrites`, `YamlText` and `YamlScalars` say what those functions come to
without naming the tests they are made of: in the fields of the configuration, the file, the live
state and the text.

## What the environment may do

- Whether a step is accepted, refused or answered by a lie (`Rogue`: any report, any new state),
  which edge is wedged, how every compensator answers, whether a snapshot, a re-read or an
  adoption fails, what a probe of the running daemon says and what the user answers are
  parameters of a run (`Env`, `Answers`). Theorems about restoring and resuming assume `Honest`
  providers: a step that reports failure changed nothing, one that reports success did what was
  asked. A failing step's own partial effect is never compensated by the code
  (internal/core/apply.go:147-158), so without that assumption restoring is false. The theorems
  about order also assume it; `NoSilentGreen`, `OtherwiseRollsBack`, `ReconcileIsHonest`,
  `FileIsHonest` and ownership safety do not.
- Host names, record names and record values are normalised text, so the code's comparisons up
  to case and surrounding blanks are equality. The DNS zone test, the service of a host and the
  dial targets are functions of the configuration.
- Edges are known through what internal/ports asks of a provider: a change removes routes, then
  puts routes, stamps what it puts with the marker, and leaves the catch-all deny in place.
- A Cloudflare change removes and replaces records by name and type, an AdGuard change by name and
  answer (internal/drivers/dns/adguard/adguard.go:264-273). A replaced record comes last in the
  zone's listing. That AdGuard's own guard turns a wildcard away when a plan that has one is
  applied is among the refusals a run may meet.
- What dnscontrol makes of a label in dnsconfig.js is a parameter. The theorems that need a rule
  assume dnscontrol's own: `@` is the zone, any other label is put before it.
- The order in which reconcile lists the hosts of its canonical set is arbitrary in the model;
  the code sorts it. Convergence holds for every pair of orders.

## What turned out not to hold

Where a promise fails, the model keeps the code's behaviour and the exact condition is proved, as
an if-and-only-if over all inputs unless the entry says otherwise.

- **An in-place DNS update is not undone.** Swapping adds and removes deletes the updated record
  instead of restoring it: `Runs.DnsUndoRestoresIff`; for a planned operation
  `Undo.OpUndoableIff`, for a reconcile `Converge.ReconcileUndoableIff`, for a file, where only
  pruning two different Cloudflare records at one key is in the way,
  `DeclarativeRun.FileUndoableIff`. AdGuard changes are always undone.
- **An edge's compensator marks what it puts back**, so undoing the removal of an unmanaged route
  leaves the same route with crenel's mark, and that is the whole difference:
  `Runs.EdgeUndoRestoresIff`, `Runs.UndoneRoutes`.
- **The read-back mirrors two of the planner's three skip rules**, although the comment at
  internal/core/apply.go:499 says exactly those are mirrored. Exposing an internal-only service
  cannot verify while a public provider covers it: `Verify.HonestExposeVerifiesIff`.
- **An unexpose that has done all it planned may not read back**: for the same skip rule, and
  because at AdGuard the planner asks whether the wanted answer is there and the read-back whether
  any is: `Verify.HonestUnexposeVerifiesIff`.
- **The DNS read-back has no case for renames**, so a rename verifies exactly when no provider's
  zone covers the new host: `Undo.HonestRenameVerifiesIff`.
- **Forward routes are always plain http, and a wildcard may be replaced under the hosts that
  rely on it**, so reconcile converges exactly when every forward it writes is canonically http,
  every host that rode a wildcard forward still does, and no host that a wildcard record answered
  for comes to meet a wrong one first: `Converge.ReconcileConvergesIff`. Where the plan touches
  no wildcard only the forwards matter: `Converge.PlainSettlesIff`.
- **A reconcile that changes an edge elsewhere cannot verify** while an untouched edge lacks the
  deny: `Converge.HonestReconcileVerifiesIff`.
- **Pruning a host from one edge fails the read-back** while another edge still holds it
  unmanaged, and so does naming a host twice with different policies:
  `DeclarativeRun.HonestFileVerifiesIff`.
- **Pruning takes every listing of a host**, an unmanaged one beside a managed one too:
  `Idempotent.PruneBoundary`.
- **Adoption reads a host's first listing and stamps them all**, so although
  internal/core/declarative.go:127-129 says it never stamps a foreign route, it does where one
  stands behind an adoptable listing, and only there: `Idempotent.AdoptionIsSafeIff`.
- **Adoption is outside the transaction** and is not undone; it changes no answer
  (`DeclarativeRun.AdoptionKeepsAnswers`).
- **The gate reads the last listing of a host**, so a foreign route shadowed by an own one passes
  (`Gate.HiddenOwnerPasses`). On an edge the gate admits exactly the safe changes if and only if
  no listed owner that would be refused stands behind one that is admitted: `Gate.GateIsExactIff`.
  It refuses no safe change anywhere: `Gate.SafeIsAdmitted`.
- **Cloudflare's `Apply` partitions one listing taken at its start.** A repeated add creates two
  records, and an unexpose with more than one owned record deletes one id twice and stops:
  `CloudflareRuns.AtMostOneKeptIff`, `CloudflareRuns.UnexposeCompletesIff`.
- **The line editor and the parser see different entries.** Unless the entry was as asked
  before, an edit that takes over lines sets the service exactly when they stand at the block's
  column, the parser reads the service's key on them, no line past a blank or a comment goes on
  with them, and neither the service nor `origins` is set again later:
  `OriginsExact.ReplaceAgreesIff`; an insertion exactly when it comes in at the block's column and
  nothing after it does any of that: `OriginsExact.InsertAgreesIff`; an appended block exactly when
  the document is not indented and its `origins`, under a header the editor does not recognise,
  holds no other service: `OriginsExact.AppendAgreesIff`. `OriginsMisses.CommentedHeaderForgets`
  and `OriginsMisses.NestedLineTakenForEntry` are instances that fail.
- **Lines of a list item that do not fit its column are dropped silently.** An item keeps all its
  lines exactly when each fits the layout line by line: `YamlLayout.ItemLosesNothingIff`; an
  instance that loses them is `YamlFrames.MisalignedLinesAreLost`.
- **If dnscontrol expanded labels as crenel reads names**, a push would move a name that repeats
  the zone, and the guard does not look: `DnsControlLaws.ReadingRuleMoves`. It says nothing of
  dnscontrol's own rule, under which nothing is lost: `DnsControlLaws.PushIsLossless`.

## Model

| member | source | states |
|---|---|---|
| `Topology.ParticipationExact` | internal/core/chain_write.go:65-78 | The recursive search with a visited set answers yes exactly when some edge one or more links downstream fronts the service, on cyclic topologies too. |
| `Topology.RoleExact` | internal/core/chain_write.go:35-58 | An edge forwards a service exactly when it does not front it, the service is not internal-only and a serving edge is reachable; it is terminal exactly when it fronts it. |
| `Topology.RelaxPass` | internal/core/chain_write.go:181-197 | One pass keeps every depth the length of a real run of fronts, never lowers one, carries every link's depth on, and when it changes nothing all links are satisfied. |
| `Topology.ChainDepth` | internal/core/chain_write.go:175-199 | On an acyclic topology every depth is the length of the longest run of fronts above the edge; on any topology no depth exceeds the square of the number of edges. |
| `Topology.DownstreamIsDeeper` | internal/core/chain_write.go:167-174 | A downstream's longest run is strictly longer than its front's. |
| `Plans.PlanAsksEdges` | internal/core/engine.go:354-406 | A plan asks exactly the appointed edges that serve the service or forward it, each once: exposing, of each that lacks the host one route, with the operation's mode and policy and the edge's backend where it serves, plain http to the downstream's address with TLS by scheme or port where it forwards; unexposing, the removal of the host and of no other. |
| `Plans.PlanAsksProviders` | internal/core/engine.go:407-451 | A plan asks exactly the appointed providers whose zone has the host and that would not make an internal-only service public: the record of their own address where nothing answers, its removal where it does, nothing of the others. |
| `Plans.PlannedIff` | internal/core/engine.go:334-451 | An operation is planned exactly when its policy can be attached, it makes no internal-only service public, some edge takes part in an expose, every edge taking part can serve or forward, and no provider has a conflicting record. |
| `Plans.RenameAsks` | internal/core/rename.go:46-104 | A rename asks exactly the edges that have the old host to move its route, changed in nothing but the name, and no DNS provider. |
| `Planner.EdgePlanIsDelta` | internal/core/engine.go:354-406 | An edge's plan is a delta: planning again on the edge it was applied to plans nothing, forwards included. |
| `Planner.DnsPlanIsDelta` | internal/core/engine.go:407-451 | The same for every DNS provider kind, skipped providers included. |
| `Planner.AdGuardIsDelta` | internal/drivers/dns/adguard/adguard.go:193-262 | Diff, apply, diff again is empty for the driver that adds and deletes one answer of a name. |
| `Planner.CloudflareIsDelta` | internal/drivers/dns/cloudflare/cloudflare.go:223-275 | Diff, apply, diff again is empty for the marker driver as the engine sees it. |
| `Steps.SortSorted` | internal/core/apply.go:310-334 | The built steps are in order of exposure rank and chain depth, ascending for an expose and descending otherwise. |
| `Steps.SortMembers` | internal/core/apply.go:310-334 | Sorting loses and invents no step. |
| `Sequence.StepsInSequence` | internal/core/apply.go:271-334 | Of the steps built from any change set an earlier one goes before every later one: exposing, edges before internal before public providers, deeper edges before their fronts, the rest as wired; any other verb the first two turned round. |
| `Sequence.CorrectiveSequence` | internal/core/reconcile.go:170-180 | A reconcile and a file apply their steps in the order of an expose. |
| `Changes.BuiltSound` | internal/core/apply.go:271-334 | Exactly the planned changes become steps, each provider once, each with the compensator computed from its snapshot. |
| `Changes.HonestRunMakesChanges` | internal/core/apply.go:147-159 | A complete honest run leaves every provider as its change asks and every provider not asked as it was. |
| `Changes.RunCorrects` | internal/core/apply.go:147-159 | A complete honest run of a corrective plan ends in the world the convergence theorems speak of, every pass applied. |
| `Rollbacks.ForwardStops` | internal/core/apply.go:147-158 | The forward loop goes on exactly as long as providers report success. |
| `Rollbacks.ForwardAsks` | internal/core/apply.go:147-158 | Whatever the environment, a run asks the providers of the steps it reaches, each once, and leaves every other alone; who does as asked has made the change, who refuses is as it was. |
| `Rollbacks.RollbackAsks` | internal/core/apply.go:345-374 | Whatever the environment, rollback asks the provider of every applied step once, but for wedged edges, which it leaves alone with everyone else. |
| `Rollbacks.ErrorsIff` | internal/core/apply.go:345-374 | The errors name exactly the wedged edges of applied steps and the providers whose compensator did not report success. |
| `Rollbacks.ErrorsReversed` | internal/core/apply.go:345-374 | They are named in the reverse of the order applied. |
| `Orders.OrderHolds` | internal/core/apply.go:271-374 | At every moment of a run and of its rollback: what is served later has newly come to show what the operation wants only while everything before it shows it. |
| `Announce.AnnounceLast` | internal/core/apply.go:259-334 | While exposing, a public answer that is newly live implies that every edge taking part routes the host and every internal provider taking part answers it, forward and during rollback, whichever edges are wedged. |
| `Announce.WithdrawFirst` | internal/core/apply.go:259-334 | While unexposing, an edge route has newly gone only once every DNS provider has made its planned removal, and then the provider shows no record of the host exactly when that removal leaves none. |
| `Orders.ChainExposeOrder` | internal/core/chain_write.go:167-199 | On an acyclic chain a front's route is newly live only while its downstream's is. |
| `Orders.ChainUnexposeOrder` | internal/core/chain_write.go:167-199 | Unexposing, a downstream's route is newly gone only once its front's is. |
| `Runs.EdgeUndoRestoresIff` | internal/core/apply.go:398-414 | Applying an edge change and then its inverse leaves every host's route as it was, up to the mark of removed ones, if and only if no added host was there already without being removed. |
| `Runs.UndoneRoutes` | internal/core/apply.go:398-414 | Host by host, the routes after a change and its inverse: a removed host's route is back with the mark, an added one's is gone, every other is untouched. |
| `Runs.DnsUndoRestoresIff` | internal/core/apply.go:417-421 | Applying a DNS change and then its swap leaves exactly the records there were, whichever way the provider picks records, if and only if removed records are listed as live and added ones were not there. |
| `Runs.UndoRestores` | internal/core/apply.go:398-421 | A restorable change of either kind, undone, leaves the same answers. |
| `Zones.ChangeKeepsForeign` | internal/core/apply.go:345-374 | No change, forward or inverse, alters a record that is not crenel's. |
| `Zones.AppliedMembers` | internal/ports/ports.go:81-83 | Exactly the records a change leaves in a zone, for providers that pick by name and type and for those that pick by name and answer. |
| `Zones.LastApplied` | internal/core/reconcile.go:363-384 | What a provider reports at a key after a change: the last added record, else nothing if all there was is removed, else what it reported. |
| `Runs.RollbackRestores` | internal/core/apply.go:345-374 | Wherever an honest run stops, after rollback every provider not named in the errors answers exactly as before the run. |
| `Undo.PlannedDnsRestorableIff` | internal/core/apply.go:417-421 | A planned DNS change can be undone always at AdGuard, and at Cloudflare exactly when it is no in-place update and removes no two different records. |
| `Undo.OpUndoableIff` | internal/core/apply.go:345-421 | An expose or unexpose can be undone as a whole exactly when each of its Cloudflare changes can; its edge and AdGuard changes always can. |
| `Undo.FailedOpRestores` | internal/core/apply.go:93-182 | A failed expose or unexpose that can be undone leaves every provider not named in the errors answering as before. |
| `Undo.RenameUndoable` | internal/core/rename.go:46-104 | A rename can always be undone. |
| `Undo.FailedRenameRestores` | internal/core/rename.go:30-104 | A failed rename leaves every provider not named in the errors answering as before. |
| `Undo.HonestRenameVerifiesIff` | internal/core/apply.go:608-659 | A fully applied honest rename reads back exactly when no DNS provider's zone covers the new host. |
| `Verify.HonestExposeVerifiesIff` | internal/core/apply.go:427-519 | A fully applied honest expose reads back exactly when, before the run, edges that had the host had the deny and every provider the read-back asks but the planner skips answered already. |
| `Verify.HonestUnexposeVerifiesIff` | internal/core/apply.go:629-659 | A fully applied honest unexpose reads back exactly when, before the run, edges that lacked the host had the deny and every provider the read-back asks that showed a record was planned for and its removal leaves none. |
| `Flow.RunsOrRefuses` | internal/core/apply.go:93-146 | A run leaves the world alone and applies nothing, or the gate admits it and it executes exactly the built steps. |
| `Flow.ReadsBackIff` | internal/core/apply.go:427-659 | The read-back accepts a world exactly when every provider it asks could be re-read, no probe failed, and every edge and provider shows the operation done, said of routes and records alone. |
| `Flow.ProbesListed` | internal/core/apply.go:53-69 | The edges whose probe was missing are listed in plan order, each once. |
| `Consent.OnlyWithConsent` | internal/core/apply.go:93-146 | A change set is carried out exactly when there is something to do, the gate admits it, the user says yes and every snapshot succeeds; without any one of these the world is left alone and the report says which was missing, a no being no failure. |
| `Consent.GreenIff` | internal/core/apply.go:147-182 | A run that takes place reports no failure exactly when every provider reported success and was re-read showing the operation done, and no probe failed or, unless accepted, was missing; it reports a failed step exactly when some provider did not report success, and a failed read-back exactly when all did and something does not show. |
| `Consent.ReconcileOnlyWithConsent` | internal/core/reconcile.go:126-209 | The same of a reconcile: nothing happens without drift, the gate's leave, a yes and the snapshots; with them it is carried out, and is without failure exactly when every provider reported success, was re-read and is accepted. |
| `Consent.FileOnlyWithConsent` | internal/core/declarative.go:124-199 | The same of a file's plan: without the gate's leave and a yes the world is left alone; with them its adoptions go first, and only if they and the snapshots succeed is the transaction carried out. |
| `Consent.BlockedFileIsRefused` | internal/core/declarative.go:102-123 | A blocked plan is refused, an empty one a no-op; both leave the world alone, and every other goes on to the question. |
| `Flow.NoSilentGreen` | internal/core/apply.go:93-182 | Whatever the providers did and reported, a run that ends applied and without failure has re-read, on every planned edge, the deny, the host reachable, gone or moved, every written route but mesh grants under its policy and every TLS upstream; at every appointed provider whose zone has the host the target's value, or nothing after an unexpose; and no probe failed. |
| `Flow.OtherwiseRollsBack` | internal/core/apply.go:147-182 | Every other ending after an accepted step went through rollback with all applied steps; every ending before the first step left the world alone. |
| `Flow.FailedRunRestores` | internal/core/apply.go:93-182 | With honest providers and undoable changes, a failed run restores every provider not named in the errors. |
| `Flow.EndedRestores` | internal/core/apply.go:345-374 | The same for any flow that ends by this scheme, reconcile and declarative apply among them. |
| `Flow.RefusedChangesNothing` | internal/core/apply.go:147-158 | A run stopped by a refused step is in the state the steps before it left. |
| `Flow.RunTouchesOnlyItsOwn` | internal/core/gate.go:38-96 | Of all changes a run admitted on the world its steps are built on can hand an edge whose index hides no owner, forward or compensating, none reaches a generator-owned edge or touches a foreign route, nor an unknown-owned one without force. |
| `DeclarativeRun.FileTouchesOnlyItsOwn` | internal/core/declarative.go:124-175 | The same for a file's run, whose gate is asked before adoption and whose steps and compensators are built after it. |
| `Gate.InverseTouchesNoMore` | internal/core/gate.go:155-169 | A compensator touches only hosts the forward change touched. |
| `Consent.GateAdmitsIff` | internal/core/gate.go:38-150 | The gate admits a change set exactly when no changed edge is owned by a generator and the last route listed for every touched host is neither foreign nor, unless forced, of unknown owner; and, where some edge forwards the service, no edge that serves or forwards it is owned by a generator and the first route of each for the host is neither. |
| `Gate.GateIsSafe` | internal/core/gate.go:38-96 | An admitted change and its compensator are safe on an edge whose index hides no owner. |
| `Gate.GateIsExactIff` | internal/core/gate.go:38-96 | The gate admits exactly the safe changes of an edge if and only if no owner it would refuse is listed behind one it admits; so always where each host is listed once. |
| `Gate.SafeIsAdmitted` | internal/core/gate.go:38-96 | The gate refuses no safe change, on any edge. |
| `Gate.OwnerIsListed` | internal/core/gate.go:183-189 | The ownership index never invents an owner: what it reports for a host is what one of the host's listings says. |
| `Gate.HiddenOwnerPasses` | internal/core/gate.go:183-189 | Removing the host of any route in such a shadow is admitted though unsafe. |
| `Resume.ResumePlansTheRest` | internal/core/resume.go:35-74 | From every prefix of an honest run, planning the same operation plans exactly the remaining steps, compensators included, in the same order. |
| `Resume.ResumeCompletes` | internal/core/resume.go:35-74 | Running those steps reaches the state the uninterrupted run reaches. |
| `Renaming.RenamePlannedIff` | internal/core/rename.go:46-104 | A rename is planned exactly when both names are given and differ, some edge has the old one, and every edge that has it is free of the new one and knows the route's access control. |
| `Renaming.RenameMoves` | internal/core/rename.go:79-97 | The backend answers under the new name with the new server name, nothing under the old one, every other host as before. |
| `Renaming.RenameRestorable` | internal/core/rename.go:79-97 | A planned rename's change can be undone on the edge it was planned against. |
| `Canonical.ScanIsPrimary` | internal/core/reconcile.go:228-270 | The scan over all routes finds, for every managed host, the view of the first serving edge, failing that of the first edge that has it, and nothing for any other host. |
| `Corrections.CanonIff` | internal/core/reconcile.go:228-270 | A host is canonical exactly when some edge has it and some edge serves its service; its mode and policy are those of the first edge that has it and serves it, failing any of the first that has it. |
| `Corrections.ReconcileRoutes` | internal/core/reconcile.go:274-346 | A reconcile adds to an edge one route for exactly the exposed hosts it serves or forwards and has not, or has in another mode, a wildcard forward excusing a front; the route is served in the canonical mode and policy or is the plain forward; and it removes exactly those it replaces. |
| `Corrections.ReconcileRecords` | internal/core/reconcile.go:401-510 | A reconcile adds to a provider exactly the records owed to exposed hosts its zone has, never making an internal-only service public, and removes exactly the reported plain records in crenel's domain whose host no edge has. |
| `Corrections.ReconcilePlannedIff` | internal/core/reconcile.go:224-515 | A reconcile is planned exactly when every edge can render or forward each route it lacks and no provider is to announce an empty name. |
| `Reconcile.AppliedAt` | internal/core/reconcile.go:274-346 | After an edge's pass every canonical host has its canonical route or the route that was already right; every other host is as before. |
| `Reconcile.CoveringApplied` | internal/core/chain.go:120-127 | Which wildcard covers a host after any change: the first whose own route the change leaves, failing that one it wrote. |
| `Reconcile.PlannerAndReadBackAgree` | internal/core/reconcile.go:556-595 | On any edge state with the deny present, the read-back's host loop accepts exactly when the planner's pass on that state changes nothing. |
| `Reconcile.HostConvergesIff` | internal/core/reconcile.go:274-346 | A second pass leaves a host alone exactly when it asked for no forward of another mode than http and the wildcard forward it rode, if any, still carries it; planning it again fails only where such a ride has ended. |
| `Reconcile.EdgeConvergesIff` | internal/core/reconcile.go:274-346 | A second pass over an edge is empty exactly when that holds of every canonical host, in whatever order hosts are listed, wildcard hosts included. |
| `ReconcileDns.RecordSettlesIff` | internal/core/reconcile.go:401-490 | After one pass a demanded host, wildcard or not, has its record or right answer exactly when no wrong wildcard now precedes the one it relied on. |
| `ReconcileDns.NothingStale` | internal/core/reconcile.go:491-510 | After one pass no stale record is left. |
| `ReconcileDns.DnsConvergesIff` | internal/core/reconcile.go:347-512 | One pass settles a provider, the next one with the same canonical set being empty in any order, if and only if that holds of every host. |
| `ReconcileDns.WildcardsAreKept` | internal/core/reconcile.go:347-512 | It does where the pass adds no wildcard, or no key holds two own records. |
| `Converge.CanonStable` | internal/core/reconcile.go:228-270 | Applying a reconcile plan leaves the canonical set as it was. |
| `Converge.ReconcileConvergesIff` | internal/core/reconcile.go:224-515 | Apply the plan and plan again: no drift is left if and only if every forward written was canonically http, every ride on a wildcard forward goes on and no wildcard answer is lost. |
| `Converge.PlainSettlesIff` | internal/core/reconcile.go:224-515 | Where the plan touches no wildcard, that is when every forward written was canonically http. |
| `Converge.HonestReconcileVerifiesIff` | internal/core/reconcile.go:553-640 | The world a complete honest run of a reconcile ends in reads back exactly when its forwards were http, every ride goes on, and every edge it left alone had the deny. |
| `Converge.AcceptedEdgesAreConverged` | internal/core/reconcile.go:553-640 | Whatever providers did, an edge the read-back accepts needs no further correction. |
| `Corrections.AcceptedIff` | internal/core/reconcile.go:553-640 | The read-back of a reconcile accepts a world exactly when every edge has the deny, every exposed host it serves or forwards in the canonical mode, or riding a wildcard forward, and every written route under its policy, and every zone reports what was added and nothing removed. |
| `Converge.EdgePassRestorable` | internal/core/reconcile.go:274-346 | Every edge correction can be undone. |
| `Changes.PassRestorableIff` | internal/core/apply.go:417-421 | A corrective DNS pass can be undone exactly when, at Cloudflare, what it adds was not there and it removes no two different records at one key. |
| `Changes.PassesUndoableIff` | internal/core/apply.go:345-421 | A corrective run whose edge passes can be undone can be undone as a whole exactly when each of its DNS passes can. |
| `Converge.ReconcileUndoableIff` | internal/core/reconcile.go:126-209 | A reconcile can be undone as a whole exactly when each of its DNS passes can. |
| `Converge.ReconcileIsHonest` | internal/core/reconcile.go:126-209 | A reconcile leaves the world alone, or the gate admits it and it executes its steps; a reported success means no edge of the re-read world needs correction, whatever the providers did. |
| `Declarative.FilePlanAt` | internal/core/declarative.go:211-400 | A file's plan has, edge by edge and provider by provider, the draft of that edge or provider alone. |
| `FilePlans.FileRoutes` | internal/core/declarative.go:225-340 | On every edge a file adds exactly a fresh route, with the entry's mode and policy and the edge's backend, for each entry aimed there whose host the edge lacks; adopts and is blocked by exactly the hosts of entries that meet an unmanaged route, adoptable or not; and prunes exactly the hosts of managed routes it does not name. |
| `FilePlans.FileRecords` | internal/core/declarative.go:342-395 | At every provider a file adds exactly the wanted record of each host announced there that has none reported, and prunes exactly the reported records in crenel's domain whose host it does not name. |
| `FilePlans.FilePlannedIff` | internal/core/declarative.go:211-400 | A file is planned exactly when every entry has a host and a policy its mode can carry, and every edge an entry is aimed at that lacks its host can serve it. |
| `FilePlans.FileAcceptedIff` | internal/core/declarative.go:532-628 | The read-back of a file accepts a world exactly when every edge has the deny, the hosts added and adopted, none pruned anywhere, and every added route under its policy and upstream TLS, and every zone answers what was added and nothing removed. |
| `Idempotent.EdgeSettles` | internal/core/declarative.go:225-340 | Once its unblocked draft is applied and adopted, an edge needs nothing more. |
| `Idempotent.DnsSettles` | internal/core/declarative.go:342-395 | The same for a DNS provider, pruning included. |
| `Idempotent.DeclarativeIdempotent` | internal/core/declarative.go:102-400 | Apply an unblocked plan, plan the same file with the same options again: nothing to do and nothing blocked. |
| `Idempotent.PruneBoundary` | internal/core/declarative.go:311-333 | Pruning takes exactly the hosts with a managed listing that the file does not name, all their listings with it; every other route stays, an adopted one newly marked. |
| `Idempotent.AdoptionIsSafeIff` | internal/core/declarative.go:238-300 | Whatever the file, adoption stamps no route of a foreign or unknown owner if and only if none stands behind an adoptable listing of its host. |
| `DeclarativeRun.HonestFileVerifiesIff` | internal/core/declarative.go:532-628 | The world a complete honest run of a file ends in reads back exactly when no edge left alone lacked the deny, nothing pruned elsewhere stays unmanaged, and entries that name a host twice ask for the same. |
| `DeclarativeRun.PrunedSurvivesIff` | internal/core/declarative.go:311-333 | A host pruned somewhere survives on an edge exactly when it is there and not pruned there. |
| `DeclarativeRun.FileIsHonest` | internal/core/declarative.go:102-199 | A file's run leaves the world untouched; or, admitted by the gate, leaves it adopted as far as adoption got, or executes its steps on the adopted world; a reported success means the re-read world shows the file done. |
| `DeclarativeRun.FileUndoableIff` | internal/core/declarative.go:102-199 | What a file's transaction does, pruning included, can be undone exactly when no Cloudflare zone has two different records pruned at one key. |
| `DeclarativeRun.AdoptionKeepsAnswers` | internal/core/declarative.go:403-424 | Adoption changes no answer of an edge. |
| `Engine.EdgeProvider.Apply` | internal/ports/ports.go:20-37 | An accepted change removes then puts, stamps and keeps the deny; a refused one changes nothing; a rogue provider ends in the state the environment chose. |
| `Engine.Engine.RunSteps` | internal/core/apply.go:147-159 | The loop stops at the first step that reports failure and leaves the world the run function says. |
| `Engine.Engine.Rollback` | internal/core/apply.go:345-374 | Compensators run in reverse, wedged edges are skipped and named, and the world is the one the rollback function says. |
| `Engine.Engine.ReadBack` | internal/core/apply.go:427-519 | The verdict is true exactly when every provider reads back, and the unavailable probes are listed in plan order. |
| `Engine.Engine.ApplyPlanned` | internal/core/apply.go:93-182 | Report and world are those of the outcome function, with the exact chain depth on acyclic topologies. |
| `Engine.Engine.AskGate` | internal/core/gate.go:38-96 | The loop admits exactly what the gate predicate admits. |
| `Engine.Engine.PlanOp` | internal/core/engine.go:334-451 | The planning loops compute the plan, or fail exactly when it does. |
| `Engine.Engine.Resume` | internal/core/resume.go:35-74 | Resuming is planning from the live world and running the same flow; an unplannable operation changes nothing. |
| `Engine.Engine.PlanMove` | internal/core/rename.go:46-104 | The loop over the edges computes the rename's plan. |
| `Engine.Engine.Move` | internal/core/rename.go:30-40 | A rename runs through the same flow as every other change, with the exact chain depth on acyclic topologies. |
| `Engine.Engine.DeriveCanon` | internal/core/reconcile.go:228-270 | The nested loops fill the canonical set. |
| `Engine.Engine.CorrectEdge` | internal/core/reconcile.go:274-346 | The loop over the canonical hosts computes the edge's pass. |
| `Engine.Engine.CorrectDns` | internal/core/reconcile.go:347-512 | The loops over hosts and live records compute the provider's pass. |
| `Engine.Engine.DetectDrift` | internal/core/reconcile.go:216-219 | Detecting drift computes the reconcile plan and changes nothing. |
| `Engine.Engine.ReadBackReconcile` | internal/core/reconcile.go:553-640 | The verdict is true exactly when every provider could be re-read and is accepted. |
| `Engine.Engine.ReconcileAll` | internal/core/reconcile.go:126-209 | Report and world are those of the reconcile outcome for some listing of the canonical hosts, with the exact chain depth on acyclic topologies. |
| `Engine.Engine.PlaceEntry` | internal/core/declarative.go:229-310 | Adding one file entry to the per-edge drafts changes exactly the edges it targets. |
| `Engine.Engine.PruneEdge` | internal/core/declarative.go:311-333 | The pruning loop lists exactly the managed routes the file does not name. |
| `Engine.Engine.PlanDeclarative` | internal/core/declarative.go:211-400 | The planning loops compute the file's plan, or fail exactly when it does. |
| `Engine.Engine.AdoptInline` | internal/core/declarative.go:403-424 | Adoption stops at the first edge that fails, with the edges before it adopted. |
| `Engine.Engine.ApplyDeclarative` | internal/core/declarative.go:102-199 | Report and world are those of the file's outcome, with the exact chain depth on acyclic topologies. |
| `Cloudflare.MarkerIsExact` | internal/drivers/dns/cloudflare/cloudflare.go:149-158 | What the driver stamps it recognises, for any host name; a comment that merely starts with the same letters is not its own. |
| `Cloudflare.SettingsAreLawful` | internal/drivers/dns/cloudflare/cloudflare.go:555-561 | Qualifying a name under the zone twice is qualifying it once, which the theorems below ask of the driver's settings. |
| `Cloudflare.ForeignUntouched` | internal/drivers/dns/cloudflare/cloudflare.go:280-385 | Over any zone and any change, after every API call and wherever the apply stops, every record without the marker is as it was, in order. |
| `CloudflareRuns.AtMostOneKept` | internal/drivers/dns/cloudflare/cloudflare.go:280-385 | One owned record per name and type is kept after every call of an apply that adds no unowned spot twice. |
| `CloudflareRuns.AtMostOneKeptIff` | internal/drivers/dns/cloudflare/cloudflare.go:297-312 | An apply that runs to its end keeps it exactly then. |
| `CloudflareRuns.ExposeSettles` | internal/drivers/dns/cloudflare/cloudflare.go:223-314 | After an expose that ran to its end the same diff is empty. |
| `CloudflareRuns.UnexposeCompletesIff` | internal/drivers/dns/cloudflare/cloudflare.go:285-296 | An unexpose the server obliges runs to its end exactly when there was at most one owned record. |
| `CloudflareRuns.UnexposeSettles` | internal/drivers/dns/cloudflare/cloudflare.go:223-314 | After an unexpose that ran to its end the same diff is empty. |
| `CloudflareRuns.SessionSafe` | internal/drivers/dns/cloudflare/cloudflare.go:223-385 | Over any sequence of operations and any server answers, foreign records stay and no name and type gets a second owned record. |
| `CloudflareRuns.SessionSettles` | internal/drivers/dns/cloudflare/cloudflare.go:223-385 | Whatever operations came before, one whose apply runs to its end leaves the same diff empty. |
| `CloudflareRefines.DiffRefines` | internal/drivers/dns/cloudflare/cloudflare.go:223-275 | The record-by-record diff is the one the engine plans with. |
| `CloudflareRefines.ExposeRefines` | internal/drivers/dns/cloudflare/cloudflare.go:280-370 | An expose that ran to its end leaves the answers and the foreign records the engine's model of the provider says. |
| `CloudflareRefines.UnexposeRefines` | internal/drivers/dns/cloudflare/cloudflare.go:280-296 | So does an unexpose that ran to its end. |
| `CloudflareWrites.ApplyWrites` | internal/drivers/dns/cloudflare/cloudflare.go:280-370 | After every call of an apply, whatever the server answered, each record is one that was there as it is, or an added one new on the server, marked, under its qualified name and by the driver's settings where nothing was, or the one owned record at its spot with the added value and its own id, comment and proxied flag. |
| `CloudflareWrites.ApplyTakes` | internal/drivers/dns/cloudflare/cloudflare.go:280-385 | A record that is gone was crenel's and stood where the change removes or adds. |
| `CloudflareWrites.RunSucceedsIff` | internal/drivers/dns/cloudflare/cloudflare.go:316-385 | An apply comes through its calls exactly when each may be sent, the record it aims at is there and the server carries it out and says so. |
| `CloudflareWrites.DiffAsks` | internal/drivers/dns/cloudflare/cloudflare.go:223-275 | A diff is given exactly for a name in the zone or a bare label, no wildcard, where crenel owns at most one record and, owning none, no other is in the way; it asks for the wanted record unless crenel's answers it, or for the removal of all of crenel's as they are. |
| `CloudflareWrites.QualifiedIsIn` | internal/drivers/dns/cloudflare/cloudflare.go:555-561 | A name is completed with the zone exactly when it is not in it. |
| `CloudflareDriver.Driver.Apply` | internal/drivers/dns/cloudflare/cloudflare.go:280-314 | The loops over removes and adds send exactly the calls of the specification until one fails, and no state the server passes through differs in its foreign records. |
| `CloudflareDriver.Driver.Partition` | internal/drivers/dns/cloudflare/cloudflare.go:490-504 | The loop over a listing splits the records at a name and type into crenel's own and the others, in order. |
| `DnsControl.NameSurvivesIff` | internal/drivers/dns/dnscontrol/render.go:21-47 | Writing a name relative to the zone and reading it as a reported name is the identity exactly when the relative form is not itself under the zone. |
| `DnsControl.ReadLiesUnder` | internal/drivers/dns/dnscontrol/render.go:34-47 | Every name read from the provider lies at the zone or under it. |
| `DnsControl.ExpandedBackIff` | internal/drivers/dns/dnscontrol/render.go:21-47 | Where a label is put before the zone, a name written relative is expanded to itself exactly when it lies in the zone and its label is not the apex's. |
| `DnsControlLaws.TargetAt` | internal/drivers/dns/dnscontrol/dnscontrol.go:320-347 | The target as a map by key: removed keys gone unless added again, added keys as added, the rest as live; no key twice that was not. |
| `DnsControlLaws.MadeIsSettledIff` | internal/drivers/dns/dnscontrol/render.go:105-137 | A push makes exactly the declared records if and only if every one of them survives. |
| `DnsControlLaws.PushKeeps` | internal/drivers/dns/dnscontrol/render.go:105-137 | Rendering and pushing a zone whose records land as themselves is the identity on data records, TTLs and proxied flags included. |
| `DnsControlLaws.GuardedIsSingle` | internal/drivers/dns/dnscontrol/dnscontrol.go:384-467 | Past the guard every data key is there at most once. |
| `DnsControlLaws.SurvivorsAreKept` | internal/drivers/dns/dnscontrol/dnscontrol.go:203-229 | Under any expansion rule, a guarded push whose target's records land as themselves leaves, key by key, the live zone with the change made. |
| `DnsControlLaws.PushIsLossless` | internal/drivers/dns/dnscontrol/dnscontrol.go:203-229 | Where a label is put before the zone, a guarded push of live names as read from the provider leaves, key by key, the live zone with the change made, no key twice, nothing outside the change dropped or altered. |
| `DnsControlLaws.ReadingRuleMoves` | internal/drivers/dns/dnscontrol/dnscontrol.go:384-392 | If labels were expanded as names are read, pushing a zone whose one name repeats the zone would move it to its label, past the guard. |
| `DnsControlLaws.DiffSettles` | internal/drivers/dns/dnscontrol/dnscontrol.go:144-229 | After an expose or unexpose whose push went through, the same diff is empty and not refused. |
| `DnsControlGuard.GuardPassesIff` | internal/drivers/dns/dnscontrol/dnscontrol.go:384-467 | A push is let through exactly when every live record has a one-field type, no quote in its value and its key to itself, or is the provider's own, and, unless the zone is dedicated, is the provider's own or has the value of crenel's last record at its key. |
| `DnsControlGuard.ApplyGoesThroughIff` | internal/drivers/dns/dnscontrol/dnscontrol.go:203-229 | An apply is let through exactly when that holds with what it adds and removes counted as crenel's. |
| `DnsControlGuard.DiffAsks` | internal/drivers/dns/dnscontrol/dnscontrol.go:144-196 | A diff adds the wanted record where none is, a differing one with the live lifetime and proxied flag kept, and removes it where any is. |
| `DnsControlGuard.RenderedLines` | internal/drivers/dns/dnscontrol/render.go:105-137 | The document has one line for each record but the provider's own, every field kept, in alphabetical order of names. |
| `DnsControlGuard.PushLeaves` | internal/drivers/dns/dnscontrol/dnscontrol.go:203-229 | A push leaves exactly the provider's own records as they were and what the lines of the document stand for, an unpinned lifetime being the automatic one. |
| `DnsControlDriver.Driver.GuardPush` | internal/drivers/dns/dnscontrol/dnscontrol.go:384-467 | The refusal loops, with their counting maps, decide the guard. |
| `DnsControlDriver.Driver.ApplyChange` | internal/drivers/dns/dnscontrol/dnscontrol.go:320-347 | The loops over live and added records build the target. |
| `DnsControlDriver.Driver.Push` | internal/drivers/dns/dnscontrol/dnscontrol.go:203-229 | The zone after a push is the specification's, or unchanged when the guard refuses or the push fails. |
| `Yaml.ParseBlock` | internal/config/yaml/yaml.go:134-139 | Parsing ends on every token list, the remaining text decreasing even into synthetic blocks, and a block takes at least one token and never more than there are. |
| `Yaml.SubBlockWeighsLess` | internal/config/yaml/yaml.go:195-207 | The synthetic block of a `- key: v` item holds strictly less text than the lines it is made of. |
| `YamlText.TrimTakesBlanks` | internal/config/yaml/yaml.go:76-105 | Trimming takes spaces, tabs and carriage returns off both ends and nothing else. |
| `YamlText.StripCutsComment` | internal/config/yaml/yaml.go:110-129 | What is cut off a line is what follows its first hash sign after a blank outside quotes, with the blanks before it; without one nothing is. |
| `YamlText.LineMakesToken` | internal/config/yaml/yaml.go:76-105 | A tab in the indent is an error; a blank line, a comment and a document marker make no token; any other line makes one at its indent. |
| `YamlText.SplitsAtFirst` | internal/config/yaml/yaml.go:238-246 | A line is split at its first colon before a space, failing that at a colon that ends it, failing that not at all. |
| `YamlDocuments.LaidOutReads` | internal/config/yaml/yaml.go:47-220 | Any tree of maps, lists and scalars, laid out two columns deeper at each key or dash, list items that are maps begun on the line of their dash or under it, parses to that tree, the last value of a repeated key kept. |
| `YamlScalars.WordsRead` | internal/config/yaml/yaml.go:250-272 | The four words for true, the four for false and the three for null read as that, and no other value. |
| `YamlScalars.NumeralReads` | internal/config/yaml/yaml.go:250-272 | A decimal numeral, signed or not, for a number of 64 bits reads as that number. |
| `YamlScalars.DecimalReads` | internal/config/yaml/yaml.go:250-272 | Every 64-bit number written in decimal is read back. |
| `YamlScalars.SingleQuotedReads` | internal/config/yaml/yaml.go:292-305 | Any text between single quotes reads as itself. |
| `YamlScalars.DoubleQuotedReads` | internal/config/yaml/yaml.go:292-305 | Any text, escaped between double quotes, reads as itself. |
| `YamlScalars.PlainReads` | internal/config/yaml/yaml.go:250-272 | Any other text without blanks around it, neither word nor numeral of 64 bits, bracketed or quoted, reads as itself. |
| `YamlScalars.FlowListReads` | internal/config/yaml/yaml.go:274-290 | Items without commas, separated by commas between brackets, read as the list of what each reads as, blanks around it aside; `EmptyListReads`: brackets around nothing but blanks, as the empty list. |
| `YamlScalars.LineReads` | internal/config/yaml/yaml.go:142-173 | A document of one line, a plain key and a value, is that key with what the value reads as; `WordDocuments`, `NumberDocument`, `QuotedDocument`, `PlainDocument` and `ListDocument` spell it out. |
| `YamlFrames.FrameBlock` | internal/config/yaml/yaml.go:134-220 | What follows a block at a boundary does not change how it parses. |
| `YamlFrames.MapSplit` | internal/config/yaml/yaml.go:142-173 | A map loop over two stretches goes on into the second with what the first made, or stops or fails where it would have. |
| `YamlFrames.Accumulates` | internal/config/yaml/yaml.go:142-173 | A map loop adds to what it started from exactly what it would have made from nothing. |
| `YamlFrames.UnsetKey` | internal/config/yaml/yaml.go:142-173 | A key no line at the loop's indent sets is not in what it makes. |
| `YamlLayout.BlockFits` | internal/config/yaml/yaml.go:134-220 | A block that parses takes exactly its leading lines that fit, a condition on indents and line shapes alone, all at its indent or deeper. |
| `YamlLayout.DocumentParsesIff` | internal/config/yaml/yaml.go:47-63 | A document whose first block parses is accepted exactly when every line fits. |
| `YamlLayout.ItemLosesNothingIff` | internal/config/yaml/yaml.go:195-207 | A `- key: …` item takes all its deeper lines and keeps exactly those before the first that does not fit; so it loses none if and only if every one fits. |
| `YamlLayout.StrayColumnIsLost` | internal/config/yaml/yaml.go:195-207 | A line of an item less than two columns past the dash is lost, with all that follow. |
| `YamlFrames.MisalignedLinesAreLost` | internal/config/yaml/yaml.go:195-207 | An instance of lines that do not fit: an item's deeper lines at another column than its text are taken and dropped without an error. |
| `YamlParser.StripLoop` | internal/config/yaml/yaml.go:110-129 | The quote-tracking loop strips exactly the trailing comment. |
| `YamlParser.Tokenize` | internal/config/yaml/yaml.go:76-105 | The line loop computes the tokens, or fails on the first line that cannot be one. |
| `YamlParser.ParseBlockAt` | internal/config/yaml/yaml.go:134-139 | The index-based parser computes the block at an index and the first index it does not take. |
| `YamlParser.ParseMapAt` | internal/config/yaml/yaml.go:142-173 | The map loop's result and index are those of the functional loop. |
| `YamlParser.ParseSeqAt` | internal/config/yaml/yaml.go:176-220 | The sequence loop's result and index are those of the functional loop. |
| `YamlParser.ParseDocument` | internal/config/yaml/yaml.go:47-63 | A document parses to one block that takes every token, to null, or fails; what its scalars read as is said by the laws of `YamlScalars`. |
| `YamlEdits.DocEdited` | internal/config/yaml/yaml.go:142-173 | Putting another block under a top-level key sets that key in the parsed document, and only that key. |
| `YamlEdits.DocAppended` | internal/config/yaml/yaml.go:142-173 | Appending a block under a top-level key line sets that key. |
| `YamlEdits.EntryReplaced` | internal/config/yaml/yaml.go:142-173 | Swapping one entry's tokens for a rendered entry's sets its key, and only it. |
| `OriginsEditor.FindPlace` | internal/config/persist_origins.go:162-210 | The scan with its running indent and end finds the place of the entry. |
| `OriginsEditor.ReplaceOrInsert` | internal/config/persist_origins.go:142-213 | The edited lines, or nothing when there is no bare header. |
| `OriginsEditor.SetTopLevelOrigin` | internal/config/persist_origins.go:99-119 | A multi-edge document is refused; otherwise the block is edited or a fresh one appended. |
| `OriginsWrites.EditWrites` | internal/config/persist_origins.go:142-213 | Without a bare header at the margin nothing is edited; else the entry is put over the first child of the block the service names and all that is deeper under it, at its indent, or before the block's end, at the first child's indent or two columns in; every other line is as it was. |
| `OriginsWrites.AppendWrites` | internal/config/persist_origins.go:99-119 | An append adds to the text a newline if it lacks one, the header, the entry two columns in and a newline. |
| `OriginsWrites.EntryWrites` | internal/config/persist_origins.go:124-135 | The lines of an entry, plain or with its address and scope, character by character. |
| `OriginsWrites.WriteRefusedIff` | internal/config/persist_origins.go:99-119 | Writing is refused exactly for a text with a top-level `edges`; any other is edited or, failing that, appended to. |
| `OriginsTokens.QuotedReadsBack` | internal/config/yaml/yaml.go:250-304 | A quoted plain text parses to itself. |
| `OriginsTokens.OriginLinesTokens` | internal/config/persist_origins.go:124-135 | The lines written for an entry, scoped or not, are read as its tokens. |
| `OriginsTokens.OriginTokensSet` | internal/config/persist_origins.go:124-135 | Those tokens set exactly the entry's value in any map being read. |
| `OriginsLaws.LineReads` | internal/config/persist_origins.go:237-249 | On a line without tabs and inner carriage returns, the editor skips exactly what the parser skips, document markers apart, and they agree on its indent. |
| `OriginsLaws.EditorSeesKey` | internal/config/persist_origins.go:178-182 | Whatever key without colons the parser reads on a line, the editor sees that key there. |
| `OriginsAgree.AppendAgrees` | internal/config/persist_origins.go:99-119 | Appending a block and parsing gives the parsed document with `origins` holding exactly the new entry. |
| `OriginsExact.BlockSwapIff` | internal/config/yaml/yaml.go:142-173 | Another block under the header makes another value of `origins`, and nothing else, exactly when it parses to that value and no later line sets `origins`. |
| `OriginsExact.SwapIff` | internal/config/persist_origins.go:178-202 | Swapping an entry's lines for the rendered entry sets the service in the block, and nothing else, exactly when they were its own, at the block's column, and no line after them goes on with it or sets it again. |
| `OriginsExact.InsertIff` | internal/config/persist_origins.go:203-210 | Putting the rendered entry between lines of the block sets the service, and nothing else, exactly when it stands at the block's column and no line after it goes on with it or sets it. |
| `OriginsExact.ReplaceAgreesIff` | internal/config/persist_origins.go:142-213 | An edit that takes over lines sets the service in the parsed document, and nothing else, exactly when that holds of them and no later line sets `origins`; the only-if part where the entry was not there as asked already. |
| `OriginsExact.InsertAgreesIff` | internal/config/persist_origins.go:203-210 | An edit that inserts does, exactly when that holds of the entry and no later line sets `origins`; the only-if part where the entry was not there as asked already. |
| `OriginsExact.AppendAgreesIff` | internal/config/persist_origins.go:99-119 | An edit that appends does, if and only if the document is not indented and its old `origins` is absent, null or holds no other service. |
| `OriginsMisses.CommentedHeaderForgets` | internal/config/persist_origins.go:142-158 | An instance of an append that fails: under a header with a trailing comment, setting any origin makes the parser forget the ones there, whatever they are. |
| `OriginsMisses.NestedLineTakenForEntry` | internal/config/persist_origins.go:178-202 | An instance of a replacement that fails: setting the origin of a service named like a nested field rewrites that field of the entry before it. |
| `PiholeSession.RunKeepsInv` | internal/drivers/dns/pihole/doer.go:60-159 | The invariant of cache, calls and log survives every interleaving of any number of calls. |
| `PiholeSession.CallerGets` | internal/drivers/dns/pihole/doer.go:60-84 | A call ends with the status the server answered, a 401 only the second time, or in failure where no session was to be had or no reply came, and in no other way. |
| `PiholeSession.NoLoginStampede` | internal/drivers/dns/pihole/doer.go:117-159 | Successful logins equal sessions dropped, plus one exactly when a session is cached. |
| `PiholeSession.DroppedOnceByItsVictim` | internal/drivers/dns/pihole/doer.go:153-159 | Each session is dropped at most once, and only by a call rejected on that same session. |
| `PiholeSession.AtMostTwoRequests` | internal/drivers/dns/pihole/doer.go:60-84 | Each call sends its request at most twice, and twice only after a 401. |
| `PiholeSession.OSDoer.Do` | internal/drivers/dns/pihole/doer.go:60-84 | An uninterrupted call does exactly what its six steps do in the interleaved model. |
| `Bevel.Visit` | internal/ui/banner.go:300-309 | One queue entry's turn keeps the search exact and strictly reduces what is pending. |
| `Bevel.DistanceTransform` | internal/ui/banner.go:284-309 | Every cell of a grid with background gets its exact least Manhattan distance to the background and is queued exactly once; without background the sentinel stays. |

## Left out

- OrderHolds: assumes the compensator of the later provider neither is skipped nor fails; a front whose compensator is skipped may outlive its downstream, as the code says.
- ReplaceAgreesIff: leaves aside lines the parser reads no key on, a key the block sets twice where it is taken for the service, and a structured entry written over the first half of one that a comment divides; where the entry was there as asked already, only the if part is stated.
- InsertAgreesIff: leaves aside a structured entry inserted before deeper lines that go on with it; where the entry was there as asked already, only the if part is stated.
- AppendAgreesIff: for documents whose `origins` is a scalar or a list, `AppendAgrees` says what is read instead; what becomes of a document that is itself a list is not stated.
- FailedOpRestores: assumes that a step which reports failure changed nothing; the code never compensates a failing step.
- UnexposeRefines: of several owned records the engine's model lets an unexpose run to its end, where the driver stops half-way, see `UnexposeCompletesIff`.
- The read-only posture, which refuses every command before it plans, would only add easy members.
- Transports: HTTP, SSH, file reads and writes, locks and external commands are not part of this model; their answers are the environment's.
- Edge drivers (Caddy, Traefik, nginx and the like) are known only by the contract of a provider; rendering, reload and coverage of unparsed configuration are not part of this model.
- What commands print, audit findings and their severities, persistence warnings, recovery hints, the list of newly public hosts, residency lookup and the ternary deny verdict would only add easy members.
- The dnscontrol driver is modelled alone; the transaction's DNS providers are AdGuard's and Cloudflare's kind.
- Pagination of listings, zone id lookup and the retry on a stale id are left out of the Cloudflare driver; parsing an address is a parameter.
- The text of dnsconfig.js and its escaping is modelled as one entry per record.
- Concurrent commands over the same providers: one transaction runs at a time; only the session cache is modelled under interleaving.
- YAML line numbers, escapes of quoted scalars beyond the simple ones, 64-bit overflow of integers beyond falling back to text, and Unicode white space; written services and backends are plain printable text, for which Go quoting is adding quotes.
- The JSON form of the origins file.
- Colour, glyphs and rows of the wordmark; only the grid search is modelled, with a sentinel that exceeds every distance the grid can hold.
