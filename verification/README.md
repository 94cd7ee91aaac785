# Codery orchestrator: a verified model

Codery runs each service as a blue/green pair of containers on one host. The
`codery-ci` orchestrator starts the idle color, moves traffic to it and stops the
other one; around that it compiles routes for Caddy and Nginx, publishes ports,
relays UDP datagrams to the active container and renders supervision bundles.
This project models that logic in Dafny and proves what it promises.

`dafny verify dfyconfig.toml` checks everything.

## How the model is laid out

**The deploy protocol.** `Protocol` describes the host (per service: color file,
SHA file, two containers, preview record; and the colors live Caddy was built
from) and each command as a machine that performs one effect per step. Every
effect can fail with no, part or all of its change made, and a failure ends the
command; looks that the code lets fail without ending (an unreadable SHA or color
file, a container that cannot be inspected) give the value the code falls back to.
`Interleaving` runs any number of such commands on any services, with one
exclusive lock per service, kills included. `CommandResults` and
`CommandTheorems` say what a command amounts to when it runs through, `Paths` which
effects it performs in which order; `LiveRoutes`,
`RouteTheorems`, `Schedules`, `RouteRuns` and `RouteRace` are about the color Caddy
routes to; `Misreads` about a color file that cannot even be found;
`ShaAgreement` about the recorded SHA; `Detector` about the mismatch detector
beside all that. `Host` is the code itself: a class whose methods update the state
files, containers, preview table and Caddy in the order the orchestrator does, each
proved to be a run of the machine, so the theorems hold of it.

**Routing.** `Ports`, `Routing`, `RouteCompile` and `Diagnose` follow a port from
its definition through the merged route map to Caddy, Nginx, Docker, the relays
and the diagnosis.

**The relay.** `Relay` is the UDP relay loop with its client table and its cached
address.

**Small algorithms.** `Substitution` (`${VAR}` in place), `ShellQuote` and
`ShellNames` (quoting against sections 2.2, 2.2.1 and 2.2.2 of the POSIX.1-2017
Shell Command Language), `Utf8`, `Marks`, `Framing`, `Margins`, `ByteStreams`,
`FrameStreams` and `Wire` (the message reader of the permissions server, from bytes through
UTF-16 text to messages; decoding follows the UTF-8 decoder of the WHATWG Encoding Standard, `Wire` has what a
sender writes according to section 3 of RFC 3629 and section 2.1 of RFC 2781) and
`Bundles` (the s6 directory).

## What turned out not to hold

Each of these is kept as the code has it; the members named give the
counterexample and the exact condition. One condition is given one way only:
that under which substitution ends.

- A failed Caddy reload leaves Caddy one color behind, and the next command that
  touches the idle container then takes the routed one down. With the colors read
  right, a command is safe for live traffic if and only if Caddy was on the recorded
  color when it started, or it is a rollback or the promotion of a preview
  (`CommandSafeForTraffic`, `FailedReloadThenDeploy`).
- An unreadable color file counts as blue when routes are applied. A deploy to green
  that cannot read its own color tells Caddy blue, stops blue and reports success;
  it converges if and only if that does not happen (`BlindDeployMisroutes`,
  `DeployConverges`, `DeployLeavesRoutesUp`, `ReloadRepairs`).
- A deploy with nothing to do is skipped if and only if the SHA file is read and the
  active container inspected; otherwise it is redone (`SkippedIffNoticed`,
  `UnreadShaRedeploys`).
- `apply_all` reads all colors before it loads them and takes no lock, so a
  `reload-routes` beside a deploy can point Caddy at the stopped container
  (`StaleSnapshotRace`). It cannot if no color is recorded between another process's
  read and load, locks are granted in step and colors are read right
  (`RoutesAlwaysUp`). The first two rules are exact: a move that breaks one, in
  any state that keeping them leads to, can be followed by moves that keep them, none
  failing, after which a routed container is down, and a move that keeps them cannot
  (`RulesAreExact`). A reading that misses some colors does harm if and only if one of
  them is green with blue down (`BlindLoad`).
- A color file whose existence check fails counts as missing, and so as blue, for the
  command itself. The recorded color stays up in every run in which no command takes
  green for blue (`AvailableUnlessMisread`); a deploy that does removes the active
  container (`MistakenDeployTakesDown`).
- The mismatch detector's four looks lie apart, so a deploy between them makes a
  healthy service look mismatched or dead (`DeployLooksLikeMismatch`,
  `DeployLooksLikeDead`). No false alarm is raised if no color of the service is
  recorded between the look at the color and the look at its container and both
  work (`NeverAlarming`), and that is exact at every point: a breach, and only a
  breach, can be followed by calm events, none failing, that end in a false alarm
  (`CalmIsExact`).
- A rollback restores the SHA exactly if the image tag carries it, which every SHA
  does exactly for the registry template (`RollbackUndoesDeploy`, `ShaRoundTrip`);
  a service with another template gets "unknown".
- When the SHA write fails after the color write, a deploy of the recorded SHA is
  skipped although its image need not be live (`LostShaWriteMisleads`).
- Two routes whose subdomains are `a` and `a.<domain>` get one host name twice, in
  Caddy and in Nginx (`GenerateCaddy`, `NamesCollide`, `OneNameTwice`).
- A chunk that begins with U+FEFF loses it. A stream without headers is handled as
  its lines if and only if no chunk ends inside a character and every U+FEFF that is
  lost stood in the margin of a complete line, where it is trimmed anyway. A stream of
  frames is handled as its bodies if and only if no chunk begins with U+FEFF or ends
  inside a character or between the two line breaks of a header, and each header
  announces UTF-16 units; a count of bytes is that exactly for ASCII
  (`LinesHoweverCut`, `HalfCharacter`, `DroppedMark`, `SameLinesIffMargins`,
  `FramesHandledIff`, `CountedInBytes`).
- Two seconds is the age limit of the relay's cached address only for lookups that
  take no time; in general it is two seconds plus one lookup (`TwoSecondsIffInstant`,
  `SlowLookupOutlivesTtl`, `StalenessBound`).
- Substitution in place equals one pass if and only if no value that can be named is
  empty, holds `${`, begins with `{` or ends with `$` (`SubstitutionIsOnePass`,
  `RescanSeesMore`). A value that names itself keeps the loop going
  (`SelfReferenceNeverEnds`); the loop ends if no value holds `$`, or none holds `}`,
  which is sufficient and not necessary (`EndsWhenLacking`).
- Variable names are written into run scripts unquoted: a newline in one makes a
  command of what follows (`NameInjectsCommand`), and a name is safe in every app if
  and only if it is made of plain characters (`SafeNamesArePlain`).

ARCHITECTURE.md and the code differ in three places, and the model follows the
code: ARCHITECTURE.md has Caddy reloaded before the color is written, the code
writes color and SHA first; it describes rollback as a redeploy of a cached image,
while the dashboard's rollback restarts the stopped container; and it says that
port offsets are not tied to service names, while Caddy's are for two services.

## Model

| member | source | states |
|---|---|---|
| Images.RegistryImage | system/orchestrator/src/service_def.rs:269-271 | the template `ghcr.io/coderyoss/codery:<service>-{sha}` filled with a SHA is exactly `ghcr.io/coderyoss/codery:<service>-<sha>` |
| Images.ImageRefReplaces | system/orchestrator/src/service_def.rs:269-271 | in every template each placeholder is replaced, from left to right, and nothing else |
| Images.TagIsRead | system/orchestrator/src/ui.rs:369-374 | of `ghcr.io/coderyoss/codery:<service>-<sha>` exactly the SHA is read, of every image that does not begin so "unknown" |
| Images.ShaRoundTrip | system/orchestrator/src/ui.rs:369-374 | the SHA can be read back from the image of every SHA if and only if the template is `ghcr.io/coderyoss/codery:<service>-{sha}` |
| Images.ShaNamesImage | system/orchestrator/src/ui.rs:609-615 | on the registry template, the SHA a rollback reads off a tag names that very image |
| Protocol.PlanCutover | system/orchestrator/src/deploy.rs:49-92 | an explicit SHA wins, then a preview, then the newest image; when exactly the plan is stale, has nothing newer or has no image |
| Protocol.SeenIsThere | system/orchestrator/src/deploy.rs:173-183 | a look that fails only takes away: what is seen running, or running an image, is |
| ProcInvariant.MoveKeepsInv | system/orchestrator/src/deploy.rs:383-503 | every effect of every command, failing in any way, keeps what holds at each program counter: which color is recorded, and that the color about to be recorded is up with the right image |
| ProcInvariant.TouchKeepsAvailable | system/orchestrator/src/deploy.rs:447-503 | no effect, however it ends, takes the container of the recorded color down |
| Interleaving.NextKeepsInv | system/orchestrator/src/deploy_lock.rs:13-50 | every action of every process keeps all processes' invariants; a process past its lock owns it |
| Interleaving.AvailabilityAlways | system/orchestrator/src/deploy.rs:383-503 | over every interleaving of commands, failures and kills on any services, a recorded color that is up stays up after every step |
| Misreads.AvailableUnlessMisread | system/orchestrator/src/state.rs:9-17 | with misreadings of color files added to the runs: over every interleaving in which no command takes green for blue, a recorded color that is up stays up |
| Misreads.MistakenDeployTakesDown | system/orchestrator/src/state.rs:9-17 | from every idle host, a deploy of an unrecorded SHA that takes green for blue once and meets no failure removes the active container |
| Interleaving.PromotionVerified | system/orchestrator/src/deploy.rs:222-311 | whenever a command is about to record a color, that container is up and runs exactly the image of the SHA recorded with it; without `--sha` a pending preview is what it is |
| Interleaving.MutualExclusion | system/orchestrator/src/deploy_lock.rs:13-50 | never are two commands past the lock of one service |
| Interleaving.LockGrantedIff | system/orchestrator/src/deploy_lock.rs:13-50 | over every run a lock is taken exactly while a command of its service is past it, so one that ends or is killed frees it, and a command that asks goes on if and only if there is none and its file opens |
| CommandResults.RunStands | system/orchestrator/src/deploy.rs:383-503 | at every point of every run, from any state and whatever could not be read or inspected, the service and Caddy are exactly what the program counter says they have become, and no other service changed |
| CommandResults.RunResult | system/orchestrator/src/main.rs:283-417 | what each command that runs through leaves, in closed form, for service and Caddy, cancel-preview included |
| CommandTheorems.DeployConverges | system/orchestrator/src/deploy.rs:397-413 | from any state at all, a deploy that runs through had nothing to do or leaves the closed form; state, SHA, running container and Caddy then agree on the new image with the other color down, if and only if it did not go to green with its color file unreadable |
| CommandTheorems.NoOpLeavesWorld | system/orchestrator/src/deploy.rs:397-409 | a deploy with nothing to do that notices so changes nothing, Caddy included |
| CommandTheorems.SkippedIffNoticed | system/orchestrator/src/deploy.rs:400-409 | a deploy is skipped if and only if there is nothing to do, the SHA file is read and the active container inspected |
| CommandTheorems.UnreadShaRedeploys | system/orchestrator/src/state.rs:30-36 | with an unreadable SHA file the same image is deployed again, to the other color |
| CommandTheorems.CutoverConverges | system/orchestrator/src/deploy.rs:222-311 | a cutover that runs through changed nothing if and only if there was no SHA, no preview and the newest image is the one the active container was seen with; otherwise it promoted the explicit SHA, else the preview seen staged, else the newest image's SHA, and leaves that closed form, converged under the same exact condition; no preview record is left |
| CommandTheorems.FailedCutoverKeepsPreview | system/orchestrator/src/main.rs:373-388 | a cutover that fails at any effect before the record is deleted leaves the preview record as it was |
| CommandTheorems.RollbackSwaps | system/orchestrator/src/ui.rs:590-661 | a rollback that runs through found a stopped container; that one is up and recorded with its image, the former one stopped, and the SHA is what follows `ghcr.io/coderyoss/codery:<service>-` on the tag, else "unknown"; Caddy is told the colors that could be read |
| CommandTheorems.RollbackUndoesDeploy | system/orchestrator/src/ui.rs:590-661 | a rollback after a deploy restores the color; the container exactly if it was up, the SHA exactly if it was the one on the tag, Caddy exactly if the color is not an unreadable green |
| CommandTheorems.RegistryShaIsOnTag | system/orchestrator/src/ui.rs:369-374 | on the registry template a SHA that agrees with the active image is the one on its tag |
| CommandTheorems.RollbackTwice | system/orchestrator/src/ui.rs:590-661 | two rollbacks in a row are the identity on the whole host if and only if the active container was up, its tag carried the recorded SHA and Caddy was on the colors the second one read |
| CommandTheorems.TwoPathsAgree | system/orchestrator/src/main.rs:283-390 | `deploy-preview` then `cutover` ends in the same files, containers and empty preview slot as `deploy`, and in the same Caddy colors if and only if both misread the same green services |
| CommandTheorems.CommandEnds | system/orchestrator/src/deploy.rs:383-503 | no command performs more than nineteen effects |
| CommandTheorems.SmoothRunSucceeds | system/orchestrator/src/deploy.rs:383-503 | a command that is not refused and meets no failure runs through, its own replacement check included |
| CommandTheorems.AcceptedMeaning | system/orchestrator/src/deploy.rs:247-311 | what a command refuses: a cutover without a SHA whose preview was not seen staged, or with neither preview nor image; a rollback that sees no stopped container; nothing else |
| Paths.RunKeepsToPath | system/orchestrator/src/deploy.rs:222-503 | from any state every run of a command performs its effects in one fixed order, spelled out for each command and first look, up to the first that fails: validation before removal, the health check before the guard, the state files before Caddy, Caddy before the stop |
| Paths.ReloadKeepsToPath | system/orchestrator/src/main.rs:140-141 | `reload-routes` reads the colors, loads them and reloads Nginx, in that order, and fails exactly if one of the three does |
| ShaAgreement.ExecKeepsAgreement | system/orchestrator/src/deploy.rs:480-481 | over every interleaving without a failure between the two state writes, on registry images or without rollbacks, SHA and active image agree except while some command stands between them |
| ShaAgreement.ShaNamesLiveImage | system/orchestrator/src/deploy.rs:397-409 | in such runs, whenever the lock is free the SHA names the active image, and a skipped deploy means the requested image is live |
| ShaAgreement.LostShaWriteMisleads | system/orchestrator/src/deploy.rs:480-481 | after a lost SHA write a deploy of the recorded SHA is skipped, and its image is live if and only if both SHAs stand for one image |
| ShaAgreement.RollbackAgrees | system/orchestrator/src/ui.rs:609-639 | a rollback leaves SHA and image in agreement if and only if the SHA read off the tag names the revived image |
| LiveRoutes.StepKeepsUp | system/orchestrator/src/deploy.rs:480-490 | one effect of a command that keeps its discipline leaves every routed and every recorded container up |
| LiveRoutes.StepKeepsRouteInv | system/orchestrator/src/caddy.rs:11-31 | every effect keeps that discipline, as long as no green color file is unreadable: colors read are current when loaded, both colors are up until Caddy is told |
| RouteTheorems.CommandKeepsRoutesUp | system/orchestrator/src/deploy.rs:447-503 | a command that starts with Caddy on the recorded color, or a harmless one, keeps all routed containers up after every effect, a failed reload included, as long as no green color file is unreadable |
| RouteTheorems.CommandSafeForTraffic | system/orchestrator/src/deploy.rs:383-503 | for each of the five commands: no run that reads colors right takes a routed container down, if and only if Caddy was in step, or it is a rollback or the promotion of a preview |
| RouteTheorems.DeployLeavesRoutesUp | system/orchestrator/src/caddy.rs:14-20 | after a deploy all routed containers are up if and only if every green service whose color could not be read has its blue one up |
| RouteTheorems.BlindDeployMisroutes | system/orchestrator/src/caddy.rs:14-20 | a deploy from blue, its own color unreadable, succeeds with Caddy on the stopped blue container |
| RouteTheorems.ReloadRepairs | system/orchestrator/src/caddy.rs:11-31 | re-applying the routes puts a service in step if and only if it is not a green one with an unreadable color file |
| RouteTheorems.FailedReloadThenDeploy | system/orchestrator/src/deploy.rs:480-490 | from every healthy host: a deploy whose reload fails leaves Caddy one color behind, and the next deploy of another SHA, with nothing failing, takes the routed container down with its third effect |
| RouteRuns.RoutesAlwaysUp | system/orchestrator/src/caddy.rs:11-31 | over every interleaving in which no color is recorded between another process's read and load, locks are granted in step or to harmless commands, and green colors can be read, routed containers are always up |
| RouteRuns.RulesAreExact | system/orchestrator/src/caddy.rs:11-31 | in every state the two rules lead to: a process may move if and only if no continuation that keeps the rules and in which no effect fails takes a routed container down |
| RouteRuns.BlindLoad | system/orchestrator/src/caddy.rs:11-31 | after a reading in which some color files are unreadable and its load, all routed containers are up if and only if each green service so misread has blue up |
| RouteRace.StaleSnapshotRace | system/orchestrator/src/main.rs:136-143 | from every idle host in step: a schedule of one deploy and one `reload-routes` with no failure and the lock granted in step, at whose end both report success and Caddy routes to the old container, which is stopped |
| Host.Host.StartInactive | system/orchestrator/src/deploy.rs:419-442 | validate, replace, start and health-check are the machine's effects in that order; success means the next one is due, failure ends the command |
| Host.Host.SwitchOver | system/orchestrator/src/deploy.rs:480-490 | color, SHA, Caddy, stop: each is the machine's effect, each failure ends the command |
| Host.Host.CutOver | system/orchestrator/src/deploy.rs:447-503 | the replacement check, the switch and the pruning are the machine's effects |
| Host.Host.ApplyAll | system/orchestrator/src/caddy.rs:11-31 | the colors loaded are those read before, blue for a file that could not be read; each of the two effects can fail |
| Host.Host.ContainerRunning | system/orchestrator/src/deploy.rs:173-183 | says running only of a container that is, and ends the command otherwise |
| Host.Host.HealthCheck | system/orchestrator/src/deploy.rs:604-640 | one effect: nothing changes, or the container is removed when the check and not the removal fails |
| Host.Host.WriteActive | system/orchestrator/src/state.rs:20-27 | one effect with three outcomes: the color is replaced, or not, or reads as blue |
| Host.Host.WriteActiveSha | system/orchestrator/src/state.rs:39-46 | one effect with three outcomes: the SHA is replaced, or not, or reads as none |
| Host.Host.StartContainer | system/orchestrator/src/deploy.rs:507-602 | one effect: the color's container runs the image of the SHA, or was created and not started, or nothing changed |
| Host.Host.StopContainer | system/orchestrator/src/deploy.rs:748-765 | one effect: a container that is there is stopped and keeps its image, or nothing changed |
| Host.Host.PollHealth | system/orchestrator/src/ui.rs:632-635 | one effect: nothing changes, or the revived container is stopped again when the poll fails and the stop does not |
| Host.Host.RunDeploy | system/orchestrator/src/deploy.rs:383-414 | is a run of the deploy machine from the state it found to the end it reports |
| Host.Host.RunDeployPreview | system/orchestrator/src/main.rs:312-336 | is a run of the deploy-preview machine |
| Host.Host.RunCutover | system/orchestrator/src/deploy.rs:222-311 | is a run of the cutover machine from the look it took, cleaning up the preview included |
| Host.Host.RunCancelPreview | system/orchestrator/src/deploy.rs:366-381 | is a run of the cancel-preview machine |
| Host.Host.RunRollback | system/orchestrator/src/ui.rs:590-661 | is a run of the rollback machine |
| Host.Host.TryAcquire | system/orchestrator/src/deploy_lock.rs:13-50 | takes a free lock and no other; a taken lock is never waited for |
| Host.Host.Deploy | system/orchestrator/src/main.rs:103-118 | releases its lock, refuses when it is taken, keeps the recorded color up at every effect; success means skipped with reason or the closed form, converged under the exact condition |
| Host.Host.DeployPreview | system/orchestrator/src/main.rs:283-346 | the same, and success leaves exactly the staged container, its record and the colors that could be read |
| Host.Host.Cutover | system/orchestrator/src/main.rs:347-390 | the same, and success means nothing changed exactly if there was nothing to promote, else the closed form for the explicit SHA, the staged preview or the newest image, with no record left |
| Host.Host.CancelPreview | system/orchestrator/src/main.rs:391-417 | the same, and success leaves neither idle container nor record, and tells Caddy only if there was a preview |
| Host.Host.Rollback | system/orchestrator/src/ui.rs:553-588 | the same, and success leaves exactly the swapped host, with the SHA of the revived container's tag |
| Host.TraceStaysUp | system/orchestrator/src/deploy.rs:383-503 | the recorded color is up in every state the code goes through |
| Host.TraceIsRun | system/orchestrator/src/deploy.rs:383-503 | what the code goes through is a run of the machine |
| Ports.PortBindingSpecs | system/orchestrator/src/service_def.rs:290-319 | the loops give exactly the list of specs: named ports in order, relayed UDP ports left out, then the whole range, each with its bind |
| Ports.SpecsPublish | system/orchestrator/src/service_def.rs:290-319 | that list is the specs of exactly the published ports, at their scheme's host port, without wrap-around when every port fits |
| Ports.BuildPortBindings | system/orchestrator/src/deploy.rs:856-876 | in terms of the definition alone: every published port and no other is bound, at container port plus offset; on the interface of the range if that covers it, else of the last named port, `0.0.0.0`, `127.0.0.1` or the tailnet address; fails if and only if a published port is for the tailnet and there is no address |
| Ports.ColorsDisjoint | system/orchestrator/src/service_def.rs:76-82 | the colors never compete for a host port if and only if no two published ports are as far apart as the offsets |
| Ports.GapExceedsSpread | system/orchestrator/src/service_def.rs:76-82 | an offset gap beyond the spread of the ports is enough |
| Ports.CollectTargets | system/orchestrator/src/udp_proxy.rs:45-63 | collects the fixed ports of one protocol, in definition order |
| Ports.TargetsPartition | system/orchestrator/src/tcp_proxy.rs:22-41 | every fixed port is in exactly one of the TCP and UDP lists, with multiplicity, and in the one it asks for |
| Ports.ResolvePreviewPort | system/orchestrator/src/main.rs:828-842 | the first port with a subdomain, else 8080 inside the range; for a checked definition a published port |
| Routing.ClaimServicePorts | system/orchestrator/src/db.rs:293-315 | the first TCP service port that asks for a subdomain has it |
| Routing.SortedValues | system/orchestrator/src/db.rs:361-364 | whatever order the map gives its values in, the list is strictly sorted and has exactly them |
| Routing.LessMeaning | system/orchestrator/src/db.rs:361-364 | one name is before another if and only if its character is smaller where they first differ, or it ends there |
| Routing.BuildRouteMap | system/orchestrator/src/db.rs:293-365 | a route is in the list if and only if it is that of the name's last preview, else last app, else last static route, else first TCP port of the first service asking for it, all fields included; strictly sorted, no name twice |
| Routing.RouteMapUnique | system/orchestrator/src/db.rs:361-364 | the tables determine the list, so hash order cannot show |
| RouteCompile.GenerateCaddy | system/orchestrator/src/caddy.rs:33-85 | one virtual host per route, in order, with the route's host name, its port (its own for the host, offsets by color otherwise), its caching and its password if the environment has it; for a sorted route map no host name occurs twice if and only if no two subdomains collide |
| RouteCompile.ServiceRouteMeetsContainer | system/orchestrator/src/caddy.rs:41-93 | Caddy's port for a service's own route is the one its active container publishes, if and only if Caddy's offsets are the definition's |
| RouteCompile.ServiceLayerReachesContainers | system/orchestrator/src/caddy.rs:41-93 | so every route of the merged map that comes from a service reaches a published port of its active container |
| RouteCompile.AppReachesItsPort | system/orchestrator/src/nginx.rs:36-69 | an app not hidden by a preview gets one route to 8080; Caddy meets the apps container if and only if the offsets agree; Nginx has its block, and only one of that name if and only if no other app spells it |
| RouteCompile.NginxServesApps | system/orchestrator/src/nginx.rs:36-69 | the server blocks are exactly those of the routes to apps, with name, port and caching |
| RouteCompile.PreviewReachesItsPort | system/orchestrator/src/db.rs:347-360 | the last preview of a name is served under it at the preview's own host port, uncached |
| RouteCompile.NamesCollide | system/orchestrator/src/nginx.rs:44-48 | two subdomains become one name if and only if one is the other with the domain spelled out |
| RouteCompile.OneNameTwice | system/orchestrator/src/nginx.rs:36-69 | such a pair, with two blocks |
| RouteCompile.DiagnosisLooksWhereCaddyPoints | system/orchestrator/src/diagnose.rs:231-247 | the diagnosis expects the listener where Caddy sends traffic, if and only if the apps offset is the one Caddy assumes |
| Diagnose.SeverityMeaning | system/orchestrator/src/diagnose.rs:156-168 | on a host that stands still, what each verdict says about the two containers, both ways |
| Diagnose.AlarmMeaning | system/orchestrator/src/diagnose.rs:311-316 | a mismatch or a dead service is reported if and only if no preview was pending and the container of the color read was not seen running |
| Diagnose.ConvergedIsOk | system/orchestrator/src/diagnose.rs:156-168 | a converged service without a preview is reported fine |
| Diagnose.Run | system/orchestrator/src/diagnose.rs:273-403 | all clear if and only if no issue is counted, and if and only if every service is fine, every route has a listener and no preview waits; the count is that of such services, such routes and the previews |
| Diagnose.CaddyServesRouted | system/orchestrator/src/caddy.rs:41-85 | the port compiled for a service from the colors Caddy was given is that of the color the protocol takes it to be routed to |
| Detector.NeverAlarming | system/orchestrator/src/diagnose.rs:282-316 | over every interleaving of commands, failures and kills with the four looks, a service that was up raises no alarm if no color of it is recorded between the look at the color and the look at that color's container and those looks work |
| Detector.CalmIsExact | system/orchestrator/src/diagnose.rs:282-316 | at every point at which the detector has been right: an event is calm if and only if no calm continuation in which no look and no effect fails ends in a false alarm |
| Detector.DeployLooksLikeMismatch | system/orchestrator/src/diagnose.rs:288-316 | every deploy that is not skipped and meets no failure, run to its success between the second and the third of four working looks while the active container is up after every action, makes its healthy service look mismatched |
| Detector.DeployLooksLikeDead | system/orchestrator/src/diagnose.rs:296-297 | run between the two inspections, it makes a healthy green service with blue down look dead |
| Relay.UdpRelay.OutboundFor | system/orchestrator/src/udp_proxy.rs:176-214 | a known client keeps its socket and is stamped; a new one gets the next socket unless the table is full or no socket opens |
| Relay.UdpRelay.ServerAddr | system/orchestrator/src/udp_proxy.rs:235-256 | a stale cache is refilled by a successful lookup and kept otherwise |
| Relay.UdpRelay.Handle | system/orchestrator/src/udp_proxy.rs:139-170 | one turn of the loop is one step of the relay |
| Relay.UdpRelay.Relay | system/orchestrator/src/udp_proxy.rs:139-170 | the loop is the run its events describe |
| Relay.InvAlways | system/orchestrator/src/udp_proxy.rs:176-214 | in every state of every run the cap holds and a client's socket was opened for that client |
| Relay.TableHolds | system/orchestrator/src/udp_proxy.rs:176-214 | in every state of every run at most 16 clients, no two on one socket |
| Relay.DroppedIff | system/orchestrator/src/udp_proxy.rs:145-214 | over every run a datagram is dropped if and only if its sender is unknown and the table full or no socket opens, or its lookup fails and none has succeeded before |
| Relay.NoCrossTalk | system/orchestrator/src/udp_proxy.rs:216-230 | over whole runs, sweeps and re-admissions included, a reply on a socket goes to the one peer whose datagrams went out on it |
| Relay.ReplyComesBack | system/orchestrator/src/udp_proxy.rs:216-230 | a reply passed on after a datagram was sent reaches its sender |
| Relay.SessionStable | system/orchestrator/src/udp_proxy.rs:157-168 | over every run a session keeps its socket if and only if no sweep finds it idle for 300 seconds or more; a client that comes back gets another one |
| Relay.StalenessBound | system/orchestrator/src/udp_proxy.rs:235-256 | each datagram goes to an address that was active within two seconds plus one lookup, or its own lookup failed and it goes to the last known one |
| Relay.ReplacedContainerDrains | system/orchestrator/src/udp_proxy.rs:235-256 | so later than that after a cutover every datagram goes to the promoted color's container |
| Relay.TwoSecondsIffInstant | system/orchestrator/src/udp_proxy.rs:241-250 | a cached address is never served more than two seconds after it was read if and only if the lookup took no time |
| Relay.SlowLookupOutlivesTtl | system/orchestrator/src/udp_proxy.rs:241-250 | a run with a one-second lookup that sends to the replaced container two and a half seconds after the cutover |
| Relay.FailedLookupRetries | system/orchestrator/src/udp_proxy.rs:235-256 | as long as lookups fail the cache stays and every admitted datagram tries again |
| Substitution.Rewrite | system/orchestrator/src/service_def.rs:412-423 | one turn of the loop: the first placeholder is replaced, or the error the source reports |
| Substitution.PlaceholderReplaced | system/orchestrator/src/service_def.rs:412-423 | a text is cut at its first `${` and the next `}`; the name between them is replaced by its value, or reported missing |
| Substitution.PlaceholderUnclosed | system/orchestrator/src/service_def.rs:412-423 | without that `}` the text is refused; without a `${` it is the result |
| Substitution.SubstituteEnv | system/orchestrator/src/service_def.rs:410-425 | whenever the loop ends, its result is the outcome of its run, and a text it returns has no `${` left |
| Substitution.EndsWhenLacking | system/orchestrator/src/service_def.rs:410-425 | with no `$` in any value, or no `}` in any, the loop ends, after at most as many replacements as the string has of that character |
| Substitution.SelfReferenceNeverEnds | system/orchestrator/src/service_def.rs:410-425 | a value that names its own variable: no run ends |
| Substitution.SubstitutionIsOnePass | system/orchestrator/src/service_def.rs:410-425 | rewriting in place ends and equals one pass from left to right for every string, errors included, if and only if every value a placeholder can name is non-empty, holds no `${`, does not begin with `{` and does not end with `$` |
| Substitution.RescanSeesMore | system/orchestrator/src/service_def.rs:410-425 | an empty value for which the two differ |
| Substitution.LoadEnvMap | system/orchestrator/src/validate.rs:149-161 | a name has a value if and only if the last line beginning with that name and `=`, comments aside, continues with that value, the name being all before the first `=` |
| Substitution.LoadThroughRawLines | system/orchestrator/src/deploy.rs:517-528 | the raw lines are those that are neither blank nor comments, as often as they are there, and reading through them gives the same environment |
| Substitution.ValidatedPathIsMounted | system/orchestrator/src/validate.rs:46-59 | the host path that validation checks is the one the container mounts: the outcome of substitution with that environment |
| ShellQuote.QuotingRoundTrip | system/orchestrator/src/db.rs:425-427 | the shell reads a quoted string back as exactly that string, if and only if it has no NUL |
| ShellQuote.RenderRun | system/orchestrator/src/db.rs:429-452 | with plain names the shell reads the script as one export per variable, a change to exactly the stored directory and exactly the stored command as exactly the stored user, if and only if no stored string holds NUL |
| ShellQuote.NameInjectsCommand | system/orchestrator/src/db.rs:439-441 | a name with newlines: the shell reads what stands between them as a command |
| ShellNames.SafeNamesArePlain | system/orchestrator/src/db.rs:439-441 | a name is safe in every app, whatever else is stored, if and only if it is made of plain characters |
| Framing.Reader.TakeOne | containers/paseo/scripts/github-app-permissions-mcp.ts:459-485 | one turn of the inner loop: a frame if a header is there, else a line, else nothing |
| Framing.Reader.Receive | containers/paseo/scripts/github-app-permissions-mcp.ts:454-486 | a chunk of bytes is decoded by itself and appended, and the buffer drained; the loop ends because the buffer shrinks |
| Framing.Serve | containers/paseo/scripts/github-app-permissions-mcp.ts:446-487 | the messages of a whole session, chunk by chunk |
| Framing.ValueIsDecimal | containers/paseo/scripts/github-app-permissions-mcp.ts:464 | digits are read as the number they spell in decimal, zeros in front allowed, and as no other |
| Framing.HeaderFromAfar | containers/paseo/scripts/github-app-permissions-mcp.ts:462-472 | the leftmost header counts wherever it stands: what is before it is dropped, and as much text as it announces is the message |
| Utf8.CutStream | containers/paseo/scripts/github-app-permissions-mcp.ts:455-458 | decoding the chunks one by one, no marks dropped, gives each character's units in order, or two or more replacement characters for one that is cut, and all characters come out if and only if no chunk ends inside one |
| Marks.CutWithMarks | containers/paseo/scripts/github-app-permissions-mcp.ts:455-458 | the same for what is left when each chunk's decoder drops a leading mark: only marks are dropped, and none is if and only if no chunk begins with one |
| Margins.SameLinesIffMargins | containers/paseo/scripts/github-app-permissions-mcp.ts:474-483 | a text loses some of its U+FEFF: its messages and its rest stay the same if and only if each stood in the margin of a complete line |
| Margins.LinesMeaning | containers/paseo/scripts/github-app-permissions-mcp.ts:474-483 | a complete line gives what stands between the white space at its ends, or nothing if that is empty; a text without a line break gives none |
| ByteStreams.LinesHoweverCut | containers/paseo/scripts/github-app-permissions-mcp.ts:455-483 | a stream of characters cut into chunks of bytes, with no header in what is left of it, is handled as its complete lines, trimmed, without the blank ones, if and only if no chunk ends inside a character and every mark dropped from a chunk stood in the margin of a complete line |
| ByteStreams.HalfCharacter | containers/paseo/scripts/github-app-permissions-mcp.ts:458 | a two-byte character cut in half: two U+FFFD in its place, not handled as its line |
| ByteStreams.DroppedMark | containers/paseo/scripts/github-app-permissions-mcp.ts:458 | a chunk that begins with U+FEFF in the middle of a line: not handled as that line |
| Framing.DrainFrames | containers/paseo/scripts/github-app-permissions-mcp.ts:461-472 | any prefix of a stream of frames: the bodies of its whole frames, and a header cut between its line breaks comes out as a message |
| Framing.CleanCutsGiveBodies | containers/paseo/scripts/github-app-permissions-mcp.ts:459-485 | decoded frames cut nowhere between those line breaks are handled body by body and leave nothing |
| Framing.BadCutShowsHeader | containers/paseo/scripts/github-app-permissions-mcp.ts:459-485 | after one such cut some header is handled in its body's place |
| FrameStreams.FirstMessage | containers/paseo/scripts/github-app-permissions-mcp.ts:461-472 | whatever a frame announces and however the stream is cut: its header comes out as a line, or nothing does, or exactly as much text as it announces |
| FrameStreams.FramesHandledIff | containers/paseo/scripts/github-app-permissions-mcp.ts:446-487 | a stream of frames in bytes is handled as the bodies sent, if and only if no chunk begins with a mark or ends inside a character or between the line breaks of a header and each header spells the UTF-16 units of its body in decimal |
| FrameStreams.CountedInBytes | containers/paseo/scripts/github-app-permissions-mcp.ts:464-468 | lengths counted in bytes are right exactly for ASCII bodies |
| Wire.EncodedIsRead | containers/paseo/scripts/github-app-permissions-mcp.ts:458 | the UTF-8 encoding of every Unicode scalar value is decoded to its UTF-16 code units |
| Wire.CharIsEncoded | containers/paseo/scripts/github-app-permissions-mcp.ts:458 | and nothing else is taken for a character |
| Wire.WrittenHandledIff | containers/paseo/scripts/github-app-permissions-mcp.ts:446-487 | messages written as `Content-Length: `, the count of UTF-16 units in decimal, two line breaks and UTF-8 are handled as they were sent however the bytes are cut, if and only if the cuts do no harm |
| Wire.EachAlone | containers/paseo/scripts/github-app-permissions-mcp.ts:446-487 | written one per chunk they always are |
| Wire.LinesHandledIff | containers/paseo/scripts/github-app-permissions-mcp.ts:474-483 | messages written as lines are handled as they were sent, if and only if no chunk ends inside a character or begins with a mark |
| Framing.WholeFramesAreClean | containers/paseo/scripts/github-app-permissions-mcp.ts:446-487 | chunks of whole frames are such cuts |
| Bundles.WrittenHolds | system/orchestrator/src/db.rs:400-416 | a bundle written where nothing is in the way holds what the table asks: type, timeout, run file, and the finish script of its restart policy exactly if not always restarted, other entries as before |
| Bundles.WrittenFixed | system/orchestrator/src/db.rs:400-416 | writing changes nothing if and only if the bundle already holds |
| Bundles.Fill | system/orchestrator/src/db.rs:400-416 | the writes succeed exactly if nothing of the wrong kind is in the way |
| Bundles.S6Directory.Prune | system/orchestrator/src/db.rs:377-393 | whatever the listing order, exactly plain files and managed directories stay |
| Bundles.S6Directory.WriteBundle | system/orchestrator/src/db.rs:400-416 | writes the one bundle, unless a file stands where a directory is to be or the other way round, and touches no other name |
| Bundles.S6Directory.Sync | system/orchestrator/src/db.rs:373-398 | prunes, then writes every bundle until one fails; unmanaged names are pruned either way |
| Bundles.SyncConverges | system/orchestrator/src/db.rs:373-398 | from any directory, succeeds if and only if nothing is in the way; then the directories are exactly the runtime apps', each as the table asks, and plain files are as before |
| Bundles.SyncFixed | system/orchestrator/src/db.rs:373-398 | the directories a sync leaves alone are exactly those the table asks for |
| Bundles.SyncTwice | system/orchestrator/src/db.rs:373-398 | a second sync changes nothing |
| Bundles.SyncedRunsWhatIsStored | system/orchestrator/src/db.rs:429-452 | in a synced directory the run file of a runtime app with plain variable names and no NUL is the fixed lines and then what the shell reads as exactly the stored exports, directory, user and command |

## Left out

- `recreate`, the MCP rollback tool and the dashboard's stop, kill and restart buttons: they take no deploy lock, and recreating has downtime by design.
- Docker, Caddy, Nginx, SQLite and Tailscale themselves: each call is an effect that may fail; a container does not stop by itself.
- A color file whose existence cannot be determined: in `Misreads` only; the other theorems about runs take it to be found.
- `reload-routes` syncs the bundles before it applies the routes: that effect is `Bundles` alone, and a sync that fails is not part of the protocol.
- The Caddyfile on disk: its write and the reload are one effect, so a reload that finds another process's file is not modelled.
- Health polling and its timing: an effect that passes or fails.
- Image pruning: an effect that changes nothing modelled.
- The dashboard's in-process set of running rollbacks: the file lock is what excludes.
- The characters of lock names: a refused name is a failed lock.
- Trimming of the state files, and SHA writes cut short to a prefix: a cut-short SHA write leaves an empty file.
- Text layout of the Caddyfile and the Nginx file, and Nginx's default server: blocks are records.
- u16 additions wrap, as in an optimised build; a debug build would stop instead.
- Required variables, host paths, volumes and ports in use that validation checks: validation is an effect that may fail.
- A missing .env file: validation reads it as empty, starting a container fails.
- Choice of the port in a proxied TCP connection: the host port formula again.
- The reply forwarders' own timeout: a reply may stay unforwarded, and nothing is claimed about that.
- What the fixed first lines of the run script do, and the JSON form of an app's environment.
- ShellNames.SafeNamesArePlain: the reader gives up on operators, expansions and comments outside quotes, so a name with such a character is not plain even where a shell would happen to take it literally.
- Wire.WrittenHandledIff: in the only-if half, the messages that FrameStreams.FramesHandledIff sets aside are set aside here too.
- FrameStreams.FramesHandledIff: in the only-if half, bodies that hold U+FFFD or spell their own header line are set aside, since for them wrong text can look right.
- Substitution.EndsWhenLacking: sufficient conditions for the loop to end, not an equivalence.
- Bundles.SyncConverges: symbolic links and other input/output failures are not part of this model; app names are single path components.
- host metrics, preflight, the MCP tool wrappers, the React dashboard and container images: input/output and presentation.
