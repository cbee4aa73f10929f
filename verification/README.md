# Portcullis, verified

A Dafny model of the engine that turns a captive-portal router's desired wireless state into UCI configuration and
netfilter rules, with proofs of what its commit-confirm protocol, its two packet gates and its smaller algorithms keep.
`dafny verify dfyconfig.toml` checks all of it.

**The provisioner.** The router's configuration is a map of keys, kept twice: staged and committed. Commands change it
one at a time, and an adversary decides which of them fail (`Uci`). A snapshot of the owned sections is read from the
text of `uci show` (`Snapshot`), written to a tmpfs marker and read back (`Marker`). A desired state is validated
(`Validate`, over the subnet arithmetic of `Bits`; `Limits` tells without the validator what passes) and compiled to a
batch of commands (`Wireless`). `Converge`, `Built`, `Parts`, `Served`, `Faithful`, `Peering` and `RenderSafe` say what
the batch builds, section by section. `Protocol` is the commit-confirm state machine - push, confirm, watchdog, crash,
restart - and `Rollback`, `Safety`, `Runs`, `Restore` and `Verdict` prove what it keeps over every run and when it
reports success. `Heal` and `Boot` are the recovery of the gate scope when the daemon starts; `Witness` exhibits accepted
pushes that show the exceptions. `Machine` and `Actor` are the imperative form: classes whose methods issue the commands
in loops and are proved equal, state and answer, to the functions the theorems are about.

**The gate.** `Gate` gives the nft documents a meaning on a table and on packets; `Jumps` gives one to the iptables
chains and the jumps into them and proves that the two agree; `Rescope` is the incremental re-scope under failing
commands; `Backends` and `Writer` are the imperative backends and the single-owner actor that retries once.

**Smaller pieces.** The bounded token bucket (`RateLimit`), the metering documents re-applied every poll
(`DeviceMeter`), saturating byte accounting (`Conntrack`), MAC addresses, the signed tuple and the redirect URL (`Mac`,
`Sign`, `Location`), and the configuration lexer (`Lexer`). `Text` holds the string functions all of them share.

How to read the statements:

- `Quiet(e, t, n)` says that none of the `n` commands from the `t`-th on fails; a theorem without it holds for every
  pattern of failures. `Inv` is the invariant of every run; `EventOk` asks that the texts of a *valid* push fit the
  line-based text forms (exactly when that is so is `RenderSafe.ValidPushSafeIff`) and that the clock fits 64 bits.
- `sqm` is the one config whose failing `show` and commit the engine tolerates. `NoSqm` and `SqmPart` are a layer outside
  and within it, `shown` and `landed` say whether its `show` and its commit succeeded; the theorems about restoring hold
  either way and say what becomes of it.
- `Clean` stores are those whose values carry no quote and no line break, which is what `uci show` prints unambiguously.
- A character below 256 stands for one byte in `Sign` and `Location`; tokens and times of the limiter are reals; keyed
  hashes and address parsers are parameters.

What the proofs found, where the code and its own comments or documentation part:

- A rollback leaves options that a push added to a section that existed before: hiding an SSID is not undone
  (`Restore.UndoneIff` gives the exact condition, `Witness.RollbackKeepsGained` accepted pushes).
- When `uci show sqm` fails on a device that has a shaper, a push and its rollback lose exactly the shaper sections the
  push declares, and a push leaves those it does not declare in place (`Restore.WatchdogRestores`,
  `Restore.UnseenUntouched`).
- Addresses and masks are trimmed when they are checked and written as they came; hostnames and target zones are not
  checked at all (`RenderSafe.TrimmedAddressEscapes`). A push without SSIDs is accepted before its peer pairs are
  looked at, and may forward into `lan` (`RenderSafe.UncheckedPairEscapes`, `Peering.IntoLanIff`).
- `pc_peer_<from>_<to>` is not injective: of two pairs with one name the first is lost, and a pair may take the name of
  any firewall section an SSID needs; a static lease may take that of an address pool. `Served.ServedIff` gives the
  exact condition (also `Peering.ForwardsExactly`, `Heal.HealInverts`, `Witness.PairLost`, `Witness.PortalLost`).
- After a failed iptables re-scope the recorded scope does not match the kernel, and asking for the old scope again does
  not repair it (`Rescope.FailedRecordMatches`, `Rescope.OldScopeNotRestored`). A restarted daemon keeps the jumps of any
  scope other than the seed and the restored set, and opens the gate while it refills its chains
  (`Rescope.RestoredScopeExact`, `Rescope.RestartWindow`).
- A confirmed push that gates nothing does not survive a restart: an empty set is not restored, and the static seed the
  backend was built over is gated again (`Boot.BootScopesAgree`).
- A daemon restart, or a failed prune, makes the poller forget what it has to prune (`DeviceMeter.RestartExact`,
  `DeviceMeter.PruneFailsExact`, `DeviceMeter.ForgottenLeaks`).
- The per-line source counter is one byte wide (`Conntrack.LineExact`, `Conntrack.MisreadExact`; a build with overflow
  checks stops instead).
- A confirm that arrives after the deadline is accepted as long as the watchdog has not fired; the model follows the
  code (`Restore.LateConfirmCommits`).

## Model

| member | source | states |
|---|---|---|
| `Uci.ApplyBatchGood` | crates/portcullis-provision/src/sm.rs:323-347 | For every pattern of failing commands an apply changes nothing outside the owned namespace, in either layer, keeps every layer well shaped and creates no section its batch does not declare |
| `Uci.ApplyBatchFrame` | crates/portcullis-provision/src/sm.rs:323-347 | For every pattern of failing commands an apply leaves a section that no command of its batch names exactly as it was, in both layers |
| `Uci.CommitAndReloadGood` | crates/portcullis-provision/src/sm.rs:352-411 | The same for the commit and reload sequence, wherever it fails |
| `Snapshot.ParseShowLineOk` | crates/portcullis-provision/src/sm.rs:296-315 | Reading one shown line captures exactly the entry shown: an owned section, scalar or list, and nothing for any other line |
| `Snapshot.SnapshotExact` | crates/portcullis-provision/src/sm.rs:283-318 | A snapshot is taken if and only if no `show` but that of `sqm` fails; it then holds every owned scalar, list and section of the staged store and nothing else - without `sqm` when its `show` failed |
| `Snapshot.UnquoteEither` | crates/portcullis-provision/src/uci.rs:151-162 | A value between two quotes of either kind, white space around them or not, is what stands between them |
| `Snapshot.DeclBeforeOption` | crates/portcullis-provision/src/sm.rs:497-500 | In map order the key of a section comes before the key of each of its options |
| `Marker.SnapRoundTrip` | crates/portcullis-provision/src/sm.rs:72-121 | The text of a snapshot is read back exactly, lists included |
| `Marker.MarkerRoundTrip` | crates/portcullis-provision/src/sm.rs:149-195 | Every well-formed marker is recovered exactly from its text |
| `Marker.MarkerMeans` | crates/portcullis-provision/src/sm.rs:161-195 | What any text is read as: nothing without the rule, with a line before it that has no `=`, or without a deadline; else, key by key, what its last line says, whatever the order and whatever other keys are there |
| `Marker.MarkerLayout` | crates/portcullis-provision/src/sm.rs:149-159 | A marker is five lines, each a key and its value, a line of three dashes and the snapshot |
| `Marker.CommentsSkipped` | crates/portcullis-provision/src/sm.rs:97-121 | Empty lines and comments in the text of a snapshot do not matter |
| `Marker.WriteSnap` | crates/portcullis-provision/src/sm.rs:72-94 | The loop that writes a snapshot writes the text the round trip is about |
| `Marker.ReadSnapText` | crates/portcullis-provision/src/sm.rs:97-121 | The loop that reads a snapshot reads what the round trip is about |
| `Marker.WriteMarker` | crates/portcullis-provision/src/sm.rs:149-159 | Writes the head lines, the rule and the snapshot as the round trip requires |
| `Marker.ReadMarkerText` | crates/portcullis-provision/src/sm.rs:161-195 | Reads a marker, or nothing for a text without the rule, with a head line without `=`, or without a deadline |
| `Machine.ProvisionMachine.SnapshotWireless` | crates/portcullis-provision/src/sm.rs:283-318 | The loop over the owned configs and their lines takes the snapshot the theorems are about, and issues the same commands under the same failures |
| `Machine.ProvisionMachine.ReadShow` | crates/portcullis-provision/src/sm.rs:294-315 | Line by line, the snapshot of one `uci show` text |
| `Machine.ProvisionMachine.ApplyWireless` | crates/portcullis-provision/src/sm.rs:323-347 | The router after the batch, its reverts, commits and reloads is that of the apply the theorems are about, and so is the verdict; a refused delete is skipped, any other failure reverts and stops |
| `Machine.ProvisionMachine.CommitAndReloadMulti` | crates/portcullis-provision/src/sm.rs:352-411 | Config by config, then the whole reload sequence; a failed `sqm` commit is tolerated, another drops what is staged |
| `Machine.ProvisionMachine.RecoverDarkRadios` | crates/portcullis-provision/src/sm.rs:420-440 | The status, the forced bring-ups and the second status, with the answer of the reload whose verdict `Verdict.ReloadVerdict` states outright: an error only when a second status still reports a radio down |
| `Machine.ProvisionMachine.RevertOwned` | crates/portcullis-provision/src/sm.rs:449-453 | Drops the staged changes of every owned config, best effort |
| `Machine.ProvisionMachine.ReloadRadioResilient` | crates/portcullis-provision/src/sm.rs:461-479 | Reload, once more, then a hard bring-up; an error only when all three fail |
| `Machine.ProvisionMachine.RollBackTo` | crates/portcullis-provision/src/sm.rs:485-512 | The deletes of added sections, the scalars and the lists, each best effort, then commit and reload: the rollback the theorems are about |
| `Verdict.ReloadVerdict` | crates/portcullis-provision/src/sm.rs:352-440 | A reload succeeds if and only if network, firewall, `dnsmasq` and every radio came up - a radio by one of its at most three commands - and the last status, if it could be read, reports none of the radios down; every command it issues is accounted for, the shaper's may fail |
| `Verdict.UpMeans` | crates/portcullis-provision/src/sm.rs:413-440 | After a reload that succeeded no radio of the set is reported down by its last status, unless that could not be read |
| `Verdict.AcceptedIff` | crates/portcullis-provision/src/sm.rs:323-440 | A push is accepted if and only if it is valid, on no protected radio, nothing is pending, its shows, its sections and its commits do not fail - show and commit of `sqm` excepted, and whatever its deletes do - and the router comes up on every radio of the reload set |
| `Verdict.PushReport` | crates/portcullis-provision/src/handle.rs:298-363 | An accepted push appends one pending status with one row per SSID, its slug and its bridge in order, and arms a deadline after 90 seconds or as long as it says; a refused one leaves what is pending as it was and reports nothing or that it failed |
| `Verdict.ConfirmReport` | crates/portcullis-provision/src/handle.rs:367-397 | A confirm is accepted if and only if its version is pending; it changes no layer, remembers the state and reports the rows of the push |
| `Verdict.WatchdogReport` | crates/portcullis-provision/src/handle.rs:401-416 | A fired watchdog reports `RolledBack` if and only if the commits of its rollback, that of `sqm` excepted, do not fail and the router comes up again, and `Failed` otherwise |
| `Verdict.RestartReport` | crates/portcullis-provision/src/handle.rs:420-470 | A restart forgets the committed state; a push within its window stays pending with the same deadline and snapshot, without its rows and its state; one past it is rolled back and reported without rows, by the same verdict as the watchdog's |
| `Verdict.WindowHolds` | crates/portcullis-provision/src/handle.rs:196-228 | While a push is pending nothing is reported, and router, files and deadline stay as they are, if and only if nobody confirms its version and neither the watchdog nor a restart sees a clock at or past the deadline |
| `Rollback.RollbackRestores` | crates/portcullis-provision/src/sm.rs:485-512 | Whatever failed before, a rollback whose own `uci` commands succeed, the commit of `sqm` perhaps excepted: outside `sqm` - and within, when it was shown - exactly the sections of before with every value of before, no other key touched, nothing staged, and the layer from before if and only if no surviving section gained an option; of a `sqm` that was not shown exactly the declared sections go; the committed `sqm` is the staged one unless its commit failed |
| `Rollback.UndoneWithoutSqm` | crates/portcullis-provision/src/sm.rs:285-293 | On a device without a traffic shaper, whose `sqm` commands always fail, the whole router is restored, under the same condition |
| `Rollback.ExecSets` | crates/portcullis-provision/src/sm.rs:497-500 | Replaying the scalars in map order never sets an option of a missing section, and lays every one of them |
| `Restore.FailedPushRestores` | crates/portcullis-provision/src/handle.rs:298-314 | A push that fails at any `set`, commit, reload or revert restores what it found, reports `Failed` and leaves nothing pending; with a failed `show` of `sqm` it loses exactly the `sqm` sections it declared |
| `Restore.StoppedPushIsExact` | crates/portcullis-provision/src/sm.rs:336-344 | A push stopped before its commits is undone exactly: outside `sqm` both layers are as they were, and within when neither show, revert nor commit of `sqm` failed |
| `Restore.StoppedCommit` | crates/portcullis-provision/src/sm.rs:353-368 | Commits stopped by a failure leave nothing staged once the reverts succeed, that of `sqm` excepted: what was not committed is dropped |
| `Restore.CommitPrefix` | crates/portcullis-provision/src/sm.rs:353-368 | When the n-th commit fails, exactly the configs before it - of `network`, `wireless`, `dhcp`, `firewall`, in this order - are committed as staged, and every other stays as it was |
| `Restore.WatchdogRestores` | crates/portcullis-provision/src/handle.rs:401-416 | After an accepted push and anything that reports no status - refused pushes, other confirms, crashes, restarts - the watchdog restores the layer from before the push, for `sqm` as far as its show and commit succeeded |
| `Restore.UnseenUntouched` | crates/portcullis-provision/src/sm.rs:286-293 | A push whose snapshot did not see `sqm` leaves every `sqm` section it does not declare as it was, whatever fails: stale, but never lost |
| `Restore.UndoneIff` | crates/portcullis-provision/src/sm.rs:485-512 | An accepted push none of whose deletes failed and that the watchdog undoes leaves the store from before if and only if none of its options is new in a section that was there, a condition of the push and the store it is made on |
| `Restore.LateConfirmCommits` | crates/portcullis-provision/src/handle.rs:367-397 | A confirm is accepted at any time, past the deadline too, until the watchdog has fired, and keeps everything the push applied |
| `Witness.HidingIsNew` | crates/portcullis-provision/src/sm.rs:491-500 | Over a router that holds any valid push, hiding an SSID that was visible is such an option, so no rollback undoes it |
| `Witness.RollbackKeepsGained` | crates/portcullis-provision/src/sm.rs:491-500 | Two accepted pushes, the second hiding the SSID of the first |
| `Wireless.RenderSsid` | crates/portcullis-provision/src/uci.rs:252-450 | The renderer's loops push, section by section, the batch of one SSID; what that batch leaves in the store is `Served.ServedIff` |
| `Wireless.RenderWireless` | crates/portcullis-provision/src/uci.rs:486-495 | Every SSID's batch, then every inter-SSID forwarding |
| `Converge.RenderOwned` | crates/portcullis-provision/src/uci.rs:252-495 | Whatever the desired state, valid or not, only owned sections are named |
| `Converge.DeclsAreSections` | crates/portcullis-provision/src/uci.rs:508-515 | The section declarations of a rendered batch are the sections rendered, in order |
| `Converge.ReconcileExec` | crates/portcullis-provision/src/uci.rs:500-515 | Over any store, deleting what is owned and setting what is desired leaves the rest as it was and the owned part as the desired state alone builds it; every `set` is accepted |
| `Converge.PushConverges` | crates/portcullis-provision/src/handle.rs:287-298 | A push without failing commands - show and commit of `sqm` excepted - leaves, staged and committed, the rest as it was and outside `sqm` exactly the desired owned part, whatever was owned before; within `sqm` exactly the declared sections, and those from before when they were not shown |
| `Converge.AcceptedQuiet` | crates/portcullis-provision/src/sm.rs:323-347 | When a push is accepted, only its deletes and the commit of `sqm` can have failed |
| `Converge.ReapplyIsNoOp` | crates/portcullis-provision/src/handle.rs:287-298 | Stores that agree outside the owned namespace are led to the same store; one is left alone if and only if its owned part is already the desired one |
| `Built.LastWins` | crates/portcullis-provision/src/uci.rs:252-495 | Of the rendered pieces that share a section the last one decides its type and its scalar options |
| `Served.ServedIff` | crates/portcullis-provision/src/uci.rs:252-495 | The store a valid push builds has, for every SSID, every section the SSID needs, of its type and with exactly its options - bridge and address; an access point on exactly its radios with mode, network, name, cipher, key, isolation, hiding, PMF, fast transition, client limit and MAC filter; pool and static leases; a zone that rejects input and forwarding and accepts output; its one way out; its DHCP, DNS, portal and target rules; its shaper with either rate on its bridge - and none it does not need, if and only if no pair takes the name of such a section and no static lease that of an address pool |
| `Served.NothingElse` | crates/portcullis-provision/src/uci.rs:486-495 | Every section of the built store is one an SSID needs or that of a pair |
| `Parts.SectionsApart` | crates/portcullis-provision/src/uci.rs:252-450 | Section names tell SSIDs and parts apart, except a static lease of one SSID and the address pool of another |
| `Parts.PlainSlugsKept` | crates/portcullis-provision/src/uci.rs:452-455 | Slugs that do not start `peer_`, none of them another followed by `_host` and a number, are enough for every name to be kept |
| `Faithful.CompilerFaithful` | crates/portcullis-provision/src/uci.rs:252-495 | Two valid pushes that build the same store, neither with a name taken, have the same SSIDs with the same settings, all of them, up to defaults and the case of MACs |
| `Built.RadioNotOverloaded` | crates/portcullis-provision/src/uci.rs:276-336 | No radio of the store a valid push builds carries more than the hardware limit of access points |
| `Peering.ForwardsExactly` | crates/portcullis-provision/src/uci.rs:376-495 | The store a valid push builds forwards one zone to another if and only if that is an SSID's egress whose section no pair took the name of, or a listed pair that no later pair took the name of |
| `Peering.PairServed` | crates/portcullis-provision/src/uci.rs:464-473 | A pair that is the last of its name, in a push that keeps its names, has a section with its two ends and the owner and nothing else |
| `Peering.IntoLanIff` | crates/portcullis-provision/src/uci.rs:581-583 | It forwards into `lan` if and only if it has no SSIDs and a pair into `lan` that no later pair took the name of; with distinct names, any pair into `lan` |
| `Peering.TeardownIntoLan` | crates/portcullis-provision/src/uci.rs:581-583 | An accepted push that does |
| `Peering.PeersExactly` | crates/portcullis-provision/src/uci.rs:453-495 | All listed pairs are forwarded if and only if each is the last of its section name or says what an SSID's egress says; with egress zones outside, if and only if their section names are distinct |
| `Witness.PairLost` | crates/portcullis-provision/src/uci.rs:453-455 | An accepted push of four SSIDs and two pairs that share a section name: the first is not forwarded |
| `Validate.ValidateWireless` | crates/portcullis-provision/src/uci.rs:557-881 | Accepts exactly the valid states; what those are, told without the validator, is `Limits.ValidIff` |
| `Validate.CheckReservations` | crates/portcullis-provision/src/uci.rs:765-817 | Accepts exactly the reservations that `Limits.OwnHosts` describes, by one pass over those seen so far |
| `Validate.SubnetsOverlap` | crates/portcullis-provision/src/uci.rs:717-723 | Reports an overlap if and only if some address lies in both subnets |
| `Validate.CheckSsids` | crates/portcullis-provision/src/uci.rs:600-842 | Accepts exactly lists of valid, pairwise apart SSIDs, and counts the access points of each radio |
| `Validate.CheckPeers` | crates/portcullis-provision/src/uci.rs:850-878 | Accepts exactly known, distinct, non-self pairs |
| `Validate.ContiguousIff` | crates/portcullis-provision/src/uci.rs:962-969 | The mask test accepts exactly the runs of 1 to 31 high ones |
| `Validate.SubnetInterval` | crates/portcullis-provision/src/uci.rs:715-716 | From network to broadcast address is exactly the set of addresses that agree with the gateway under the mask |
| `Validate.OverlapIff` | crates/portcullis-provision/src/uci.rs:718-723 | The interval test finds every shared address and only those |
| `Validate.HostsDistinct` | crates/portcullis-provision/src/uci.rs:704-817 | In a valid push no gateway or reservation of one SSID is a gateway or reservation of another |
| `Limits.ValidIff` | crates/portcullis-provision/src/uci.rs:557-881 | A state is valid if and only if its timeout is 0 or 15 to 600, its version has at most 128 characters and no control character and, when it has SSIDs, each is within the limits, no two share a slug, a bridge or an address, no radio carries more than 4, and the pairs are distinct and name two different SSIDs |
| `Limits.SsidIff` | crates/portcullis-provision/src/uci.rs:600-842 | One SSID passes if and only if it is within limits stated on its characters, numbers and addresses: slug and reserved names, 32-character name, 4 radios, ciphers and 8 to 63 printable key characters, MAC lists, bridge other than `br-lan`, egress other than `lan`, a host of a subnet with 1 to 31 network bits, port numbers, lease time, targets and leases |
| `Limits.OwnHosts` | crates/portcullis-provision/src/uci.rs:765-817 | In a valid push, inside each SSID: the gateway is a host of its subnet, the static leases' addresses are hosts of that subnet, different from the gateway and from each other, and their MACs are well formed and, in lower case, different from each other |
| `Limits.Ipv4Iff` | crates/portcullis-provision/src/uci.rs:920-936 | A text is read as an address if and only if, without the white space around it, it is four groups of one to three digits up to 255 between dots, and the address is their word, the first group highest |
| `Limits.MacIff` | crates/portcullis-provision/src/uci.rs:540-543 | A text is a MAC if and only if it has 17 characters, every third a colon and the others hexadecimal digits |
| `Validate.BetweenIff` | crates/portcullis-provision/src/uci.rs:785-797 | The test `network < ip < broadcast` accepts exactly the addresses of the subnet whose host bits are neither all zero nor all one |
| `RenderSafe.ValidPushSafeIff` | crates/portcullis-provision/src/uci.rs:557-881 | A valid push renders only names and values the text forms carry if and only if its free text, its addresses as written, its hostnames and its target zones fit between quotes and, without SSIDs, its pairs are made of name characters |
| `RenderSafe.StatePiecesOk` | crates/portcullis-provision/src/uci.rs:575-580 | Beyond those texts, validation makes every section name, list element, radio and number of a rendered batch fit the text forms |
| `RenderSafe.TrimmedAddressEscapes` | crates/portcullis-provision/src/uci.rs:704-709 | A push that validation accepts - an address followed by a newline - whose rendered values do not fit on one line |
| `RenderSafe.UncheckedPairEscapes` | crates/portcullis-provision/src/uci.rs:581-583 | A push without SSIDs whose one pair holds a newline is accepted too, and a rendered value does not fit on one line |
| `Actor.ProvisionActor.HandleSetWireless` | crates/portcullis-provision/src/handle.rs:250-363 | Validate, snapshot, apply, roll back or arm: the new state of router, files and memory is the protocol's step, and the answer is its answer |
| `Actor.ProvisionActor.HandleConfirmWireless` | crates/portcullis-provision/src/handle.rs:367-397 | A confirm of the pending version commits it and writes the gated set; any other puts the pending push back |
| `Actor.ProvisionActor.HandleWatchdogFire` | crates/portcullis-provision/src/handle.rs:401-416 | Takes the pending push, rolls it back, drops its marker and reports the outcome |
| `Actor.ProvisionActor.ReconcileOnStart` | crates/portcullis-provision/src/handle.rs:420-470 | A leftover marker past its deadline is rolled back, one within its window is resumed |
| `Actor.ProvisionActor.Serve` | crates/portcullis-provision/src/handle.rs:196-228 | The actor's loop over any sequence of pushes, confirms, clock looks and crashes reaches the state of the protocol's run |
| `Actor.CollectRadios` | crates/portcullis-provision/src/handle.rs:268-286 | Desired radios, then those of the snapshot, each once, and the default when there is none |
| `Safety.ReloadSetExact` | crates/portcullis-provision/src/handle.rs:268-286 | What a push and its rollback reload is every radio it wants and every radio it takes an SSID away from, each once and no other, and never nothing |
| `Actor.CheckProtectedRadios` | crates/portcullis-provision/src/uci.rs:891-910 | Accepts exactly states with no SSID on a protected radio |
| `Safety.StartInv` | crates/portcullis-provision/src/handle.rs:196-200 | The invariant holds of an actor started on any well-shaped configuration with nothing staged and no marker |
| `Safety.RunInv` | crates/portcullis-provision/src/handle.rs:196-470 | Over every interleaving and every pattern of failures: what is not owned is unchanged, both layers are well shaped, the marker holds exactly the pending push, and the statuses are in order |
| `Runs.UnownedUntouched` | crates/portcullis-provision/src/handle.rs:287-298 | No run ever changes a key outside the owned namespace |
| `Runs.MarkerIffPending` | crates/portcullis-provision/src/handle.rs:318-336 | After every run the marker is there exactly when a push is pending, and reads back as that push |
| `Runs.StatusesPair` | crates/portcullis-provision/src/handle.rs:250-470 | Every `AppliedPending` is followed by exactly one outcome of the same version before the next one |
| `Runs.CommitOnlyOnConfirm` | crates/portcullis-provision/src/handle.rs:367-389 | The committed state changes only by a confirm of the pending version, which changes nothing on the router, or is forgotten in a crash |
| `Runs.CrashIsTick` | crates/portcullis-provision/src/handle.rs:420-470 | A crash and restart inside the window changes nothing but per-SSID rows and memory; past the deadline it does what the watchdog would have done |
| `Runs.CrashTransparent` | crates/portcullis-provision/src/handle.rs:420-470 | A run with crashes anywhere between steps reaches the same router, files, pending push, deadline and outcomes as the run without them |
| `Heal.ParseGatedBridges` | crates/portcullis-provision/src/uci.rs:187-245 | Returns, each once and in order, exactly the bridges some pair of shown lines gives |
| `Heal.NeverLan` | crates/portcullis-provision/src/uci.rs:230-240 | Whatever the shown lines say, the LAN bridge and the empty name are never derived |
| `Heal.ShownScope` | crates/portcullis-provision/src/sm.rs:246-259 | Over a well-shaped store the parser reads off exactly the bridges the store gates |
| `Heal.HealInverts` | crates/portcullis-provision/src/uci.rs:162-245 | Over a router holding a valid push the parser derives exactly the bridges of the gated SSIDs, if and only if no peer pair takes the name of a gated SSID's portal rule |
| `Heal.NoPeerSlug` | crates/portcullis-provision/src/uci.rs:453-455 | A slug that does not start `peer_` is enough for that |
| `Witness.PortalLost` | crates/portcullis-provision/src/uci.rs:453-455 | An accepted push of three SSIDs and one pair that takes the name of a gated SSID's portal rule |
| `Boot.BootScopesAgree` | crates/portcullis-engined/src/compose.rs:127-155 | After a confirmed push a daemon restart and a reboot enforce the same scope, if and only if no pair took the name of a gated SSID's portal rule or they took all and the seed says the same; it is the scope the push gates, unless the push gates nothing and there is a static seed |
| `Boot.CommittedFile` | crates/portcullis-provision/src/sm.rs:229-232 | The gated set written on a confirm is read back exactly |
| `Gate.BuildBase` | crates/portcullis-nft/src/ruleset.rs:142-177 | Pushes the table, sets, chains and rules of the base document, rule by rule |
| `Gate.BuildRescope` | crates/portcullis-nft/src/ruleset.rs:227-237 | Flushes both chains and pushes the same rules again |
| `Gate.NonBlankIs` | crates/portcullis-nft/src/ruleset.rs:142-177 | A scope keeps exactly its interfaces that are more than white space |
| `Gate.BaseApplies` | crates/portcullis-nft/src/ruleset.rs:142-219 | On an empty table the base document leaves exactly the rules of the scope; on an existing one it keeps the sets and appends them |
| `Gate.RescopeRefinesRebuild` | crates/portcullis-nft/src/ruleset.rs:227-237 | A re-scope leaves the very rules a rebuild for the new scope would, and no set touched |
| `Gate.AppendedBaseDecides` | crates/portcullis-nft/src/nftables_json.rs:198-201 | Rules appended for a second scope decide every packet as the two scopes together would; for the same scope, as before |
| `Jumps.BackendsAgree` | crates/portcullis-nft/src/ipset_iptables.rs:195-291 | For every packet, scope and set contents the nft and the iptables chains take the same drop and redirect decisions; a packet is dropped if and only if its ingress is gated and it is not established, authorized or garden-bound |
| `Rescope.SurvivorsStayGated` | crates/portcullis-nft/src/ipset_iptables.rs:356-379 | After every command of a re-scope an interface of both scopes has its one jump at every hook, and its packets are decided as before |
| `Rescope.RescopeExact` | crates/portcullis-nft/src/ipset_iptables.rs:343-379 | A successful re-scope leaves one jump per new interface at every hook of both families and none for the others, and the chains untouched |
| `Rescope.RetryExact` | crates/portcullis-nft/src/writer.rs:210-231 | A failed first attempt and a successful retry end where one successful attempt would have |
| `Rescope.ScopeCovered` | crates/portcullis-nft/src/ipset_iptables.rs:343-379 | However deletes and probes go, a re-scope that reports success from a covered scope leaves every interface of the new one at least one jump at every hook of both families |
| `Rescope.StepAnyJumps` | crates/portcullis-nft/src/ipset_iptables.rs:356-372 | Under any failures one command changes the jumps of one interface at one hook by at most one: a delete that fails removes none, a probe that fails lets a second one in |
| `Rescope.FailedRecordMatches` | crates/portcullis-nft/src/ipset_iptables.rs:373-378 | After a failed re-scope the recorded scope matches the kernel if and only if nothing was to be removed and the first insertion is what failed |
| `Rescope.OldScopeNotRestored` | crates/portcullis-nft/src/ipset_iptables.rs:356-378 | After a failed re-scope, asking for the old scope again succeeds without a command and leaves a removed interface recorded but without a jump |
| `Rescope.FirstBootNoWindow` | crates/portcullis-nft/src/ipset_iptables.rs:205-229 | Wherever filling a chain stops on a slot without jumps, a jump is there only when the chain is complete |
| `Rescope.EnsureChainExact` | crates/portcullis-nft/src/ipset_iptables.rs:195-230 | A completed `ensure_chain` leaves exactly its rules and exactly one jump per interface asked for, and no other slot or interface changed |
| `Rescope.EnsureBaseFills` | crates/portcullis-nft/src/ipset_iptables.rs:236-291 | A completed `ensure_base` over any table fills every chain with exactly its rules, gives every recorded interface its one jump and removes no jump |
| `Rescope.RestartExact` | crates/portcullis-nft/src/ipset_iptables.rs:236-291 | After it the scope is exactly the recorded one if and only if every jump it found names a recorded interface |
| `Rescope.RestoredScopeExact` | crates/portcullis-engined/src/compose.rs:46-155 | A start that adopts the table under the seed and re-scopes to the restored set is exact if and only if every jump it found names an interface of either |
| `Rescope.RestartWindow` | crates/portcullis-nft/src/ipset_iptables.rs:205-215 | On a slot that has jumps nothing is dropped or redirected from the flush until the last rule is appended again |
| `Backends.IpsetBackend.EnsureChain` | crates/portcullis-nft/src/ipset_iptables.rs:195-230 | Create, flush, fill, then jump, stopping at the first failure: the command sequence the theorems are about |
| `Backends.IpsetBackend.EnsureBase` | crates/portcullis-nft/src/ipset_iptables.rs:265-291 | Both chains of both families in order |
| `Backends.IpsetBackend.SetGatedIfaces` | crates/portcullis-nft/src/ipset_iptables.rs:343-379 | Removals, then guarded insertions, then the record: the re-scope the theorems are about, failures included |
| `Backends.NftBackend.SetGatedIfaces` | crates/portcullis-nft/src/nftables_json.rs:216-226 | After a success the chains are those of a rebuild for the recorded scope and the sets are untouched; after a failure nothing changed |
| `Backends.NftBackend.EnsureBase` | crates/portcullis-nft/src/nftables_json.rs:198-201 | On an existing table a success appends the rules of the recorded scope and keeps the sets; a failure changes nothing |
| `Writer.WriterActor.Run` | crates/portcullis-nft/src/writer.rs:152-197 | The owner's loop answers each request and leaves the backend, the attempts and the error counter as the served sequence says; what that holds is `Writer.ServeHolds` |
| `Writer.WriterActor.RetryOnce` | crates/portcullis-nft/src/writer.rs:210-231 | One attempt, one more after a failure, and one count when both failed |
| `Writer.Linearizes` | crates/portcullis-nft/src/writer.rs:152-231 | What the backend holds is the fold, in channel order, of exactly the mutations answered with success, and every refusal is counted once |
| `Writer.EachRequest` | crates/portcullis-nft/src/writer.rs:152-231 | A mutation is refused exactly when two attempts in a row failed, and then changed nothing; a read returns the fold of the answered mutations before it |
| `Writer.ServeHolds` | crates/portcullis-nft/src/writer.rs:152-197 | On requests and replies alone: a MAC is authorized, with a time, if and only if the last answered request about it added it with that time; the scope is the last one answered, without blanks; the garden holds exactly the addresses of the lists answered |
| `Writer.ReadsAnswer` | crates/portcullis-nft/src/writer.rs:152-197 | A list read that is answered holds exactly the MACs, with their times, that the requests answered before it leave authorized; a scope read returns the last scope answered before it |
| `Writer.ScopesFollow` | crates/portcullis-nft/src/writer.rs:175-179 | Over any sequence of iptables re-scopes all answered with success the kernel has exactly the last scope and decides every packet for it |
| `RateLimit.RateLimiter.CheckAt` | crates/portcullis-redirect/src/ratelimit.rs:63-103 | The map and the answer after one call: prune when full, turn a new source away when still full, refill, charge; what the answers amount to is `RateHolds` and `OverRateEarned` |
| `RateLimit.MapBounded` | crates/portcullis-redirect/src/ratelimit.rs:72-89 | Whatever the calls and times, the map never exceeds its cap |
| `RateLimit.BoundedIsUnbounded` | crates/portcullis-redirect/src/ratelimit.rs:63-103 | With time that does not go back the bounded limiter answers as an unbounded one shown the calls not turned away: pruning is invisible |
| `RateLimit.RateHolds` | crates/portcullis-redirect/src/ratelimit.rs:91-102 | Over any window after any history each source is admitted at most `capacity` plus `refill` times the window |
| `RateLimit.OverRateEarned` | crates/portcullis-redirect/src/ratelimit.rs:63-103 | A source is refused only for its own calls: since one of them it was admitted so often that one more would exceed `capacity` plus `refill` times the time |
| `RateLimit.TurnedAwayOnlyFull` | crates/portcullis-redirect/src/ratelimit.rs:72-89 | A source is turned away only while as many others as the cap allows are busy: since some call of theirs admitted more often than their buckets refilled |
| `RateLimit.FallingExact` | crates/portcullis-redirect/src/ratelimit.rs:91-102 | While the clock does not advance, or goes back, nothing is refilled: a source that is not turned away is admitted if and only if its admissions so far leave room for one in the capacity |
| `DeviceMeter.BuildReconcile` | crates/portcullis-nft/src/device_meter.rs:171-186 | Chain, flush, then two counters and two rules per address that is not blank |
| `DeviceMeter.BuildPrune` | crates/portcullis-nft/src/device_meter.rs:197-213 | The deletes of both counters per stale address, or nothing |
| `DeviceMeter.NamesApart` | crates/portcullis-nft/src/device_meter.rs:89-100 | On dotted addresses the counter names tell addresses and directions apart |
| `DeviceMeter.NameIs` | crates/portcullis-nft/src/device_meter.rs:83-100 | A counter's name is its prefix and the address with every character but letters and digits made an underscore |
| `DeviceMeter.NamesClash` | crates/portcullis-nft/src/device_meter.rs:89-93 | Two texts that are not both dotted addresses and share both counters |
| `DeviceMeter.ReconcileApplies` | crates/portcullis-nft/src/device_meter.rs:171-186 | On any table the reconcile document applies and leaves exactly two rules per current address and every existing counter as it was |
| `DeviceMeter.StalePrunable` | crates/portcullis-provision/src/device_obs.rs:197-204 | What a tick prunes is there and no rule refers to it, so the prune document applies |
| `DeviceMeter.PollKeepsTotals` | crates/portcullis-provision/src/device_obs.rs:197-204 | An address that stays keeps both totals; a new one starts at zero |
| `DeviceMeter.RunAgrees` | crates/portcullis-provision/src/device_obs.rs:75-204 | Over any run of polls, restarts and traffic, whichever documents fail to apply, the table is what the books say: two rules per address of the last reconcile that applied, the counters of every address added and not pruned since, each byte of a metered packet counted once and no total reset |
| `DeviceMeter.QuietRunTracks` | crates/portcullis-provision/src/device_obs.rs:75-204 | As long as nothing fails and the daemon runs, exactly the rules and counters of the addresses of the last poll |
| `DeviceMeter.RestartExact` | crates/portcullis-provision/src/device_obs.rs:81-90 | The first poll after a daemon restart leaves the table exact if and only if no address went away meanwhile; it reads none, so if and only if there was none |
| `DeviceMeter.PruneFailsExact` | crates/portcullis-provision/src/device_obs.rs:197-216 | A poll whose prune fails leaves it exact if and only if there was nothing to prune |
| `DeviceMeter.ReconcileFailsExact` | crates/portcullis-provision/src/device_obs.rs:197-216 | A poll whose reconcile fails changes nothing, its prune being refused, and leaves it exact if and only if the addresses are those of the poll before |
| `DeviceMeter.ForgottenLeaks` | crates/portcullis-provision/src/device_obs.rs:81-90 | An address with counters that nothing remembers keeps them through any events, failures included, as long as no poll names it |
| `DeviceMeter.DevicePoller.PollOnce` | crates/portcullis-provision/src/device_obs.rs:112-152 | One tick: the current addresses trimmed, sorted and each once, reconcile, prune, remember, whichever document applies; without a provisioner to read from, remember nothing |
| `Conntrack.ParseLine` | crates/portcullis-accounting/src/conntrack.rs:100-131 | The token loop reads a line as the fold the theorems are about, source counter wrap included |
| `Conntrack.TokensRead` | crates/portcullis-accounting/src/conntrack.rs:107-128 | A token counts as a source when it is `src=` and an address, as bytes when it is `bytes=` and a number of 64 bits, and else not at all |
| `Conntrack.LineExact` | crates/portcullis-accounting/src/conntrack.rs:107-131 | Every line: the client is the last source numbered 1 modulo 256, and bytes count as sent or received by the number of sources before them, modulo 256, capped |
| `Conntrack.MisreadExact` | crates/portcullis-accounting/src/conntrack.rs:112-128 | The bytes are those of the reference if and only if none follows a source numbered 0 or 1 modulo 256 past the first; otherwise exactly those are dropped or counted as sent |
| `Conntrack.FewSourcesFine` | crates/portcullis-accounting/src/conntrack.rs:112-128 | Up to 256 sources the client is the first that parses, and with fewer no byte is misread |
| `Conntrack.SourcesWrap` | crates/portcullis-accounting/src/conntrack.rs:112-123 | After 256 sources the bytes that follow are dropped, and a source that follows replaces the client |
| `Conntrack.ParseConntrack` | crates/portcullis-accounting/src/conntrack.rs:97-142 | Exactly the clients of some line, each with the capped sums over its lines |
| `Conntrack.Snapshot` | crates/portcullis-accounting/src/conntrack.rs:172-208 | Whatever the order of the map: each client gets the capped sums over all lines whose client resolves to it, and an unresolved address contributes nothing |
| `Conntrack.BytesConserved` | crates/portcullis-accounting/src/conntrack.rs:97-208 | For every dump each report is the smaller of the largest counter value and the sum of the bytes as read; when every line is read right, of the bytes the reference attributes to the client |
| `Mac.ParseMac` | crates/portcullis-types/src/lib.rs:68-79 | Accepts exactly six parts that are octets, and returns them |
| `Mac.MacRoundTrip` | crates/portcullis-types/src/lib.rs:48-80 | A printed address splits and parses into its six octets |
| `Mac.MacForms` | crates/portcullis-types/src/lib.rs:68-79 | Every spelling is read - digits of either case, colons and dashes mixed - as the octets it spells |
| `Mac.OctetIff` | crates/portcullis-types/src/lib.rs:68-79 | A part is read as an octet if and only if it is hexadecimal digits, perhaps after one plus sign, for a number below 256 |
| `Mac.MacLength` | crates/portcullis-types/src/lib.rs:48-57 | The canonical form is 17 characters of lowercase hex digits and colons |
| `Sign.StackStr.WriteStr` | crates/portcullis-redirect/src/sign.rs:32-43 | Appends what fits and refuses, unchanged, what does not |
| `Sign.UpdateMessage` | crates/portcullis-redirect/src/sign.rs:52-64 | Both buffers always hold their whole text, so the fed message is the tuple's |
| `Sign.TsLength` | crates/portcullis-redirect/src/sign.rs:47-51 | Every 64-bit time prints in at most 20 characters |
| `Sign.TsFills` | crates/portcullis-redirect/src/sign.rs:47-51 | The smallest 64-bit time needs all 20 |
| `Sign.MessageInjective` | crates/portcullis-redirect/src/sign.rs:45-64 | The message is injective over every address, every store - bars included - and every 64-bit time |
| `Sign.MessageLayout` | crates/portcullis-redirect/src/sign.rs:45-64 | The message is the address, a bar, the store, a bar and the time in decimal digits |
| `Sign.VerifyExact` | crates/portcullis-redirect/src/sign.rs:72-102 | A signature verifies for a tuple exactly when the two messages have the same tag, and so, without a collision, for exactly the tuple it was made for |
| `Sign.VerifiesOnly` | crates/portcullis-redirect/src/sign.rs:72-102 | A signature verifies if and only if, in lower case, it is the text that signing produces |
| `Location.EncodeQueryValue` | crates/portcullis-redirect/src/location.rs:27-39 | The byte loop encodes as the inverse below expects |
| `Location.DecodeEncode` | crates/portcullis-redirect/src/location.rs:27-52 | Percent-encoding is inverted, for every byte string |
| `Location.EncodesByte` | crates/portcullis-redirect/src/location.rs:27-39 | One byte is itself when it is a letter, a digit or one of `-._~`, and else a percent sign and its two upper-case hexadecimal digits |
| `Location.EncodeJoins` | crates/portcullis-redirect/src/location.rs:27-39 | A text is encoded byte by byte |
| `Location.EncodeInert` | crates/portcullis-redirect/src/location.rs:27-52 | Only unreserved characters and percent signs are emitted |
| `Location.LocationReadsBack` | crates/portcullis-redirect/src/location.rs:65-80 | A form reader gets the four values back from the URL, whatever the store and the signature contain |
| `Lexer.StripComment` | crates/portcullis-config/src/lib.rs:439-454 | Keeps the part of the line before its first unquoted `#` |
| `Lexer.Tokenize` | crates/portcullis-config/src/lib.rs:460-501 | The token loop yields the tokens of the scan the theorems are about, or an error for an unterminated quote |
| `Lexer.CommentIsUnquoted` | crates/portcullis-config/src/lib.rs:439-501 | What is kept is exactly the part before the first `#` at which the tokenizer is outside quotes: the two track the same quotes on every prefix |
| `Lexer.LineRoundTrip` | crates/portcullis-config/src/lib.rs:241-249 | Any tokens - quotes, hashes, blanks, empty ones - printed quoted with blanks around and a comment after are read back as they were |
| `Lexer.StyledRoundTrip` | crates/portcullis-config/src/lib.rs:460-501 | However a token is written - bare, in either kind of quotes, in any run of such pieces, with any blanks between tokens - it is read as its pieces joined |
| `Lexer.FromUciStr` | crates/portcullis-config/src/lib.rs:234-317 | The line loop reads a text as the fold of its lines, stopping at the first error, and refuses a text without its section; what a row does is `Lexer.FileMeans` |
| `Lexer.FileRoundTrip` | crates/portcullis-config/src/lib.rs:234-317 | A printed file means what its tokens mean, errors included, whatever the options are and the values contain |
| `Lexer.FileMeans` | crates/portcullis-config/src/lib.rs:234-317 | A printed file, on its rows alone: the garden is the third tokens of its `list garden_fqdn` rows in order, the protected radios those of its `list wireless_protected_radio` rows, the options the fold of its `option` rows, and it is refused if and only if a row has another shape, an option is refused or no row is `config portcullis` |

## Left out

- Command processes, channels, timers, gRPC, TLS, metrics text and log messages: a command is a step that may fail, a channel a sequence, and error messages are not distinguished.
- The session manager and the control channel's dispatch: not part of this model.
- HMAC-SHA256, JSON parsing and the `ubus`/`iwinfo` schemas: opaque functions, documents as datatypes, statuses as sets of radios.
- Monotonic against wall-clock time: one integer clock; the deadline of a resumed push is the marker's.
- Marker and gated-set files are always written and read; a crash falls between steps of the actor, never inside one.
- Snapshot.ParseShowLineOk: values with quote characters, which `uci show` escapes, are not modelled; a key that is not `config.section` or `config.section.option` is dropped by the model where the source would keep its text.
- Uci.ApplyBatchGood: `uci set` with an empty value is modelled as setting the empty text, not as a delete.
- Wireless.RenderSsid: lower-casing is modelled on ASCII letters, all a MAC that validates can contain; integer fields are unbounded naturals, printed in full.
- Verdict.ReloadVerdict: commands are told apart by their place in the sequence, not by their text: which radio a `wifi` command names is not recorded.
- Peering.ForwardsExactly: in a push without SSIDs a pair's text with a dot or an equals sign, which `uci` would read as an option or a value, is modelled as part of the section name.
- Boot.BootScopesAgree: the re-scope at the start is taken to succeed; what a failing one leaves is the subject of `Rescope`.
- Rescope.RescopeExact: the `ipset create` commands before the chains are filled and the auth set's own commands are not part of the command sequence; the sets' contents are a parameter of every packet.
- Writer.Linearizes: the kernel's own expiry of auth elements, a reply lost with a dying actor, and the nft backend's refusal to delete an element that is not there are not modelled; a refusal of any kind is a failing attempt.
- RateLimit.BoundedIsUnbounded: floating-point rounding is not modelled, and a poisoned lock is not.
- DeviceMeter.RunAgrees: over dotted addresses; counters are unbounded; a failed document changes nothing; the report's association rows are left out.
- Conntrack.BytesConserved: neighbour resolution is a given partial map, and a failed dump reports nothing.
- Lexer.FromUciStr: which options exist and how their values parse is a parameter; error texts and line numbers are left out.
- Location.LocationReadsBack: the time is printed, not encoded, as in the source; the portal base is any text.
- Teardown rendering, garden rendering, traffic-control arguments, reaper and deauth commands, configuration diff and validation: short functions that would add only easy members.
