# Verified models of the ALR build and planning tools

ALR runs Linux packages on Android. Its Python tools decide, on the build host, what a device
will do: in which order dpkg configures a closure of packages, which keys an archive is signed by,
which libraries a stage tar has to carry, what the dpkg database says, which apps the launcher
offers, what a child process inherits in `LD_PRELOAD`, and how long a syscall storm takes. This
project models those decision procedures in Dafny and proves what they promise. Code that works
step by step is a method with loops (tars are objects whose member list grows in place), proved
against specification functions; the laws about those functions are lemmas.

| File | Subject |
|---|---|
| `PyText.dfy` | Python's order on str, `sorted`, `split`, `splitlines`, `strip`, `rfind` |
| `ClosureScheduler.dfy` | Kahn's algorithm over the Depends of a package closure |
| `StageGraph.dfy` | the install stages, the search for what is on the path to one, the verdicts |
| `OpenPgp.dfy` | packet headers and the fingerprint walk over a keyring (RFC 4880, sections 4.2 and 12.2) |
| `Keyrings.dfy` | keyring blobs end to end: which ones can be concatenated |
| `IssuerSubpackets.dfy` | the issuers named in a v4 signature (RFC 4880, section 5.2.3) |
| `StageTar.dfy`, `ContentShell.dfy`, `ChromiumGui.dfy` | stage tars: planning, adding and checking libraries |
| `DpkgStatus.dfy` | the printer of the dpkg status file and the reader of the same format |
| `DpkgContents.dfy` | the reader of Contents indexes, the file lists, the attribution of base files |
| `AppId.dfy`, `AppCatalog.dfy` | synthesized app ids and catalogs against the manifest checks |
| `PreloadChain.dfy` | the preload chain of exec'd children |
| `StormModel.dfy` | the two storm cost models |
| `CommentStripper.dfy`, `Histogram.dfy` | two scanners |

## What the code does not promise

Where the code and its description disagree, the model follows the code. Each entry names the
member that shows the failure and the one that gives the condition. The condition is exact, an if and
only if, but for the entry on subpacket lengths, where it is sufficient.

- `complete_closure_via_dpkg` is described as giving a dependency order and reporting cycles. A package
  without dependencies in the closure that is given twice is configured twice
  (`ClosureScheduler.RepeatedLeaf`): the order is the one described if and only if no such package is
  repeated (`ClosureScheduler.RunIsGreedyIff`). It also lowers the in-degrees of its dependents twice,
  so that a cycle can go unreported (`ClosureScheduler.RepeatedLeafHidesCycle`). In general the flag is
  clear if and only if every package is configured and no other package is repeated
  (`ClosureScheduler.ShortIffIncomplete`).
- `build_status` is described as round-tripping. `Package`, `Priority`, `Architecture` and `Version`
  are printed without folding, so a value of several lines in one of them is lost
  (`DpkgStatus.FoldedVersionIsLost`); the round trip holds if and only if those four have one line
  (`DpkgStatus.StatusRoundTrip`).
- `parse_contents` is described with `area/pkg, area/pkg` columns and with the last field split off at
  white space. It splits at the last blank. A blank behind the comma makes it report a path that does
  not exist and the last package (`DpkgContents.BlankSeparatorMisreads`). A line that is separated by a
  tab alone is skipped (`DpkgContents.TabLineIsSkipped`) or, with a blank in its path, gives a shortened
  path (`DpkgContents.TabSeparatorMisreads`). The path is recovered if and only if the white space behind
  it holds a blank and the column holds none and names an area and a package
  (`DpkgContents.PathIsRecoveredIff`).
- `chain_ld_preload` is described as idempotent along a chain of children. It is exactly for a rootfs
  path without `:` and without a leading blank (`PreloadChain.AbsorptionIffClean`); otherwise the
  value grows with every exec (`PreloadChain.UncleanAccumulates`).
- After flattening, the content_shell gate's list loses exactly the libraries with an `$ORIGIN` copy
  if and only if no such library's flat place is taken by something that is not a regular file
  (`ContentShell.FlattenDropsOriginCopies`). With a link in that place nothing is copied and the gate
  keeps the library (`ContentShell.LinkedPlaceIsMissed`).
- The chromium gate is described as listing what no same-stem library can stand in for. It lists more in
  two cases: something that is no library file holds the flat place of a need, or the library's member
  name lacks the leading `./` under which the repacking looks for it. Either way the need is planned and
  its alias is skipped (`ChromiumGui.LinkedPlaceIsMissed`, `ChromiumGui.UnrootedSourceIsMissed`). The gate
  lists no need with a same-stem library if and only if each missing one has a free place and its source
  in the tar (`ChromiumGui.GateAgreesIff`; for one need `ChromiumGui.GateListsNeedIff`), as it has where
  the members in the places of needs are regular files and libraries lie under the tar's root
  (`ChromiumGui.RegularIsOpen`, `ChromiumGui.RootedHasSource`).
- `_origin_needed_to_flatten` is described as leaving out libraries on the flat path of the base or the
  overlay. It looks at the overlay alone, so a library of the base is copied all the same
  (`ContentShell.BaseLibraryIsCopied`); the plan's exact condition is
  `ContentShell.OriginNeededToFlatten`.
- `inrelease_issuer_fprs` reads one-octet subpacket lengths only. Behind a longer one the cursor never
  lands on the next subpacket (`IssuerSubpackets.TwoOctetLengthNeverLands`,
  `IssuerSubpackets.LongLengthIsMisread`), and a signature can hide all its issuers that way
  (`IssuerSubpackets.TwoOctetLengthHidesIssuers`). That every length is one octet is sufficient for the
  issuers to be found (`IssuerSubpackets.SignatureRoundTrip`); it is not necessary, as a longer
  subpacket may be misread without harm when there is no issuer to hide.
- `inrelease_issuer_fprs` compares the type octet as it stands. Bit 7 of that octet marks a subpacket as
  critical (section 5.2.3.1 of RFC 4880), so an issuer marked critical is missed
  (`IssuerSubpackets.CriticalIssuerIsMissed`). With one-octet lengths the answer is all that is named if
  and only if each such issuer is also named without the mark (`IssuerSubpackets.SignatureNamesAllIff`).
- `_pgp_primary_fprs` is used on concatenated keyrings. A packet of indeterminate length, or one that is
  cut short, takes in octets of the next keyring (`Keyrings.IndeterminateLengthSwallows`,
  `Keyrings.TruncatedPacketSwallows`). The result is the union of both results, for every second keyring,
  if and only if the walk over the first one lands on its end or fails at a key too long to hash
  (`Keyrings.BlobConcatenation`).
- The scan in `alarm_window_max_threads_usable` is justified by a comment that every term grows with
  the thread count. The total falls when both lanes have negative costs (`StormModel.NegativeCostsFall`);
  it never falls if and only if the floor or the serial cost per thread is not negative
  (`StormModel.MonotoneInThreadsIff`), and the serial term itself never falls if and only if its cost per
  thread is not negative (`StormModel.SerialIsMonotoneIff`). The early break is right for costs of any
  sign (`StormModel.OvershootPersists`).

## Model

| member | source | states |
|---|---|---|
| ClosureScheduler.CompleteClosureViaDpkg | tools/apt_install_e2e_model.py:595-659 | for every closure: the configure order is its run; `cyclic` means exactly that the run is no permutation of the names, that is, a package is left out or one with dependencies is repeated; everything is installed exactly when it is not set and the target is a member; the unpack order is the sorted names. Where no package without dependencies is repeated, the order is the greedy one, the names left out are exactly those with a path into a cycle, and `cyclic` means a cycle or a repeated name |
| ClosureScheduler.ConfigureOrder | tools/apt_install_e2e_model.py:626-642 | for every closure, repeated names included, the loop over in-degrees, reverse adjacency and the ready list ends with the closure's run: each time the least package that is ready, counting repeated packages twice, until none is; it is the greedy configure order exactly when no package without dependencies is repeated |
| ClosureScheduler.BuildEdges | tools/apt_install_e2e_model.py:626-632 | in-degrees count the intra-closure entries of all packages of a name, with repetition, and the adjacency lists are their exact reverse |
| ClosureScheduler.ZeroDegree | tools/apt_install_e2e_model.py:633 | the first ready list is sorted and holds each name of in-degree zero as often as the closure does |
| ClosureScheduler.ReleaseDependents | tools/apt_install_e2e_model.py:638-641 | each occurrence lowers an in-degree by one, and exactly the packages whose in-degree comes down to zero join the ready list, once each |
| ClosureScheduler.Configure | tools/apt_install_e2e_model.py:636-642 | one round: the in-degrees after the dependents are released, and the sorted ready list with those that became ready |
| ClosureScheduler.RoundIsScheduled | tools/apt_install_e2e_model.py:635-642 | a round keeps what ties in-degrees and ready list to the configured prefix of the run |
| ClosureScheduler.RoundIsWork | tools/apt_install_e2e_model.py:635-642 | a round leaves less to do, whatever the closure |
| ClosureScheduler.RunIsUnique | tools/apt_install_e2e_model.py:635-642 | a closure has one run |
| ClosureScheduler.RunIsLargest | tools/apt_install_e2e_model.py:635-642 | no order in which each package was ready configures anything more, or more often, than the run: what is left out could never be configured |
| ClosureScheduler.RunIsGreedyIff | tools/apt_install_e2e_model.py:602-617 | the run is the greedy configure order, and repeats nothing, exactly when no package without dependencies in the closure is named twice |
| ClosureScheduler.ShortIffIncomplete | tools/apt_install_e2e_model.py:643 | the run is as long as the name list exactly when it is a permutation of it: every package is configured and only packages without dependencies are repeated |
| ClosureScheduler.RepeatedLeafHidesCycle | tools/apt_install_e2e_model.py:633-643 | with a leaf given twice a package that needs itself and the leaf is configured, and no cycle is reported |
| ClosureScheduler.RepeatedLeaf | tools/apt_install_e2e_model.py:633-637 | a closure that gives a package without dependencies twice fails the condition |
| ClosureScheduler.DistinctNamesSuffice | tools/apt_install_e2e_model.py:595-597 | distinct names meet it |
| ClosureScheduler.GreedyIsConfigureOrder | tools/apt_install_e2e_model.py:602-606 | in the greedy order every intra-closure dependency stands before its dependents, and nothing twice |
| ClosureScheduler.GreedyIsLargest | tools/apt_install_e2e_model.py:614-617 | no valid order configures a package that the greedy one leaves out: the partial order is the best one |
| ClosureScheduler.GreedyIsLexLeast | tools/apt_install_e2e_model.py:612-613 | among the valid orders of the same packages the greedy one is lexicographically least |
| ClosureScheduler.GreedyIsUnique | tools/apt_install_e2e_model.py:612-613 | a graph has one greedy order |
| ClosureScheduler.LassoIsNeverConfigured | tools/apt_install_e2e_model.py:613-617 | a package with a path into a cycle is in no valid order |
| ClosureScheduler.StuckReachesCycle | tools/apt_install_e2e_model.py:635-643 | when nothing is ready, every package left has a path into a cycle |
| ClosureScheduler.MissingIffReachesCycle | tools/apt_install_e2e_model.py:635-643 | a package misses from the order exactly when it reaches a cycle |
| ClosureScheduler.ShortIffCyclic | tools/apt_install_e2e_model.py:643 | the order is shorter than the name list exactly when the graph has a cycle |
| ClosureScheduler.OrderIsIndependentOfPresentation | tools/apt_install_e2e_model.py:618-643 | permuting the packages or their dependency lists, repeating entries or adding dependencies outside the closure changes nothing in the order |
| ClosureScheduler.AcyclicOrder | tools/apt_install_e2e_model.py:607-613 | on an acyclic closure the order holds each name once, respects the dependencies and is the least such order |
| StageGraph.StagesOnPathTo | tools/apt_install_e2e_model.py:485-500 | for any stage list, cyclic or not, the stack search ends and returns exactly the reflexive transitive dependency set; it fails with a missing key exactly when a reachable id names no stage; an unknown target gives the empty set |
| StageGraph.ById | tools/apt_install_e2e_model.py:489 | the id table holds the last stage of each id |
| StageGraph.ClosedSetIsComplete | tools/apt_install_e2e_model.py:493-500 | a set closed under dependencies that holds the target holds everything reachable from it |
| StageGraph.BuildChain | tools/apt_install_e2e_model.py:173-377 | for every profile and entry the stages form one chain, each depending on the one before it and ending in the database update, with exactly the profile's G1 and G2 stages |
| StageGraph.RequiresG1 | tools/apt_install_e2e_model.py:516-518 | on any stage list and for any marker the intersection with the G1 ids is non-empty exactly when a dependency path from the marker meets a G1 stage, and the key is missing exactly when a path from a listed marker leads out of the list |
| StageGraph.IdsWithSplit | tools/apt_install_e2e_model.py:511-515 | the lists for two groups of gates without a common one make up the list for both |
| StageGraph.LinearReaches | tools/apt_install_e2e_model.py:485-500 | in a chain exactly the earlier stages and the stage itself are on the path to a stage |
| StageGraph.EveryStageIsOnPath | tools/apt_install_e2e_model.py:367-377 | every stage of a chain is on the path to its last one |
| StageGraph.G1OnPath | tools/apt_install_e2e_model.py:516-529 | a marker from `dpkg_unpacked` on has a G1 stage on its path exactly when the profile has any |
| StageGraph.Decide | tools/apt_install_e2e_model.py:503-531 | the stages are the profile's chain; the G1 and G2 lists are the profile's, in chain order, and with the pure ones make up all stages, as do the host-provable and the pending ones, and those pending are the G1 stages; both verdicts mean that a path meets a G1 stage; they agree; they hold exactly for an apt entry, compressed data or maintainer scripts; the count of G1 stages follows the profile |
| OpenPgp.HeaderRoundTrip | tools/build_apt_mirror_overlay.py:1657-1683 | a header written in any definite-length form, old or new, is read back with its tag, size and body length, whatever follows |
| OpenPgp.PgpPrimaryFprs | tools/build_apt_mirror_overlay.py:1648-1689 | the index loop computes the recursive walk, for every blob, errors included, and ends |
| OpenPgp.WalkPackets | tools/build_apt_mirror_overlay.py:1655-1688 | the loop's result is the walk from the blob's start |
| OpenPgp.WalkPacket | tools/build_apt_mirror_overlay.py:1656-1688 | one iteration stops with the walk's result or moves the index on and leaves the walk's result unchanged |
| OpenPgp.HeaderAt | tools/build_apt_mirror_overlay.py:1657-1683 | the header at an index is the header of the blob from there on |
| OpenPgp.WalkOnePacket | tools/build_apt_mirror_overlay.py:1684-1688 | over one encoded packet the walk takes its fingerprint exactly when it is a v4 tag-6 body, and goes on behind it |
| OpenPgp.WalkYieldsFingerprints | tools/build_apt_mirror_overlay.py:1648-1689 | over any encoded packets the walk yields exactly the fingerprints of the v4 tag-6 bodies, or the packing error exactly when one of them is too long for two octets |
| OpenPgp.KeyringConcatenation | tools/build_apt_mirror_overlay.py:292-297 | the fingerprints of two concatenated keyrings are the union of theirs |
| Keyrings.BlobConcatenation | tools/build_apt_mirror_overlay.py:1648-1689 | whatever the blobs, errors included: behind the first blob the walk gives both results together, for every second blob, if and only if the first is packet after complete definite-length packet up to its end or up to a key too long to hash |
| Keyrings.ConcatenationFails | tools/build_apt_mirror_overlay.py:1655-1688 | for every other blob there is a second one that breaks the law: a header cut short, a packet cut short or without a length, or octets that start no packet |
| Keyrings.EncodedLandsOnEnd | tools/build_apt_mirror_overlay.py:1655-1688 | encoded packets meet that condition |
| Keyrings.SwallowsMore | tools/build_apt_mirror_overlay.py:1682-1688 | the body of an incomplete packet grows by octets of what follows |
| Keyrings.IndeterminateLengthSwallows | tools/build_apt_mirror_overlay.py:1682-1683 | an old-format packet of any tag without a length hides all packets behind it |
| Keyrings.TruncatedPacketSwallows | tools/build_apt_mirror_overlay.py:1684-1688 | a packet that lacks octets hides as many of them behind it |
| IssuerSubpackets.InReleaseIssuerFprs | tools/build_apt_mirror_overlay.py:1018-1062 | from the decoded signature on, the loops compute the issuers of both areas, errors included |
| IssuerSubpackets.ReadAreas | tools/build_apt_mirror_overlay.py:1045-1062 | the two passes compute the scan of both areas |
| IssuerSubpackets.ReadArea | tools/build_apt_mirror_overlay.py:1051-1061 | the inner loop collects the area's issuers and leaves the cursor where the area's scan ends |
| IssuerSubpackets.PlaceBody | tools/build_apt_mirror_overlay.py:1020-1040 | the offset and length of the signature's body, with the index and unpacking errors |
| IssuerSubpackets.HexIsInjective | tools/build_apt_mirror_overlay.py:1058-1060 | different key ids and fingerprints have different texts |
| IssuerSubpackets.AreaRoundTrip | tools/build_apt_mirror_overlay.py:1050-1061 | over an area of one-octet-length subpackets the scan yields exactly their issuers and the cursor lands on the area's end |
| IssuerSubpackets.BodyRoundTrip | tools/build_apt_mirror_overlay.py:1043-1062 | over a v4 body the result is the union of the issuers of the hashed and the unhashed area |
| IssuerSubpackets.SignatureHeaderRoundTrip | tools/build_apt_mirror_overlay.py:1020-1041 | the second header parser of the file places the body as encoded, in both formats |
| IssuerSubpackets.SignatureRoundTrip | tools/build_apt_mirror_overlay.py:1018-1062 | the issuers of an encoded v4 signature packet are exactly the 8-octet key ids of type 16 and the fingerprints of type 33 of both areas |
| IssuerSubpackets.CriticalIssuerIsMissed | tools/build_apt_mirror_overlay.py:1057-1060 | the reader sees what a subpacket names exactly unless it is an issuer marked critical |
| IssuerSubpackets.SignatureNamesAllIff | tools/build_apt_mirror_overlay.py:1018-1062 | an encoded v4 signature packet gives all that its areas name, marks aside, exactly when each issuer marked critical is named without the mark as well |
| IssuerSubpackets.LongLengthIsMisread | tools/build_apt_mirror_overlay.py:1051-1061 | behind any one-octet subpackets a first length octet of 192 or more is taken for the whole length, and the scan goes on behind the octets misread |
| IssuerSubpackets.TwoOctetLengthNeverLands | tools/build_apt_mirror_overlay.py:1052-1061 | behind a two-octet length the cursor is never where the subpacket ends |
| IssuerSubpackets.TwoOctetLengthHidesIssuers | tools/build_apt_mirror_overlay.py:1018-1062 | a signature whose hashed area starts with a 192-octet subpacket ending in zero names no issuer, whatever else its areas hold |
| IssuerSubpackets.HiddenIssuer | tools/build_apt_mirror_overlay.py:1051-1061 | such an area does name an issuer when its lengths are read as section 5.2.3.1 of RFC 4880 writes them |
| StageTar.Tar.AddBytes | tools/build_chromium_gui_stage.py:225-231 | a regular member under the tar's root is appended |
| StageTar.PathNameOfRooted | tools/build_chromium_gui_stage.py:411 | the leading `./` of a member name does not change its last part |
| StageTar.StoredAt | tools/build_content_shell_stage.py:295-300 | a file stored directly in a directory is found there, under its name, and in no other directory |
| StageTar.FilterOfSort | tools/build_content_shell_stage.py:373-374 | dropping elements and sorting commute |
| ContentShell.FlatLibBasenames | tools/build_content_shell_stage.py:283-301 | the names of the regular files lying directly in a flat library directory |
| ContentShell.OriginFiles | tools/build_content_shell_stage.py:317-322 | whatever the order of the member set, a table of the names next to the entrypoint |
| ContentShell.OriginNeededToFlatten | tools/build_content_shell_stage.py:304-330 | the plan names exactly the needed libraries that are not the loader, not on the flat path and have a copy next to the entrypoint, each with the path of such a copy |
| ContentShell.FlattenOriginNeeded | tools/build_content_shell_stage.py:333-356 | appends in name order the bytes of each planned copy whose flat place is free, returns those names, and fails without touching the tar exactly when one of the copies cannot be read |
| ContentShell.FlattenThenGate | tools/build_content_shell_stage.py:304-374 | after flattening with the plan the unsatisfied list is the old list without the copied libraries, order and repetitions kept |
| ContentShell.FlattenDropsOriginCopies | tools/build_content_shell_stage.py:333-374 | that is the old list without exactly the libraries that have an `$ORIGIN` copy if and only if no such missing library's flat place was taken |
| ContentShell.LinkedPlaceIsMissed | tools/build_content_shell_stage.py:341-346 | with a link in the place of a needed library nothing is copied, and the list keeps the library although it has an `$ORIGIN` copy |
| ContentShell.ReplanAddsNothing | tools/build_content_shell_stage.py:336-346 | planning again asks only for libraries whose place was taken, and flattening again changes nothing |
| ContentShell.FlattenOnlyAdds | tools/build_content_shell_stage.py:349-356 | no member is lost, moved or changed; one regular file follows for each copied library, with its copy's bytes |
| ContentShell.BaseLibraryIsCopied | tools/build_content_shell_stage.py:311-316 | a needed library that the base provides on the flat path, and so is not missing, is copied all the same |
| ContentShell.RegularCopiesAreReadable | tools/build_content_shell_stage.py:349-352 | with regular members under the tar's root next to the entrypoint, flattening never fails |
| ChromiumGui.OverlayRealLibs | tools/build_chromium_gui_stage.py:415-426 | the name-to-path dict of the regular files directly in the flat directory, in insertion order |
| ChromiumGui.RealsOf | tools/build_chromium_gui_stage.py:415-426 | a name is a key exactly when such a file goes by it |
| ChromiumGui.IndexByStem | tools/build_chromium_gui_stage.py:279-285 | the candidate lists by stem |
| ChromiumGui.PickSource | tools/build_chromium_gui_stage.py:291-299 | sorting a stem's list in place and taking the last gives the alias source, also when the list was sorted for an earlier need |
| ChromiumGui.CompatAliasPlan | tools/build_chromium_gui_stage.py:246-300 | the plan names exactly the needs without an exact provider for which the overlay has a library of the same stem, each with that source's path |
| ChromiumGui.SortIsByVersion | tools/build_chromium_gui_stage.py:298 | the stable sort orders by version and keeps all candidates |
| ChromiumGui.SourceIsHighest | tools/build_chromium_gui_stage.py:294-299 | a source exists exactly when some library has the need's stem, and none of that stem has a higher version |
| ChromiumGui.FindPulse | tools/build_chromium_gui_stage.py:361-365 | some libpulsecommon member, and none exactly when there is none |
| ChromiumGui.CopyMembers | tools/build_chromium_gui_stage.py:351-358 | the new tar holds the source's members, in order |
| ChromiumGui.AddPulse | tools/build_chromium_gui_stage.py:360-373 | the flat copy of libpulsecommon is appended unless its place is taken; it fails exactly when the place is free and the member cannot be read |
| ChromiumGui.AddNss | tools/build_chromium_gui_stage.py:375-384 | each plugin is appended flat and nested, in name order, where the place is free; reported are exactly the modules with a free place |
| ChromiumGui.AddAliases | tools/build_chromium_gui_stage.py:386-397 | each alias whose place is free and whose source is in the tar is appended with the source's bytes; reported are exactly those |
| ChromiumGui.AddedAreReported | tools/build_chromium_gui_stage.py:387-397 | the added members are the reported aliases, one for one and in order |
| ChromiumGui.RepackWithAddons | tools/build_chromium_gui_stage.py:328-399 | the produced tar is the source's members and the three groups of additions, and the report lists them sorted; it fails exactly when a source to be read cannot be |
| ChromiumGui.OriginalsStay | tools/build_chromium_gui_stage.py:351-358 | the original members are kept in order, and every original name and the entrypoint still read the same |
| ChromiumGui.AllAreAddons | tools/build_chromium_gui_stage.py:360-397 | every addition is a regular file at the place of a plugin, an alias or libpulsecommon that was free in the source (a plugin and an alias of one name may both be added) |
| ChromiumGui.AliasHoldsHighest | tools/build_chromium_gui_stage.py:294-299 | an added alias holds the bytes of a library of the need's stem than which none on the flat path has a higher version |
| ChromiumGui.LibBasenames | tools/build_chromium_gui_stage.py:405-412 | the last parts of all regular files of a tar |
| ChromiumGui.PlanAliasesFor | tools/build_chromium_gui_stage.py:444-451 | the plan for the entrypoint's needs against the base and the overlay |
| ChromiumGui.PlannedIsLacking | tools/build_chromium_gui_stage.py:270-273 | a need is planned exactly when it is needed, neither the base nor the flat path provides it, and the flat path has its stem |
| ChromiumGui.GateListsGenuineMisses | tools/build_chromium_gui_stage.py:454-463 | what the gate lists after repacking with the plan has a same-stem library on the flat path only if something that is no library held its place or that library is not found in the tar, and its stem stays what it was |
| ChromiumGui.GateAfterRepack | tools/build_chromium_gui_stage.py:328-463 | the gate lists a need after repacking exactly when it listed it before and no addition brings it, whatever holds its place |
| ChromiumGui.GateListsNeedIff | tools/build_chromium_gui_stage.py:386-463 | apart from names the plugins or libpulsecommon bring, that is when it listed it before, unless its place was free and the same-stem library picked for it is in the tar |
| ChromiumGui.GateAgreesIff | tools/build_chromium_gui_stage.py:328-463 | no need with a same-stem library is listed if and only if each missing one of them has a free place and its source in the tar |
| ChromiumGui.LinkedPlaceIsMissed | tools/build_chromium_gui_stage.py:388-393 | with a link in the place of a need the plan names it, nothing is added, and the gate lists it although a library of its stem is there |
| ChromiumGui.UnrootedSourceIsMissed | tools/build_chromium_gui_stage.py:391-393 | with a library whose member name lacks the leading `./` the need is planned, nothing is added, and the gate lists it although a library of its stem is there |
| ChromiumGui.RegularIsOpen | tools/build_chromium_gui_stage.py:415-426 | where only regular files have a need's flat name, its place is free or holds a library |
| ChromiumGui.RootedHasSource | tools/build_chromium_gui_stage.py:391-395 | where libraries lie under the tar's root every need with a same-stem library has its source in the tar |
| ChromiumGui.RepackAgainIff | tools/build_chromium_gui_stage.py:361-397 | planning for the produced tar and repacking it adds nothing, whichever libpulsecommon is found, if and only if the flat place of each readable one was taken or is filled by an addition |
| ChromiumGui.RepackAgainAddsNothing | tools/build_chromium_gui_stage.py:361-397 | so it is where all libpulsecommon members share their last part |
| ChromiumGui.RegularTarsRepack | tools/build_chromium_gui_stage.py:369-395 | with regular libraries under the tar's root the repacking never fails |
| DpkgStatus.ParsedIsCanonical | tools/deb_closure.py:62-111 | whatever the text, the reader returns stanzas under their own non-empty name with values of stripped visible lines |
| DpkgStatus.ReadIndented | tools/deb_closure.py:98-110 | a field whose value is folded by one blank is read back as that value, whatever follows |
| DpkgStatus.RenderIsIndent | tools/build_dpkg_db.py:295-307 | rendering a field indents each line of its value behind the first by one blank |
| DpkgStatus.ReadOuts | tools/build_dpkg_db.py:275-290 | a stanza's printed fields are read back one after the other, the last value of a key winning |
| DpkgStatus.StoredAttests | tools/build_dpkg_db.py:275-289 | what a stanza's printed fields stand for: the name, the fixed status, the architecture or its default, and unchanged every known field that is not empty; nothing else |
| DpkgStatus.ReadAnyStatus | tools/build_dpkg_db.py:271-292 | whatever the values, no field printed without folding is read back with several lines |
| DpkgStatus.StatusRoundTrip | tools/build_dpkg_db.py:261-307 | for every index the reader can return, reading the printed status file gives the wanted packages of the index, each with exactly its fields, if and only if the four fields printed without folding have one line |
| DpkgStatus.FoldedVersionIsLost | tools/build_dpkg_db.py:282-284 | every folded version that the reader takes whole is lost by printing and reading |
| DpkgStatus.DpkgIsLayout | tools/build_dpkg_db.py:244-258 | the eighteen field names are distinct and are read as they stand |
| DpkgStatus.StanzaLines | tools/build_dpkg_db.py:275-289 | the line list of a stanza, optional fields left out when empty |
| DpkgStatus.BuildStatus | tools/build_dpkg_db.py:261-292 | the loops produce the stanzas of the names in both sets, sorted, each followed by a blank line |
| DpkgContents.ParseContents | tools/build_dpkg_db.py:119-162 | the loop produces the dict of the first claims, in order of first appearance |
| DpkgContents.PathIsRecoveredIff | tools/build_dpkg_db.py:141-161 | for any white space between the columns, a line's path is recovered exactly when that white space holds a blank and its package column holds none and names an area and a package |
| DpkgContents.BlankSeparatorMisreads | tools/build_dpkg_db.py:122-127 | with white space that holds a blank behind the comma the line gives a longer path and the last package |
| DpkgContents.TabLineIsSkipped | tools/build_dpkg_db.py:141-144 | a line without any blank is skipped, whatever other white space separates its columns |
| DpkgContents.TabSeparatorMisreads | tools/build_dpkg_db.py:141-161 | where the last blank is inside the path and a tab behind it, the line gives the part of the path in front of that blank |
| DpkgContents.ContentsRoundTrip | tools/build_dpkg_db.py:136-162 | from any printed index, notes between the lines, blanks in the paths and any white space with a blank between the columns included, each path gets the first package of its first line, and nothing else gets one |
| DpkgContents.ParsedIsBareDict | tools/build_dpkg_db.py:155-162 | whatever the text, keys are distinct one-line paths without a leading slash and packages have a name |
| DpkgContents.BuildInfoLists | tools/build_dpkg_db.py:310-325 | one body for each wanted package: its rooted paths, sorted, a line each |
| DpkgContents.InfoListsPartition | tools/build_dpkg_db.py:317-325 | a body splits into its sorted lines, and a path stands once in its package's list and in no other |
| DpkgContents.SonameMap | tools/build_dpkg_db.py:205-209 | each soname goes to the package of its first path |
| DpkgContents.InstalledPackages | tools/build_dpkg_db.py:189-234 | mapped and unmapped files add up to all files, mapped counts the attributed ones, and the packages are exactly those some file is attributed to |
| DpkgContents.UnmappedIff | tools/build_dpkg_db.py:215-227 | a file stays unmapped exactly when Contents lists none of its spellings and no library of its soname |
| DpkgContents.OneTwin | tools/deb_closure.py:331-345 | a path under a merged directory and its other spelling are each other's only alias |
| DpkgContents.MergedUsrAgrees | tools/build_dpkg_db.py:215-224 | both spellings go to the same package exactly unless Contents lists both with different packages |
| AppId.LabelIff | tools/alr_manifest.py:45-49 | the recursive matcher of one label accepts exactly the words of segments that start with a letter |
| AppId.AppIdIff | tools/alr_manifest.py:45-49 | the matcher of the whole expression accepts exactly two or more such labels joined by dots |
| AppId.SanitizeAppIdLabel | tools/apt_catalog.py:351-365 | the step-by-step rewriting always ends in a label |
| AppId.AppIdMatches | tools/apt_catalog.py:368-370 | for every string the synthesized app id is matched by the manifest's expression |
| AppId.SanitizeFixesLabels | tools/apt_catalog.py:351-365 | rewriting leaves exactly the labels alone, and rewriting twice is rewriting once |
| AppCatalog.CheckPermissions | tools/alr_manifest.py:293-302 | the loop accepts exactly the lists of known permissions without repetition |
| AppCatalog.NewManifest | tools/alr_manifest.py:274-313 | a manifest of parts already built is accepted exactly when it meets every check, and is kept as it is |
| AppCatalog.NewCatalog | tools/alr_manifest.py:334-341 | a catalog is accepted exactly when its app ids are distinct |
| AppCatalog.AcceptedIffCataloguable | tools/apt_catalog.py:373-419 | with the default arguments the manifest of a package passes all checks exactly when its name is not blank and has no `..` part and its size is not negative |
| AppCatalog.CheckedIffAccepted | tools/apt_catalog.py:373-419 | with any arguments it passes the checks of its constructor and of its parts exactly when name and description are visible, the size is not negative, the target is absolute without `..`, the stage tar if any is a bare `.tar` name, and the runtime floor is a version: the app id, the category and the rest never fail |
| AppCatalog.ManifestFromPackage | tools/apt_catalog.py:373-419 | the manifest or the error, by that condition, for any entry path, arguments, stage tar and runtime floor |
| AppCatalog.ListApps | tools/apt_catalog.py:447-463 | the loop keeps the first item of each id, and every item is kept or shares its id with an earlier kept one |
| AppCatalog.BuildCatalogFromIndex | tools/apt_catalog.py:422-463 | no check is tripped exactly when every selected package meets that condition; then the apps are selected packages by increasing name with distinct ids, and each selected package is listed or shares its id with a smaller listed name |
| AppCatalog.CatalogFromListing | tools/apt_catalog.py:447-463 | what the kept items make as a catalog |
| AppCatalog.DebianNameIsCataloguable | tools/alr_manifest.py:350-352 | a Debian package name and a size that is not negative meet the condition |
| AppCatalog.DebianIndexIsAccepted | tools/apt_catalog.py:422-463 | for an index of Debian names and such sizes no check is ever tripped |
| PreloadChain.ChainLdPreload | tools/aptdrain_env_model.py:109-153 | the value printed from the merged entries |
| PreloadChain.MergeGuests | tools/aptdrain_env_model.py:136-151 | the loop over the guest entries keeps, behind the shims, the first occurrence of each entry that is no shim and not blank |
| PreloadChain.KeepFirstOccurrences | tools/aptdrain_env_model.py:141-151 | the kept guests are distinct, none is lost but the skipped ones, and they stand in the order of their first occurrences |
| PreloadChain.ParsePrint | tools/aptdrain_env_model.py:146-153 | printing entries without colons and outer blanks and parsing them gives them back |
| PreloadChain.Absorption | tools/aptdrain_env_model.py:124-127 | for a clean rootfs path, chaining onto a chained value is chaining onto the original one, whatever the two flags |
| PreloadChain.AbsorptionIffClean | tools/aptdrain_env_model.py:100-153 | the law holds for all values and flags exactly when the rootfs path is clean |
| PreloadChain.UncleanAccumulates | tools/aptdrain_env_model.py:141-153 | otherwise a second exec makes the value longer |
| PreloadChain.ExecChainCollapses | tools/aptdrain_env_model.py:124-127 | over any number of execs only the last flag counts |
| PreloadChain.ChainLayout | tools/aptdrain_env_model.py:120-130 | the interpose entry occurs exactly once, the fakeroot one is first exactly when asked for and absent otherwise, and the guests follow |
| StormModel.FloorIsPriced | bench/storm_microbench_model.py:261-273 | the single-stream pricer accepts the floor's arguments and gives the per-core floor |
| StormModel.TwoLanes | bench/storm_microbench_model.py:275-302 | the total is the larger of the floor and the thread count times a cost per thread |
| StormModel.EstimateParts | bench/storm_microbench_model.py:240-315 | an estimate exists exactly for valid inputs; traps and absorbed traps are together at most the syscalls, the floor is the per-core one, and the total is the larger of the floor and the serial lane with its bring-up |
| StormModel.EstimatePrices | bench/storm_microbench_model.py:261-288 | bring-up is charged for each thread; path traps cost a ptrace round-trip each under current_ret_trace and user_notif, absorbed ones a notif round-trip each under user_notif, and nothing does under the other two |
| StormModel.MonotoneInThreadsIff | bench/storm_microbench_model.py:430-431 | the total never falls with the thread count if and only if the floor or the serial cost per thread is not negative |
| StormModel.SerialIsMonotoneIff | bench/storm_microbench_model.py:430-431 | the serial term never falls if and only if its cost per thread is not negative |
| StormModel.MonotoneInThreads | bench/storm_microbench_model.py:430-431 | with costs that are not negative the total never falls |
| StormModel.NegativeCostsFall | bench/storm_microbench_model.py:430-431 | with negative dispatch and round-trip costs one thread costs less than none |
| StormModel.OvershootPersists | bench/storm_microbench_model.py:450-453 | once a thread count misses the window every larger one does, whatever the sign of the costs |
| StormModel.AlarmWindowMaxThreadsUsable | bench/storm_microbench_model.py:418-454 | the scan with the early break returns the largest thread count under the window, which is the closed form; the errors and the zero of an empty window included |
| StormModel.ClosedFormIsLargest | bench/storm_microbench_model.py:428-434 | the largest fitting thread count is 0 when the floor misses the window, else the cap or the quotient of window and cost per thread, rounded up, less one |
| StormModel.ModelsAgree | bench/storm_cost_model.py:160-214 | with one thread the single-stream model accepts the truncated trap count, and the two-lane total is at least half its price, for costs of any sign; it is at most its price and the bring-up exactly when neither lane is negative |
| StormModel.ModelsAgreeForCosts | bench/storm_cost_model.py:160-214 | with costs that are not negative both bounds hold |
| CommentStripper.StripCComments | tools/build_fakeroot_overlay.py:125-142 | the index loop computes the character-at-a-time automaton on every string |
| CommentStripper.RunHasNoOpener | tools/build_fakeroot_overlay.py:125-142 | the output holds neither comment opener |
| CommentStripper.IdentityIffNoOpener | tools/build_fakeroot_overlay.py:125-142 | the input is unchanged exactly when it holds no opener, and stripping twice is stripping once |
| Histogram.ParseHistPairs | bench/report_parse.py:152-163 | the loop tallies the matches, in order of first appearance |
| Histogram.FindAllConcat | bench/report_parse.py:145 | the matches of two texts with a blank between are the matches of each |
| Histogram.TallySums | bench/report_parse.py:159-162 | each number's tally is the sum of its counts |
| Histogram.ScanConcat | bench/report_parse.py:152-163 | scanning two histograms with a blank between is the sum of the two scans |
| Histogram.FindPrinted | bench/report_parse.py:145 | printing pairs and finding them gives them back |
| Histogram.ScanPrinted | bench/report_parse.py:152-163 | printing a histogram and scanning it gives it back, order included |
| Histogram.TrapsAreConserved | bench/syscall_mix.py:100-114 | path and non-path traps of a scanned text add up to all printed counts, each on its side |

## Left out

Inputs and outputs:

- Network, subprocesses, archives on disk and `.deb` extraction: tars are member sequences, texts are parameters.
- The base64 and armor steps of the two OpenPGP readers; SHA-1 is a parameter, any function on octets.
- `read_elf_dynamic` and `parse_solib` are parameters, any functions; in `ChromiumGui` the plugins and libpulsecommon are asked not to parse as versioned libraries.
- ContentShell.FlattenOriginNeeded: links are not resolved by the model; a member that is no regular file carries the bytes it is read as, or none, and keeps them when members are added. All failures to read are one error.
- ChromiumGui.RepackWithAddons: likewise.
- The DT_NEEDED list is any function of the entrypoint's member.
- Tar modes, times and sizes.
- `_base_real_files`: the list of base files is a parameter.

Simplifications:

- ClosureScheduler.CompleteClosureViaDpkg: the note text is left out.
- StageGraph.BuildChain: titles, actions and notes of the stages are left out, and so is the gate G3, which no stage has.
- ContentShell.OriginFiles: the iteration over the member set is an arbitrary choice, so the statements hold for every order.
- ChromiumGui.FindPulse: likewise, any libpulsecommon member may be the one found.
- DpkgStatus.ParsedIsCanonical: the reader's passes over lines, stanzas and fields are one function over the text; the dict of an index has no order.
- IssuerSubpackets.SignatureRoundTrip: one-octet lengths are a sufficient condition, not a necessary one.
- StormModel.TwoLanes: exact reals stand for floats, so rounding is left out; `Share` is `int()` on operands that are not negative.
- Histogram.ParseHistPairs: the Unicode table of decimal digits is a parameter that holds the ten of ASCII.
- AppCatalog.NewManifest: the closed vocabularies (categories, permissions, the section table), `str.lower` and integer parsing are parameters; entry, dependency and display kinds are datatypes.
- The type tests (`isinstance`) of the manifest classes: the model's types make them true.

Not modelled, because one branch reading settles them:

- `decide_drain_env`, `decide_drain_gate` and `resolve` of the drain model, `split_traps_by_path` and the rendering of the cost tables.
- `resolve_closure` and the Depends parser: the model starts from given closures and indexes.
- Stage-tar conformance checks, mirror and policy constants, command lines, reports and self-checks of all tools.
