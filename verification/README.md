# Verified cores of the privileged VPN helper

The helper is the part of the VPN client that runs with administrator rights. This project models its decision-making
cores in Dafny, with the operating system reduced to an abstract state that loads, transactions and calls may or may not
change, and proves what the cores are for. `dafny verify dfyconfig.toml` checks everything.

| Core | Modules |
|---|---|
| OpenVPN config filter | `OvpnDirectives`, `OvpnFilter`, `OvpnWritten`, `OvpnReader`, `OvpnStability`, `OvpnGuarantee` |
| macOS pf controller | `PfRules`, `PfTunnel`, `PfText`, `PfStates`, `PfState`, `PfController`, `PfSync`, `PfDns` |
| Linux nftables controller | `Nft`, `NftText`, `NftState`, `NftRun`, `NftVerdict`, `NftController` |
| OpenPGP key reader | `PgpPackets`, `PgpKey`, `PgpArmor`, `PgpDearmor`, `PgpFraming` |
| Windows WFP sublayers | `Wfp`, `WfpCalls`, `WfpOrder`, `WfpVerdict`, `Ipv6Run`, `Ipv6Verdict`, `Ipv6Failures`, `Ipv6Firewalls`, `MainRun`, `MainVerdict`, `MainInv`, `MainFirewalls`, `WfpSystem` |
| Command stream | `IpcFrames` |
| Process list | `Processes` |
| Hosts file | `HostsFile`, `HostsUndo` |

`Text` holds the strings, lines and decimal numbers they share.

**OpenVPN config filter.** The filter and OpenVPN are two parsers of one text. The filter's walk is simulated against a
model of OpenVPN's reader, which opens a block on a lone tag, closes it on the case-exact prefix of its closer, and
fills a 4096-byte buffer. On every accepted config the reader never meets a line at the top level that the filter would
not allow there, unless the pre-scan found the raw lines balanced while the walk, which works on trimmed lines, meets a
closer outside a block; a concrete config shows the guarantee failing then. Filtering is idempotent exactly when the two
views agree on balance or the disagreement does no harm, and balanced blocks come through line for line. The two views
differ only because the pre-scan skips spaces and tabs where the walk trims carriage returns too, so both guarantees
hold whenever carriage returns stand only before newlines. What is let through is stated on the reader's words alone:
which names, how many words, which literals; and everything of that form is kept. The one exception is a carriage return
inside a line, behind which the check for a bare directive does not look.

**macOS pf controller.** The controller reloads only the tables and anchors whose cached text changed. In every run it
agrees with a full rebuild, including after adopting a ruleset an earlier process left behind; agreement after one
update holds exactly when the pieces left alone were in step before. Retrying an intent under the same live state
repairs a failed push; for any other next push the exact condition is given, and falling back to the previous intent is
shown to leave a stale table. First-match evaluation of the three anchors is proved equal to closed forms, with the
sender's group in the packet, and the text of every rule reads back as the rule. On top of a state table the `no state`
passes are shown to leave nothing behind when Allow LAN goes off, and over runs the VPN resolver table follows the list.

**Linux nftables controller.** Transactions are atomic command lists over chains that jump to each other, with deletes
refused while a chain was referenced at any time in the transaction. The IPC thread's two-transaction teardown is
interleaved with applies from the resolver thread and with other users of the table. No jump ever dangles, the teardown
is never refused for a reference, and what a successful teardown leaves behind is characterised exactly. The
split-tunnel expressions are data with an evaluator: after an apply every packet is marked, masqueraded and let through
as the settings ask, and after an apply that switches split tunnelling off the marking chains are shown to stay.

**OpenPGP key reader.** Headers, the packet walk and the armor decoder are proved against the encoders of RFC 4880
(sections 4.2 and 6.2) and RFC 4648 (section 4): the walk accepts exactly the encodings of one V4 transferable key, and
decoding undoes armoring exactly when no body line begins with padding. Which texts are decoded at all is characterised
without following the decoder's walk.

**Windows WFP sublayers.** Two weighted filter lists share one engine. Each controller keeps identifiers of the filters
it replaces incrementally; the lists are proved to name exactly the right filters in every run, the sublayers to equal a
fresh build, and failed updates to restore filters, identifiers and list together. Over interleaved runs of both, each
sublayer is proved to decide every packet by a closed form of the current settings, and the combined verdict on local
IPv6 traffic follows for every mode and list. Three places where the books go wrong are
characterised exactly: a rebuild that cannot add its sublayer, an update whose commit fails unnoticed, and a change of
the VPN executables while the firewall is on.

**Smaller cores.** However the command stream is cut, the same commands are handled; the process list has unique names
and leaks no handle; removing hosts entries undoes adding them, exactly for entries read in one piece.

## Conventions

- An object of the helper is a class. Its methods are proved equal to a step function on values, and the lemmas about
  runs are about the step functions; the methods' contracts repeat what those lemmas give for one call, that the
  invariant is kept and what a success leaves behind. What the outside world does (which loads land, which transaction
  is accepted, whether a sublayer can be added) is a parameter of the step.
- Bytes are characters or numbers below 256; shifts and masks of the original are written as division and remainder,
  and a 32-bit field's sign is explicit.
- Where code and comment disagree the code is followed. The comment on the Linux status probe says that only a
  definite absence reads as off; the code also reads a failure without a message as off, and the contract of
  `NftController.FirewallController.Enabled` says so. The filter's comments say that `auth-user-pass` is kept only
  without an argument; with a carriage return between the two the code keeps it, as `OvpnGuarantee.CrHidesArgument`
  shows.

## Model

| member | source | states |
|---|---|---|
| `OvpnGuarantee.ReaderMeetsOnlyWritten` | src/helper/common/ovpn_directive_whitelist.h:539-592 | main result, over the reader's words and the validators only: on every accepted config meeting the condition of the next row, each line the reader meets at the top level is blank or a comment, a known tag, or a directive of the list in which auth-user-pass stands alone, a dhcp-option with one of the six DNS spellings has exactly three unquoted words, the third a literal of the alias' family, and a dns server address line has at least one token and each in one of the four forms; the one exception is a CR behind auth-user-pass hiding its argument, impossible where CRs stand only before newlines |
| `OvpnGuarantee.WrittenIsKept` | src/helper/common/ovpn_directive_whitelist.h:652-714 | the converse: every line so written is kept, unchanged but for trimming, wherever it stands |
| `OvpnGuarantee.CrHidesArgument` | src/helper/common/ovpn_directive_whitelist.h:223-244 | a config that shows the exception: the argument check stops at a CR inside the line, the line is kept as bare, and the reader finds two words |
| `OvpnWritten.AllowedIffWritten` | src/helper/common/ovpn_directive_whitelist.h:426-527 | a directive line is allowed if and only if its words are as written above, or a CR hides the argument of auth-user-pass |
| `OvpnWritten.AllowedOutsideIff` | src/helper/common/ovpn_directive_whitelist.h:539-592 | outside blocks a line is allowed exactly when it has no words, is a known tag, or is so written, with the same exception |
| `OvpnWritten.BareIff` | src/helper/common/ovpn_directive_whitelist.h:78-84 | exactly when an allowed auth-user-pass line really has no second word: a CR behind its name, if any, is followed by a comment |
| `OvpnWritten.OverriddenNotListed` | src/helper/common/ovpn_directive_whitelist.h:153-175 | no directive the helper sets itself is in the list |
| `OvpnReader.ReaderSeesOnlyAllowed` | src/helper/common/ovpn_directive_whitelist.h:289-311 | main result: on every accepted config, unless the raw lines balance while the walk over the trimmed ones meets a closer outside a block, OpenVPN's own reader, through its 4096-byte buffer, meets at the top level of the output only lines the filter allows there |
| `OvpnReader.ReaderSeesOnlyAllowedWhenTrimmedBalances` | src/helper/common/ovpn_directive_whitelist.h:326-364 | in particular whenever the trimmed lines balance too, and whenever CRs stand only before newlines |
| `OvpnReader.CrBeforeLfBalances` | src/helper/common/ovpn_directive_whitelist.h:335-345 | when CRs stand only before newlines the pre-scan and the walk agree on balance |
| `OvpnReader.BalancedSimulation` | src/helper/common/ovpn_directive_whitelist.h:652-714 | with blocks honoured and every closer met inside one, while the filter is inside a block so is the reader, along the whole walk; so nothing passed through is ever a top-level option |
| `OvpnReader.SimulationStep` | src/helper/common/ovpn_directive_whitelist.h:652-714 | one line keeps the simulation, whether it is kept, cut or dropped, unless it is a closer met outside a block |
| `OvpnReader.UnbalancedAllAllowed` | src/helper/common/ovpn_directive_whitelist.h:535-557 | with unbalanced blocks nothing is passed through: every kept line is allowed on its own, whatever state the reader is in |
| `OvpnReader.TrimKeepsTag` | src/helper/common/ovpn_directive_whitelist.h:335-345 | the pre-scan on raw lines and the walk on trimmed lines see the same tags when CRs end lines |
| `OvpnReader.ReadersAgreeIff` | src/helper/common/ovpn_directive_whitelist.h:614-626 | a chunked fgets reader with a 4096-byte buffer and the unbounded line reader deliver the same lines if and only if every line fits one read |
| `OvpnReader.NotOverlongFits` | src/helper/common/ovpn_directive_whitelist.h:627-641 | every config the length check accepts fits, so both readers agree on it |
| `OvpnReader.LimitIsTight` | src/helper/common/ovpn_directive_whitelist.h:624-631 | a terminated line is read in one piece exactly up to 4094 bytes: the limit cannot be raised by one |
| `OvpnReader.OutputLines` | src/helper/common/ovpn_directive_whitelist.h:652-714 | the filter's output passes both rejections again and both readers split it into exactly the kept lines |
| `OvpnReader.OpenerForReader` | src/helper/common/ovpn_directive_whitelist.h:294-297 | a trimmed known opener is one word for the reader, which opens the same block |
| `OvpnReader.CloserForFilter` | src/helper/common/ovpn_directive_whitelist.h:299-304 | a line at which the reader leaves a known block is a closer of that block for the filter |
| `OvpnReader.CutKeepsTag` | src/helper/common/ovpn_directive_whitelist.h:697-706 | cutting a closer behind its '>' keeps its tag and cutting again changes nothing |
| `OvpnStability.FilterIdempotentIff` | src/helper/common/ovpn_directive_whitelist.h:652-714 | main result: on every accepted config filtering twice is filtering once if and only if raw and trimmed lines agree on balance, or, where only the raw ones balance, every body line is allowed on its own, or, where only the trimmed ones do, every closer is bare |
| `OvpnStability.FilterIdempotent` | src/helper/common/ovpn_directive_whitelist.h:652-714 | in particular filtering is idempotent on every accepted config whose CRs stand only before newlines |
| `OvpnStability.FilterKeepsTags` | src/helper/common/ovpn_directive_whitelist.h:326-364 | filtering drops, adds and renames no known tag of the trimmed lines |
| `OvpnStability.BlocksPreserved` | src/helper/common/ovpn_directive_whitelist.h:670-711 | main result: with balanced blocks every block comes out in order with every body line present and trimmed, its closer cut after '>' |
| `OvpnStability.IdempotenceNeedsAgreement` | src/helper/common/ovpn_directive_whitelist.h:335-338 | a config that fails the condition: a CR hides an opener from the pre-scan, and the second pass strips a body line |
| `OvpnStability.ReaderNeedsClosersInside` | src/helper/common/ovpn_directive_whitelist.h:335-338 | a config with a closer outside a block, hidden from the pre-scan by a CR, for which the reader meets a body line at the top level |
| `OvpnFilter.OpenIff` | src/helper/common/ovpn_directive_whitelist.h:294-312 | an opener is recognised exactly when the line is the lone token with white space behind it |
| `OvpnFilter.CloseIff` | src/helper/common/ovpn_directive_whitelist.h:299-304 | a closer is recognised exactly on its raw prefix, whatever follows |
| `OvpnFilter.ExtractInlineBlockTag` | src/helper/common/ovpn_directive_whitelist.h:260-319 | the scanning loop computes the tag the two lemmas above characterise |
| `OvpnFilter.HasBalancedInlineBlocks` | src/helper/common/ovpn_directive_whitelist.h:326-364 | the pre-scan accepts exactly the configs whose known tags alternate and pair up by name |
| `OvpnFilter.IsAllowed` | src/helper/common/ovpn_directive_whitelist.h:539-592 | a line is allowed exactly inside a block or when the filter admits it outside one, which AllowedOutsideIff spells out; the flag changes exactly on known tags when blocks are honoured |
| `OvpnFilter.HasUnsafeControlBytes` | src/helper/common/ovpn_directive_whitelist.h:601-612 | rejects exactly the configs with a control byte other than tab, newline and CR |
| `OvpnFilter.HasOverlongLine` | src/helper/common/ovpn_directive_whitelist.h:627-641 | the counting loop rejects exactly the configs with a line over the limit |
| `OvpnFilter.FilterConfig` | src/helper/common/ovpn_directive_whitelist.h:652-714 | the imperative walk produces the kept lines of the specification, or rejects; what is kept at the top level is ReaderMeetsOnlyWritten and its converse |
| `OvpnDirectives.ExtractDirectiveName` | src/helper/common/ovpn_directive_whitelist.h:192-219 | the directive name, without blanks and an optional double dash, lower-cased |
| `OvpnDirectives.HasNonCommentArgument` | src/helper/common/ovpn_directive_whitelist.h:223-244 | whether something other than a comment follows the name |
| `OvpnDirectives.SplitDirectiveWords` | src/helper/common/ovpn_directive_whitelist.h:390-401 | the words of a line up to a comment |
| `OvpnDirectives.AnyWordHasQuoteOrBackslash` | src/helper/common/ovpn_directive_whitelist.h:407-415 | whether any character of any word is a quote or a backslash |
| `OvpnDirectives.DnsTokenForms` | src/helper/common/ovpn_directive_whitelist.h:470-502 | a resolver token is accepted exactly in the four documented forms: v4, v4:port, bare v6, [v6]:port |
| `OvpnDirectives.AllowedDirectiveIsNotATag` | src/helper/common/ovpn_directive_whitelist.h:572-591 | no allowed directive can be taken for an inline tag |
| `PfSync.IncrementalEqualsFull` | src/helper/macos/firewallcontroller.cpp:50-171 | main result: in every run over any starting ruleset in which no incremental update failed, a successful enable leaves in pf exactly the tables and anchors a full rebuild from the same live state installs |
| `PfSync.UpdateAgreesIff` | src/helper/macos/firewallcontroller.cpp:93-171 | an update reported successful agrees with the full rebuild if and only if the pieces it did not reload were in sync before |
| `PfSync.EnableSyncs` | src/helper/macos/firewallcontroller.cpp:50-91 | from a synchronised controller a successful enable reaches the target and leaves caches and pf in step, whichever of the three paths it took |
| `PfSync.RunStaysInSync` | src/helper/macos/firewallcontroller.cpp:50-91 | the caches describe pf after every run of enable, disable and setVpnDns |
| `PfSync.FullBuildInstallsTarget` | src/helper/macos/firewallcontroller.cpp:173-212 | a full build installs the target whatever pf held |
| `PfSync.RetryRepairs` | src/helper/macos/firewallcontroller.cpp:81-91 | main result: retrying one intent until a push succeeds, any subset of loads landing each time, leaves every piece at the new value |
| `PfSync.NextPushAgreesIff` | src/helper/macos/firewallcontroller.cpp:81-91 | main result: after any failed pushes, a push of any intent that reports success leaves what a full rebuild would if and only if every piece behind a shut gate was left by the failures at the value asked for |
| `PfSync.NextIntentAgreesIff` | src/helper/macos/firewallcontroller.cpp:102-170 | after one failed push: exactly when no piece it loaded stays behind a shut gate at a different value |
| `PfSync.RunStaysOn` | src/helper/macos/firewallcontroller.cpp:205-208 | pf is on while a baseline is kept, if every pfctl -e of the run works |
| `PfSync.FallingBackKeepsStalePieces` | src/helper/macos/firewallcontroller.cpp:102-170 | an instance: going back to the last good intent reports success, reloads nothing and leaves the failed push's addresses in pf |
| `PfSync.StalePushExists` | src/helper/macos/firewallcontroller.cpp:102-170 | such a push exists |
| `PfRules.LanRulesDecide` | src/helper/macos/firewallcontroller.cpp:466-595 | main result: first-match evaluation of the local-traffic rules equals a closed form in the packet's address, for every config, own-address list and packet |
| `PfTunnel.VpnRulesDecide` | src/helper/macos/firewallcontroller.cpp:597-639 | main result: first-match evaluation of the tunnel anchor equals a closed form for every config and packet: on the VPN interface IPv4 passes and IPv6 iff the interface has a routable v6 address; elsewhere outgoing IPv4 passes only from the app group while a VPN interface is set, or to the connecting address from group 0 or the app group, and incoming only from the connecting address |
| `PfTunnel.AnchorsDecide` | src/helper/macos/firewallcontroller.cpp:457-461 | main result: the three anchors in order and the final block decide every packet no earlier rule decides: local traffic by the local-traffic closed form, the rest by the tunnel's and the open static ports; nothing else passes |
| `PfTunnel.NothingElseLeaves` | src/helper/macos/firewallcontroller.cpp:619-636 | what the local-traffic anchor leaves open leaves only on the tunnel, from the app group, or to the server from group 0; IPv6 only on a tunnel that has it |
| `PfTunnel.PortsDecide` | src/helper/macos/firewallcontroller.cpp:384-391 | exactly the listed ports are open to incoming TCP |
| `PfTunnel.VpnTrafficRules` | src/helper/macos/firewallcontroller.cpp:597-639 | the builder appends exactly the rules evaluated above, in order |
| `PfText.RenderIsRead` | src/helper/macos/firewallcontroller.cpp:466-639 | every rule is written so that reading its text in pf's grammar gives the same action, direction, interface, family, remote range, types or port, group and state options |
| `PfText.RangesAgree` | src/helper/macos/firewallcontroller.cpp:472-592 | the bounds of every range named are those of the prefix its text spells |
| `PfRules.LaterRulesAreDead` | src/helper/macos/firewallcontroller.cpp:602-611 | loopback, link-local, private, reserved, multicast and ULA packets are all decided there, so no later rule changes a verdict |
| `PfRules.PrivateInTunnel` | src/helper/macos/firewallcontroller.cpp:508-551 | private traffic on the tunnel passes exactly for custom configs, the reserved subnet, or own addresses with LAN on, outside the ICMPv6 exemptions that are written |
| `PfRules.CarveOutWouldBeDead` | src/helper/macos/firewallcontroller.cpp:529-551 | with LAN off and no custom config, adding the scoped blocks changes no verdict |
| `PfRules.LanTrafficRules` | src/helper/macos/firewallcontroller.cpp:466-595 | the builder appends exactly the rules evaluated above, in order |
| `PfRules.OwnAddressRules` | src/helper/macos/firewallcontroller.cpp:533-536 | the pair of rules for each own address, in order |
| `PfStates.LanOffBlocksAtOnce` | src/helper/macos/firewallcontroller.cpp:556-592 | main result: in every run of pushes and packets, non-ICMPv6 LAN traffic on an interface that never was the VPN interface leaves no state, so it is blocked from the first packet after Allow LAN goes off |
| `PfStates.RunStateless` | src/helper/macos/firewallcontroller.cpp:229-247 | that no such state exists is kept by every push and packet |
| `PfController.FirewallController.Enable` | src/helper/macos/firewallcontroller.cpp:50-91 | enable as one of three paths, moving the baseline only on success; from a synchronised state a success leaves in pf the target, whose anchors VpnRulesDecide and LanRulesDecide decide |
| `PfController.FirewallController.ApplyTargeted` | src/helper/macos/firewallcontroller.cpp:93-171 | the changed pieces are loaded, each landing on its own, and the caches move only when all landed |
| `PfController.ReloadChanged` | src/helper/macos/firewallcontroller.cpp:93-171 | the gates, loads and outcomes of one targeted update, in the order of the code, amount to landing the marked pieces |
| `PfController.FirewallController.FullApply` | src/helper/macos/firewallcontroller.cpp:173-212 | a full load replaces everything, or nothing, or fails after its flush and empties everything; the result of turning pf on is ignored |
| `PfController.FirewallController.Disable` | src/helper/macos/firewallcontroller.cpp:276-291 | teardown with either command failing; a success leaves none of our ruleset, tables or caches, and pf off unless it is to stay on |
| `PfController.FirewallController.SetVpnDns` | src/helper/macos/firewallcontroller.cpp:301-327 | the valid resolvers become the table while enabled |
| `PfController.FirewallController.UpdateDns` | src/helper/macos/firewallcontroller.cpp:329-349 | the resolver table follows the list while enabled and is flushed otherwise |
| `PfDns.RunTableFollows` | src/helper/macos/firewallcontroller.cpp:50-91 | main result: in every run whose table loads and teardowns work, the VPN resolver table is the valid part of the last list pushed while on, and empty while off; before the first push an adopted ruleset keeps its table |
| `PfDns.ValidDnsExactly` | src/helper/macos/firewallcontroller.cpp:301-327 | the kept list has the valid entries and no others |
| `PfDns.KeepValidExactly` | src/helper/macos/firewallcontroller.cpp:361-382 | the disallowed table has the valid OS resolvers and no others |
| `PfDns.OwnAddrsExactly` | src/helper/macos/firewallcontroller.cpp:656-678 | the probe finds the interface's own v4 addresses and no others |
| `PfTunnel.StaticPortsRules` | src/helper/macos/firewallcontroller.cpp:384-391 | one rule for each static port, in order |
| `PfController.KeepValidIps` | src/helper/macos/firewallcontroller.cpp:361-382 | the valid OS resolvers, in order |
| `PfController.WalkAddresses` | src/helper/macos/firewallcontroller.cpp:656-678 | one walk finds the interface's own v4 addresses and whether it has a routable v6 address, by exact name |
| `NftRun.TeardownNeverBusy` | src/helper/linux/firewallcontroller.cpp:231-279 | main result: at any point of any interleaving, neither teardown transaction deletes a chain still referenced |
| `NftRun.DisableLeavesNothingIff` | src/helper/linux/firewallcontroller.cpp:231-279 | main result: a successful teardown removes input, output, st_in and st_out, and leaves none of our chains if and only if no apply of an active split tunnel landed between its two transactions |
| `NftRun.RunKeepsInv` | src/helper/linux/firewallcontroller.cpp:189-279 | in every interleaving of enable, disable, applies and other subsystems, with any transaction failing, every jump names an existing chain |
| `NftRun.OnlyDisableOpensTheFirewall` | src/helper/linux/firewallcontroller.cpp:231-267 | the drop-policy chains disappear exactly by an accepted first teardown transaction |
| `NftRun.OneTransactionWouldFail` | src/helper/linux/firewallcontroller.cpp:241-249 | folding both halves of the teardown into one transaction fails as a unit while the firewall is on |
| `NftVerdict.RunFollowsSettings` | src/helper/linux/firewallcontroller.cpp:305-395 | main result: in every interleaving, after a successful apply of an active split tunnel, every packet is treated as the settings ask. Exclude mode: bypass mark iff in the cgroup; st_in/st_out accept the cgroup and exactly the valid listed ranges of the packet's family, by source and destination. Inclusive mode, with a valid adapter address: the mark for all outside the cgroup, the connection's mark for the cgroup, the connmark set on what is addressed to the adapter; everything accepted. Masquerade exactly on the valid adapter under the mark's cgroup test |
| `NftVerdict.EnableFollowsSettings` | src/helper/linux/firewallcontroller.cpp:189-229 | the same after a successful enable |
| `NftVerdict.MarkedIff` | src/helper/linux/firewallcontroller.cpp:335-377 | a packet without the bypass mark gets it in exclude mode iff in the cgroup, in inclusive mode iff an adapter address is valid and it is outside the cgroup or its connection carries the mark |
| `NftVerdict.MasqueradedIsMarked` | src/helper/linux/firewallcontroller.cpp:335-377 | what is masqueraded carries the bypass mark wherever one can be set |
| `NftVerdict.InactiveApplyClearsIff` | src/helper/linux/firewallcontroller.cpp:305-317 | an apply of an inactive split tunnel empties st_in/st_out but leaves the marking chains: it leaves nothing of a split tunnel if and only if those were absent or empty |
| `NftVerdict.SwitchedOffStillMarks` | src/helper/linux/firewallcontroller.cpp:397-413 | an instance: switching an exclude-mode split tunnel off without turning the firewall off leaves the cgroup's packets marked |
| `NftText.TextIsRead` | src/helper/linux/firewallcontroller.cpp:329-383 | every expression is written so that reading its text gives the same tests, with the same ends and families, and the same statement |
| `NftRun.TeardownAndDnsLeaks` | src/helper/linux/firewallcontroller.cpp:250-261 | the first teardown transaction takes the DNS-leak chain along exactly while not connected, and nobody else's chain |
| `NftRun.EnableInstalls` | src/helper/linux/firewallcontroller.cpp:189-229 | after a successful enable input and output hold the rules and then the jump, the split-tunnel chains their intended contents, and other chains are as before |
| `NftRun.ApplyEffect` | src/helper/linux/firewallcontroller.cpp:305-395 | an apply transaction always goes through when accepted and rewrites exactly the split-tunnel chains; what their contents do is RunFollowsSettings |
| `NftRun.DropAllEffect` | src/helper/linux/nftables/nftablescontroller.h:38-42 | idempotent deletes succeed exactly when none of the chains is referenced, and then remove just them |
| `Nft.TransactionsKeepJumpsResolved` | src/helper/linux/nftables/nftablescontroller.h:21-42 | whatever the commands, an atomic transaction never leaves a dangling jump |
| `Nft.RunTransaction` | src/helper/linux/firewallcontroller.cpp:224-228 | a transaction lands as a whole exactly when it is accepted and every command goes through, and else changes nothing |
| `NftController.FirewallController.BuildSplitTunnelRules` | src/helper/linux/firewallcontroller.cpp:305-385 | the chain commands and rules of the specification for the current state, whose effect on packets is RunFollowsSettings |
| `NftController.FirewallController.Enable` | src/helper/linux/firewallcontroller.cpp:189-229 | one transaction, or nothing when a rule could not be built; keeps the run invariant |
| `NftController.FirewallController.Disable` | src/helper/linux/firewallcontroller.cpp:231-279 | two transactions, the second only after the first succeeded; undisturbed, it succeeds exactly when both are accepted and leaves none of our chains |
| `NftController.FirewallController.ApplySplitTunnel` | src/helper/linux/firewallcontroller.cpp:387-395 | one transaction over the split-tunnel chains; keeps the run invariant and reports exactly whether it was accepted |
| `NftController.FirewallController.SetSplitTunnelingEnabled` | src/helper/linux/firewallcontroller.cpp:397-413 | the settings are the ones given, applied in one step |
| `NftController.FirewallController.SetSplitTunnelIpExceptions` | src/helper/linux/firewallcontroller.cpp:415-430 | a new exception list, applied or only stored |
| `NftController.FirewallController.Enabled` | src/helper/linux/firewallcontroller.cpp:281-303 | off is reported only on an absent chain or on a failure without a message; two unexpected errors read as on |
| `PgpKey.ExtractMasterKeyV4` | src/helper/linux/installer_verifier.cpp:444-484 | main result: succeeds if and only if the input is, with no byte left over, a sequence of definite-length packets whose first is a V4 public-key packet of 1 to 65535 octets and no other has tag 6, and yields the bytes the fingerprint is the digest of |
| `PgpKey.NextPacket` | src/helper/linux/installer_verifier.cpp:470-484 | in any parse beginning with the packets walked so far, the next packet is the one at the current position |
| `PgpKey.OnlyParse` | src/helper/linux/installer_verifier.cpp:444-447 | an input has at most one parse, so the key found is the key there is |
| `PgpPackets.ReadPacketHeader` | src/helper/linux/installer_verifier.cpp:355-431 | a header is read exactly when some packet in a definite-length form starts there and fits, and the position moves on by at least two |
| `PgpPackets.FieldInverts` | src/helper/linux/installer_verifier.cpp:360-426 | reading inverts the old 1/2/4-octet and new 1/2/5-octet encodings, whatever follows |
| `PgpPackets.FieldIsHeader` | src/helper/linux/installer_verifier.cpp:360-426 | whatever length is read, the bytes are the encoding of it |
| `PgpPackets.TwoOctetForm` | src/helper/linux/installer_verifier.cpp:374-379 | the two-octet form covers exactly the lengths 192 to 8383 |
| `PgpPackets.PrefixFree` | src/helper/linux/installer_verifier.cpp:355-431 | no packet is the beginning of a different one |
| `PgpPackets.UniqueParse` | src/helper/linux/installer_verifier.cpp:355-431 | a byte string splits into packets in at most one way |
| `PgpDearmor.DearmorUndoesArmorIff` | src/helper/linux/installer_verifier.cpp:262-350 | main result: decoding gives back exactly the payload for every layout of the armor, if and only if no body line begins with padding |
| `PgpFraming.DearmorIff` | src/helper/linux/installer_verifier.cpp:262-350 | main result: decoding succeeds exactly on one framed block with no further BEGIN marker behind its END, whose lines other than checksum lines join to base64 that is not empty, made of whole groups and within the size limit; it yields those octets |
| `PgpFraming.UnframeIff` | src/helper/linux/installer_verifier.cpp:265-305 | a body is found exactly when the text is: no earlier BEGIN marker, header lines up to the first blank one, the body up to the first END marker, no BEGIN marker after it |
| `PgpDearmor.DearmorUndoesArmor` | src/helper/linux/installer_verifier.cpp:262-350 | lines of whole base64 groups, LF or CRLF, any headers, with or without checksum: always undone |
| `PgpDearmor.SplitGroupIsRefused` | src/helper/linux/installer_verifier.cpp:322-331 | one octet in lines of three is refused: a padding line is taken for the checksum |
| `PgpDearmor.DearmorPgp` | src/helper/linux/installer_verifier.cpp:262-350 | the imperative decoder computes the specified decoding |
| `PgpDearmor.SkipHeaders` | src/helper/linux/installer_verifier.cpp:278-291 | header lines are skipped up to the first blank one |
| `PgpDearmor.CollectBase64` | src/helper/linux/installer_verifier.cpp:307-327 | the characters of the body lines without CRs and checksum lines |
| `PgpDearmor.TrimPadding` | src/helper/linux/installer_verifier.cpp:339-348 | the decoded bytes lose as many octets as there is padding |
| `PgpDearmor.UnframeArmor` | src/helper/linux/installer_verifier.cpp:269-305 | markers and headers of any layout are stripped to the body |
| `PgpDearmor.CollectBody` | src/helper/linux/installer_verifier.cpp:307-327 | the collected characters are the base64 of the payload exactly when no line begins with padding |
| `PgpArmor.Base64RoundTrip` | src/helper/linux/installer_verifier.cpp:332-348 | block decoding and the 0/1/2-octet trim undo base64 of every payload |
| `PgpArmor.DecodeInvertsEncode` | src/helper/linux/installer_verifier.cpp:332-338 | block decoding gives the payload back with its padding octets as zeros |
| `WfpSystem.RunDecidesEveryPacket` | src/helper/windows/firewallfilter.cpp:22-183 | main result: in every interleaved run of both controllers each sublayer decides every packet of both families exactly by its closed form, from the configuration of the last on() and the settings of the moment; off, the main sublayer decides nothing |
| `MainVerdict.MainDecides` | src/helper/windows/firewallfilter.cpp:185-438 | main result: the calls of on() and of split tunnelling decide every packet by a closed form with the address bounds as numbers: first loopback, link-local, NDP/MLD, the reserved range on a tunnel and own addresses; then the tunnel carve-out, DHCP, the reserved block, LAN by the setting; then IPv4 on a tunnel, IPv6 on a tunnel that has it, the server from permitted programs, listed addresses and split tunnelling; all else is blocked. Only DHCP to the reserved range off the tunnel is undecided, a permit and a block having one weight |
| `WfpSystem.RunLeaksNothing` | src/helper/windows/firewallfilter.cpp:185-385 | in every such run, while on, a packet off every tunnel to an address neither local, own, listed nor on the link is blocked unless it is DHCP, discovery, the server's from a permitted program, or let out by split tunnelling |
| `Ipv6Verdict.BuildDecides` | src/helper/windows/ipv6_firewall.cpp:143-299 | main result: the calls of disableIPv6() decide every IPv6 packet by a closed form: loopback, link-local, NDP/MLD and allowed LAN pass; otherwise without a mode all is blocked off the v6 tunnels, in inclusive mode listed apps and destinations are blocked, except on a v6 tunnel when apps are listed, and the rest passes, in exclusive mode they pass and the rest is blocked off the v6 tunnels |
| `Ipv6Verdict.RunDecidesEveryPacket` | src/helper/windows/ipv6_firewall.cpp:24-141 | main result: in every run with rebuilds succeeding, while installed the IPv6 sublayer decides every packet exactly so |
| `WfpVerdict.DecidesByTop` | src/helper/windows/utils.cpp:497-613 | a list of calls decides by its greatest covering weights; with equal ones it decides nothing |
| `WfpSystem.RunDecidesLanTraffic` | src/helper/windows/ipv6_firewall.cpp:239-248 | main result: in every interleaved run of both controllers, with both sublayers standing for the same flags, a ULA or multicast IPv6 packet that is neither NDP/MLD nor DHCPv6 passes on a tunnel adapter iff the config is custom, off the tunnel iff Allow LAN or custom, and is blocked otherwise, for every mode, app list and IP list |
| `WfpSystem.RunKeeps` | src/helper/windows/ipv6_firewall.cpp:46-141 | both controllers' invariants survive every interleaving on the shared engine |
| `WfpSystem.StepKeeps` | src/helper/windows/firewallfilter.cpp:22-183 | a step of either controller leaves the other's sublayer as its own invariant needs it |
| `WfpVerdict.DecidesByAdds` | src/helper/windows/utils.cpp:497-613 | a filter list decides exactly as the add calls that built it |
| `WfpVerdict.ExpandApplies` | src/helper/windows/utils.cpp:497-594 | a filter of a call matches a packet exactly when the call covers it: one of its ranges of that family, its interface, port and one of its apps |
| `WfpVerdict.SkippedCoversNothing` | src/helper/windows/utils.cpp:508-519 | a range list without entries of the family gives no filter rather than one for all traffic |
| `WfpVerdict.DecidesOnce` | src/helper/windows/utils.cpp:534-537 | no sublayer decides both ways, so a block in one of them is final |
| `Ipv6Run.RunEqualsFreshBuild` | src/helper/windows/ipv6_firewall.cpp:24-141 | main result: in every run with rebuilds and commits succeeding and the adds of updates failing at will, while installed the sublayer equals a fresh build from the current state and the recorded identifiers name exactly the destination filters |
| `Ipv6Run.UpdateHolds` | src/helper/windows/ipv6_firewall.cpp:107-141 | an incremental update either installs the new list or leaves filters, identifiers and list exactly as they were, according to whether its adds succeed |
| `Ipv6Run.RebuildHolds` | src/helper/windows/ipv6_firewall.cpp:46-87 | a rebuild establishes the invariant from any engine state and touches no other sublayer |
| `Ipv6Failures.FailedRebuildKeepsBooksIff` | src/helper/windows/ipv6_firewall.cpp:46-105 | main result: after a new install or a changed mode or app list that cannot add the sublayer, the books are right if and only if neither the old nor the new settings ask for a destination filter and both ask for the same of the rest |
| `Ipv6Failures.FailedModeChangeSpoilsBooks` | src/helper/windows/ipv6_firewall.cpp:89-105 | a failing mode change spoils the books although there is no destination filter before or after |
| `Ipv6Failures.FailedReinstallKeepsBooksIff` | src/helper/windows/ipv6_firewall.cpp:57-80 | with unchanged settings: exactly when no mode is on or the list has no IPv6 entry |
| `Ipv6Failures.SameDemandIff` | src/helper/windows/ipv6_firewall.cpp:181-299 | which settings ask for the same filters up to order: same LAN permission, same mode and app list where they matter, no destination filter |
| `Ipv6Failures.FailedRebuildLeavesStaleFilters` | src/helper/windows/ipv6_firewall.cpp:61-80 | and no later update of the list removes the old destination filters |
| `Ipv6Failures.UncommittedUpdateKeepsBooksIff` | src/helper/windows/ipv6_firewall.cpp:130-139 | an update whose commit fails unnoticed leaves the books right exactly when neither list asks for a destination filter |
| `WfpOrder.HoldsUpToOrder` | src/helper/windows/utils.cpp:62-89 | two lists describe the same sublayer exactly when they agree up to order |
| `Ipv6Firewalls.Ipv6Firewall.EnableIPv6` | src/helper/windows/ipv6_firewall.cpp:24-44 | lifting the block deletes the sublayer and forgets the identifiers, if it was installed |
| `Ipv6Firewalls.Ipv6Firewall.DisableIPv6` | src/helper/windows/ipv6_firewall.cpp:46-87 | installing is always a rebuild with the flags given, whose verdicts are BuildDecides; without the sublayer the transaction is aborted |
| `Ipv6Firewalls.Ipv6Firewall.SetSplitTunnelingState` | src/helper/windows/ipv6_firewall.cpp:89-105 | a changed mode or app list rebuilds an installed block |
| `Ipv6Firewalls.Ipv6Firewall.SetSplitTunnelingWhitelistIps` | src/helper/windows/ipv6_firewall.cpp:107-141 | the destination filters are replaced with save and restore |
| `Ipv6Firewalls.AddBase` | src/helper/windows/ipv6_firewall.cpp:181-295 | the calls of a build before the destination filters, in order, as BuildDecides evaluates them |
| `Ipv6Firewalls.AddDestinations` | src/helper/windows/ipv6_firewall.cpp:143-168 | the destination filter at the layers that accept it, with its identifiers; whole exactly when it reports success |
| `MainInv.RunFollowsSettings` | src/helper/windows/firewallfilter.cpp:22-183 | main result: in every run from no sublayer, while on, the sublayer is exactly what the last on() added besides the split-tunnel filters plus those of the current mode, apps and IPs, which the two identifier lists name in order; while off nothing is there or recorded |
| `MainInv.SplitFiltersAsFreshOn` | src/helper/windows/firewallfilter.cpp:404-438 | the recorded filters are those a fresh on() would record, for any configuration |
| `MainInv.VpnAppsFollowedIff` | src/helper/windows/firewallfilter.cpp:123-142 | in every run after an on(), changes of the VPN executables leave the permit for the server as it was: the sublayer is what on() would install now exactly when the executables are the same again or the address is not IPv4 |
| `MainInv.SameAsReinstalled` | src/helper/windows/firewallfilter.cpp:22-50 | a fresh on() would leave the same sublayer exactly when it would add the same filters besides the split-tunnel ones |
| `MainInv.RunKeeps` | src/helper/windows/firewallfilter.cpp:22-183 | the invariant holds in every run, and no other sublayer is touched |
| `MainInv.SwapMiddle` | src/helper/windows/firewallfilter.cpp:446-455 | replacing the app filters keeps the others, under their identifiers |
| `MainInv.TurnOnHolds` | src/helper/windows/firewallfilter.cpp:22-50 | a fresh on() establishes the invariant although it records filters in the middle of its list |
| `MainFirewalls.FirewallFilter.TurnOnFirewall` | src/helper/windows/firewallfilter.cpp:22-50 | on(): off if present, sublayer, filters in order; on exactly if the sublayer could be added, the settings kept; its verdicts are MainDecides |
| `MainFirewalls.FirewallFilter.TurnOffFirewall` | src/helper/windows/firewallfilter.cpp:52-61 | off(): sublayer and lists cleared, the settings kept |
| `MainFirewalls.FirewallFilter.SetSplitTunnelingEnabled` | src/helper/windows/firewallfilter.cpp:90-108 | both groups removed and, if on, added for the new mode |
| `MainFirewalls.FirewallFilter.SetSplitTunnelingDisabled` | src/helper/windows/firewallfilter.cpp:110-121 | both groups removed |
| `MainFirewalls.FirewallFilter.SetSplitTunnelingAppsIds` | src/helper/windows/firewallfilter.cpp:144-163 | the app filters follow a changed list at once |
| `MainFirewalls.FirewallFilter.SetVpnAppsIds` | src/helper/windows/firewallfilter.cpp:123-142 | the app filters are rebuilt, the rest is not |
| `MainFirewalls.FirewallFilter.SetSplitTunnelingWhitelistIps` | src/helper/windows/firewallfilter.cpp:165-183 | the IP filters follow a changed list at once |
| `MainFirewalls.AddTapFilters` | src/helper/windows/firewallfilter.cpp:205-265 | the calls for one tunnel adapter, in order |
| `MainFirewalls.AddBefore` | src/helper/windows/firewallfilter.cpp:190-266 | the calls before the split-tunnel filters, in order, as MainDecides evaluates them |
| `MainFirewalls.AddAfter` | src/helper/windows/firewallfilter.cpp:274-384 | the calls after the split-tunnel filters, in order, as MainDecides evaluates them |
| `WfpCalls.AddFilterCall` | src/helper/windows/utils.cpp:373-613 | one filter at each layer of the family, an identifier recorded for each that was accepted and none for one refused; nothing for a range list of the other family |
| `WfpCalls.AddIcmp6Call` | src/helper/windows/utils.cpp:615-673 | the type-range permit at both IPv6 layers, each accepted or refused on its own |
| `WfpCalls.BuildRangeConditions` | src/helper/windows/utils.cpp:541-559 | the address conditions of the call's family, in order |
| `WfpCalls.RemoveById` | src/helper/windows/ipv6_firewall.cpp:170-179 | deletes exactly the listed filters |
| `Wfp.HoldsMore` | src/helper/windows/utils.cpp:603-610 | adding filters extends the recorded list by fresh identifiers, one for each |
| `Wfp.HoldsFewer` | src/helper/windows/ipv6_firewall.cpp:170-179 | deleting recorded identifiers removes just their filters |
| `IpcFrames.CutsDoNotMatter` | src/helper/linux/server.cpp:71-150 | main result: however the stream is cut into reads, the commands handled, their order and the fate of the connection are those of the stream parsed at once |
| `IpcFrames.DeliveredAsSent` | src/helper/linux/server.cpp:71-125 | cutting an encoded command sequence anywhere, with any process ids in its headers, delivers exactly those commands |
| `IpcFrames.StopsAtBadLength` | src/helper/linux/server.cpp:89-97 | a length that is negative or above 4 MiB ends the stream exactly there: all before it is handled, nothing behind it |
| `IpcFrames.GoneWhenAnswerFails` | src/helper/linux/server.cpp:127-150 | an answer that does not get through ends the connection: its command was handled, nothing behind it is |
| `IpcFrames.ParseAppend` | src/helper/linux/server.cpp:71-125 | parsing a prefix and carrying on with the rest is parsing the whole |
| `IpcFrames.Int32RoundTrip` | src/helper/linux/server.cpp:80-87 | the little-endian two's-complement field is read back for every 32-bit value |
| `IpcFrames.Connection.ReadAndHandleCommand` | src/helper/linux/server.cpp:71-125 | takes exactly one complete frame off the buffer, or leaves it and says why |
| `IpcFrames.Connection.ReceiveCmdHandle` | src/helper/linux/server.cpp:127-150 | one completed read handles every complete frame and ends, each consuming at least its header |
| `Processes.ActiveProcesses.GetList` | src/helper/windows/active_processes.cpp:15-142 | in every call: entries of gone processes are dropped and their handles closed, living ones keep name and handle, new ones get a fresh unique name, and the list has every saved name once in process-id order; a failed enumeration changes nothing but disarms the timer |
| `Processes.UniqueName` | src/helper/windows/active_processes.cpp:94-106 | the naming loop ends with the first free candidate, within one try more than there are processes |
| `Processes.SomeCandidateFree` | src/helper/windows/active_processes.cpp:94-106 | pigeonhole: among as many candidates as names taken plus one, one is free |
| `Processes.CandidateInjective` | src/helper/windows/active_processes.cpp:100-103 | different counters give different candidates |
| `Processes.ActiveProcesses.Sweep` | src/helper/windows/active_processes.cpp:38-66 | mark and sweep keeps exactly the entries enumerated again and closes the handles of the rest |
| `Processes.AddNew` | src/helper/windows/active_processes.cpp:68-127 | new entries are exactly the named, not skipped processes; every other handle opened is closed again |
| `Processes.ListIsExact` | src/helper/windows/active_processes.cpp:134-140 | the returned list has no repetition and misses no saved name |
| `Processes.IsModuleExists` | src/helper/windows/active_processes.cpp:164-174 | whether a name is in use |
| `Processes.Mark` | src/helper/windows/active_processes.cpp:38-51 | the used flags after marking: exactly the enumerated processes |
| `Processes.ActiveProcesses.Clear` | src/helper/windows/active_processes.cpp:187-197 | every handle is closed and nothing stays open |
| `Processes.ActiveProcesses.ClearSavedListProcesses` | src/helper/windows/active_processes.cpp:144-162 | the same, with the timer disarmed |
| `HostsUndo.RemoveUndoesAdds` | src/helper/windows/hostsedit.cpp:73-125 | main result: removing after any sequence of one-line adds gives back a file without the marker exactly, less its final newline |
| `HostsUndo.AddingTwiceIsAddingOnce` | src/helper/windows/hostsedit.cpp:38-51 | an entry once added is found again, so adding it a second time writes nothing |
| `HostsUndo.AddUndoneIff` | src/helper/windows/hostsedit.cpp:23-54 | main result: adding an entry to a file, both free of the marker, is undone if and only if it was listed already or its marked line is read in one piece (no newline, fits the buffer), an empty file also allowing for a newline in front |
| `HostsUndo.HostsEdit.AddHosts` | src/helper/windows/hostsedit.cpp:23-54 | appends a marked line, on its own line, unless the entry is listed |
| `HostsUndo.HostsEdit.RemoveHosts` | src/helper/windows/hostsedit.cpp:73-125 | rewrites the file without the marked reads and the last newline |
| `HostsFile.StringInVector` | src/helper/windows/hostsedit.cpp:141-159 | finds an entry exactly when it occurs in some line bounded by white space, a comment sign or the line's ends |
| `HostsFile.ReadAll` | src/helper/windows/hostsedit.cpp:32-36 | the reads of the file, each with its newline, cut at the buffer size |

## Left out

- OvpnReader.ReaderSeesOnlyAllowed: its condition is sufficient, not necessary: after a closer outside a block whether the guarantee fails depends on what the later body lines spell, and stating that would be stating the guarantee again. The reader splits words at white space; its quotes and backslashes are not modelled, because directives whose values matter are refused when they contain them.
- OvpnDirectives.DnsTokenForms: what counts as a valid address literal or port text is a parameter.
- OvpnFilter.FilterConfig: which rejected directives are logged, and at which level, is not modelled.
- PfText.RenderIsRead: reads the fragment of pf's grammar these rules use; that interface names and addresses are single words is taken for granted.
- PfTunnel.AnchorsDecide: about packets no earlier quick rule of the main ruleset decides; those (AWDL, DHCP, ICMP echo, IGMP, ESP and GRE, the address and resolver tables) are not modelled, nor are TCP flags.
- PfStates.LanOffBlocksAtOnce: states are keyed by interface and flow, so pf's floating states are not captured, and only packets that reach the local-traffic anchor are considered.
- PfController.FirewallController.FullApply: the main ruleset is a record of which anchors and blocks it references; the verdicts of its own rules are not modelled.
- PfController.FirewallController.UpdateDns: the flush of the VPN resolver table is modelled by its intent, not by its command line; that table is the subject of `PfDns`, not of the agreement results.
- PfController.FirewallController.SetVpnDns: clears the table by the same modelled flush.
- PfSync.RetryRepairs: stated for an unchanged live state, as the caches move only on full success.
- NftRun.EnableInstalls: the per-packet rules of input and output are an arbitrary list of plain rules; their text, hook priorities and hooked-chain redefinition errors are not modelled, the last being covered by refusing any transaction.
- NftRun.RunKeepsInv: other users of the table are assumed not to touch or jump into the chains owned here.
- NftVerdict.RunFollowsSettings: each chain is evaluated on its own; at which hook and in which order the kernel runs them, and policy routing by the mark, are not modelled.
- NftController.FirewallController.Disable: nothing else runs between its two transactions; interleavings there are the subject of `NftRun`.
- NftController.FirewallController.BuildSplitTunnelRules: interface and address validation and the cgroup identifiers are parameters.
- PgpKey.ExtractMasterKeyV4: ends with the bytes to be digested; the SHA-1 digest and its hexadecimal text are not modelled.
- PgpDearmor.DearmorPgp: the block decoder accepts the base64 alphabet and padding only and reads padding as zero; the library's tolerance of white space around the block is not modelled.
- Ipv6Run.RunEqualsFreshBuild: adds inside a rebuild are assumed to succeed, as are deletes; the source logs such failures and goes on. The set of tunnel adapters is fixed.
- Ipv6Firewalls.Ipv6Firewall.SetSplitTunnelingWhitelistIps: its transaction commits; `UncommittedUpdateKeepsBooksIff` says what an update whose commit fails leaves. A failing commit of an install, a removal or any transaction of the main firewall is not modelled.
- MainInv.RunFollowsSettings: filter adds and deletes are assumed to succeed; adding the sublayer may fail.
- WfpSystem.RunDecidesEveryPacket: stated with strict weights, so equal weights with opposite actions decide nothing; how the platform breaks such a tie is not modelled. The ICMPv6 type and the local port are separate fields of a packet.
- WfpVerdict.ExpandApplies: the callout sublayer of the split-tunnel driver, names, GUIDs and the persistence flag's effect at boot are not modelled.
- WfpCalls.AddFilterCall: the remote port is always absent, as no caller passes one.
- IpcFrames.Connection.ReceiveCmdHandle: what a command does, its answer and running out of memory are not modelled; whether an answer gets through is a parameter.
- Processes.UniqueName: truncation at the Windows path limit is not modelled.
- Processes.ActiveProcesses.GetList: file names have at least the four characters the code cuts off, and the limit of 1024 enumerated processes is not modelled.
- HostsUndo.RemoveUndoesAdds: entries are one line short enough for one read; `AddUndoneIff` says what happens to others, which the only caller never passes, as it accepts IP addresses and DNS names only (src/helper/windows/process_command.cpp:588-595). Opening, moving and the read-only attribute are not modelled.
- HostsFile.StringInVector: white space is the ASCII set.
- Command-line utilities, sockets, services, file staging and signature tools, the boot-time firewall, DNS-leak protection and WireGuard chains: operating-system plumbing.
- XOR obfuscation, MAC and port-list checks, the handshake tracker and DoH settings: one-function claims.
