# LAS policy compiler: verified model

LAS turns one router configuration into three artefacts that have to agree: an nftables
ruleset, a list of `ip` commands and `sh -c` snippets, and file writes. An executor then
runs them. This project models that path in Dafny and proves what the artefacts mean.

`dafny verify dfyconfig.toml` checks everything.

## What is modelled

| file | subject |
|---|---|
| `Basics`, `Addresses`, `Coverage`, `Strings`, `Numerals`, `AddressText` | optional values, CIDR membership as prefix arithmetic (section 3.1 of RFC 4632, section 2.3 of RFC 4291), when prefixes cover a block, splitting and joining, decimal and hexadecimal numerals, address texts and printed targets |
| `Config`, `Validation`, `Refusals` | the configuration, its validators with their look-up tables, the declarative predicate they accept, and every reason for a refusal |
| `Nft`, `MatchCompiler`, `MatchMeaning` | nft lines with a first-match evaluator, the compilation of a rule's match, and its meaning against a reference that knows no lines, families or named sets and leaves open what the uncompiled fields mean |
| `RuleOrder`, `RuleActions`, `PolicyChains` | stable priority order, the two mark resolvers, the prerouting and forward chains |
| `InputChain`, `NatChains` | the lines of the input chain and the NAT chains |
| `CompiledTable`, `Verdicts`, `NatPairs`, `NatMeaning` | the compiled table and its chains by name; what each chain says about a packet, in terms of the configuration's fields |
| `NftWriter`, `Warnings` | the generator of the ruleset: the loops that append sets, lines and warnings; when it warns |
| `Kernel`, `Reapply`, `RoutingPlan`, `Completion` | a kernel model of rules, routes, links and addresses; the abstract plan; replaying and re-applying it; when it can be applied |
| `TunnelOutcome`, `Devices`, `FailoverTables`, `FailoverPlan` | what a successful plan leaves behind for each tunnel, failover group and weighted group |
| `EndToEnd`, `ValidatedPolicy`, `Departure` | ruleset and plan together: which table a packet is looked up in, and which device it leaves by |
| `Traps`, `Witnesses` | for each way a validated configuration can miss what it says, a concrete one that does; and configurations that meet the hypotheses of the end-to-end theorems |
| `ShellWords`, `Scripts`, `Templates`, `StepReadings` | shell quoting, POSIX token recognition (sections 2.2.2, 2.2.3 and 2.3 of the POSIX.1-2017 Shell Command Language), the interpolated templates, and reading scripts back as kernel steps |
| `Execution`, `AtomicFile` | plan execution and atomic file replacement, with a failure possible at every operation |
| `CommandMeaning`, `RoutingCommands`, `TunnelCommands`, `PlanNotes`, `ExecutedPolicy` | the emitted commands, what each does to the kernel, which services it enables, when the plan warns, and what executing it achieves |
| `LinkCommands`, `LinkMeaning` | the commands of bonds, bridges, VLANs and VRFs, read back and run on a model of links |
| `EditorText` | the text fields of the configuration editor |

Code that appends in loops or updates fields is a method or class proved against a
specification function; the theorems are about those functions. The text of an nft line is
represented by its match parts and its action.

## Where the code does less, or more, than a rule says

Each of these is proved, by a concrete input, by the exact condition, or by both.

- A rule whose source and destination CIDRs are of different families gets a one-sided line
  per family (`Traps.OneSideIsDropped`), ports vanish when a rule names only protocols without
  ports (`Traps.PortsAreDropped`), and the route-set condition vanishes when every referenced
  set is disabled or empty (`Traps.SetConditionVanishes`). All of them widen the rule and none
  of them narrows it.
- Tunnel IDs, domains, GeoIP tags and application and service labels are match fields in the
  architecture document, and the code compiles none of them. A validated blackhole rule for one
  domain, country, application and service drops every new forwarded packet
  (`Traps.TaggedBlackholeDropsAll`). What these fields mean is left open: a reading says, and
  the theorems hold for every reading under which empty fields say nothing.
- Two route-set IDs can become one nft name (`a-b` and `a.b`); the name then holds both sets
  (`MatchMeaning.NameDenotesSetIff`, `Traps.ClashingNamesWiden`).
- `MatchMeaning.CompilationExactIff` gathers these: the lines of a rule are exact under every
  reading if and only if every family they can match keeps its ports, sets and CIDR sides, no
  clashing name adds a prefix, and the uncompiled fields are empty.
- Two enabled rules with one priority share one `ip rule` slot and the later one in the
  configuration keeps it (`Traps.TiedPrioritiesLoseAMark`); `EndToEnd.RoutingSoundIff` says
  exactly when every mark still reaches its table.
- `ip rule` without `-6` edits the IPv4 rule list only, so marked IPv6 packets are looked up
  in the main table (`EndToEnd.EndToEndRouting`).
- A steering rule without a mark anywhere has no lines, so its packets fall through to later
  rules (`Traps.MarklessRuleIsSkipped`); one with a mark and no table marks its packets and
  leaves them to the main table, unless another rule routes that mark
  (`Traps.MarkWithoutTableGoesToMain`, `EndToEnd.MarksLeadAsRouted`).
- Failover members of one family with equal metrics overwrite each other
  (`FailoverTables.EveryMemberKeptIff`, `FailoverPlan.PlannedMembersKeptIff`).
- A 1:1 pair can lose its external address to an earlier pair inbound, and its internal address
  outbound (`NatPairs.InboundEffectiveIff`, `NatPairs.OutboundEffectiveIff`).
- A port forward prints its target as address, colon and port without brackets. For an IPv6
  address such as `fd00::5` the port becomes part of the address
  (`Traps.Ipv6ForwardLosesItsPort`); the target is read back exactly when the address has no
  double colon, ends with it, ends with a dotted part, or has no room for another group
  (`AddressText.TargetReadBackIff`). IPv4 addresses are always read back.
- Tunnels and routes are planned before bonds, bridges and VLANs, so a validated WAN group on a
  planned VLAN fails on a host without it (`Traps.GroupOnPlannedVlanFails`); a validated tunnel
  name can be one the kernel refuses (`Traps.UnusableTunnelNameFails`). `Completion.PlanCompletesIff`
  says exactly when the plan of a configuration completes.
- Saving the configuration to a path of the form `.router-<digits>.json` that does not exist
  yet can remove the saved file (`AtomicFile.SaveCanDeleteItsTarget`, `AtomicFile.SaveIsAtomicIff`).
- A dry run passes plans that every real run refuses: exactly those with a step of an unknown
  kind or an empty program, and no command step without a command
  (`Execution.DryRunMisleadsIff`).
- A key/value entry with the key `__proto__` is lost by the editor
  (`EditorText.KeyValuesRoundTripIff`).

## Model

| member | source | states |
|---|---|---|
| Addresses.SplitCIDRs | internal/router/nft.go:494-509 | splits a CIDR list by family, keeps order, skips malformed texts |
| Addresses.OverlapMeansCommonAddress | internal/router/nft.go:494-509 | two prefixes overlap by base address exactly when some address lies in both |
| Validation.ValidateTunnel | internal/config/validate.go:228-261 | a tunnel passes iff its identifiers, enumerations, mark, table, MTU and addresses are well-formed |
| Validation.ValidateWanGroup | internal/config/validate.go:153-184 | a WAN group passes iff it has members, all on known links, and every number is in range |
| Validation.ValidateStaticRoute | internal/config/validate.go:363-385 | a static route passes iff it has a parsed destination, a next hop, and known links |
| Validation.ValidateRouteRule | internal/config/validate.go:387-459 | a rule passes iff its priority is in 1-32765 and every reference in its match and action resolves |
| Validation.ValidatePlatform | internal/config/validate.go:506-604 | passes iff bonds, bridges, VLANs and VRFs have identifiers as names and known links as members, and the remaining platform sections pass |
| Validation.ValidateSecurity | internal/config/validate.go:461-504 | passes iff management ports, forwards, 1:1 pairs and the queue number are in range and on known links, and the remaining security sections pass |
| Validation.Validate | internal/config/validate.go:35-136 | accepts a configuration iff it satisfies the declarative predicate (unique IDs, resolved references, ranges, identifier grammar) and the sections outside the model pass |
| Refusals.AcceptedIff | internal/config/validate.go:35-604 | the modelled sections are accepted iff none of the listed reasons for a refusal applies: names, ranges, references, duplicates |
| Validation.KnownLinksAreIdentifiers | internal/config/validate.go:61-97 | every name another section may refer to satisfies the identifier grammar |
| MatchCompiler.IdentifierIsNftWord | internal/router/nft.go:471-488 | every sanitised name is a word that does not start with a digit; word characters are kept, others become underscores, with a prefix before a digit and for the empty text |
| MatchCompiler.SetNameInjective | internal/router/nft.go:39-44 | set names are equal iff family and sanitised identifier are; the suffixes are `_v4` and `_v6` |
| MatchMeaning.CubeMeaning | internal/router/nft.go:322-339 | the product of the factors accepts what all factors accept; its size is their product |
| MatchMeaning.PortFactor | internal/router/nft.go:375-400 | the port alternatives accept the intended ports, or everything when no listed protocol has ports |
| MatchMeaning.CidrFactor | internal/router/nft.go:402-425 | the CIDR alternatives per family, with an absent side unconstrained |
| MatchMeaning.SetFactor | internal/router/nft.go:343-373 | the route-set alternatives accept the addresses behind the live references, or everything when there is none |
| MatchMeaning.DeclaredNames | internal/router/nft.go:30-46 | a name is declared iff some enabled set with that identifier has CIDRs of the family |
| MatchMeaning.NamedSetContents | internal/router/nft.go:30-46 | a named set holds exactly the CIDRs of the enabled sets sharing its identifier |
| MatchMeaning.NameDenotesSetIff | internal/router/nft.go:343-373 | a name denotes its own set iff no set sharing the identifier adds a CIDR |
| MatchMeaning.CompiledMeaning | internal/router/nft.go:294-341 | exactly which packets the lines of a rule match, without side conditions |
| MatchMeaning.CompilationLosesNothing | internal/router/nft.go:294-341 | every packet a rule is written for, under any reading of its uncompiled fields, is matched by some line |
| MatchMeaning.LineCount | internal/router/nft.go:306-340 | the number of lines is the product of the three factor lists and at least one |
| MatchMeaning.NoStrayIff | internal/router/nft.go:343-373 | a check on prefixes decides whether clashing names add an address that no referenced set holds |
| MatchMeaning.MatchedMeetsFields | internal/router/nft.go:294-341 | a matched packet meets the compiled fields iff no factor was lost and its destination is not added by a clashing name |
| MatchMeaning.UnfaithfulOvermatches | internal/router/nft.go:294-341 | a family that is matched but loses a factor, gains a prefix or has uncompiled fields set has a packet matched against the rule's intent |
| MatchMeaning.CompilationExactIff | internal/router/nft.go:294-341 | lines and rule accept the same packets under every reading iff every family the lines can match keeps its ports, sets and CIDR sides, no clashing name adds a prefix and the uncompiled fields are empty |
| MatchMeaning.DistinctNamesHaveNoStrays | internal/router/nft.go:471-488 | with distinct sanitised identifiers no name adds an address |
| RuleOrder.OrderIsStable | internal/router/nft.go:161-164 | sorting is a permutation ascending by priority, ties in configuration order |
| RuleOrder.StableOrderUnique | internal/router/nft.go:161-164 | any conforming stable sort yields the same list |
| RuleOrder.OrderIndependent | internal/router/nft.go:208-211 | with distinct enabled priorities every permutation of the rules sorts to the same enabled rules |
| RuleActions.NftAction | internal/router/nft.go:427-469 | the action of a rule's lines, with the mark looked up from the first matching tunnel or group; `Verdicts.ForwardVerdict` and `Verdicts.PreroutingVerdict` say what it is |
| RuleActions.ResolveRuleRoute | internal/router/builder.go:1554-1571 | mark and table of a rule, filled from the first tunnel with the target ID |
| RuleActions.ResolveRuleRouteWithGroups | internal/router/builder.go:1573-1589 | mark and table of a rule, filled from the first group with the target ID |
| RuleActions.ResolversAgree | internal/router/nft.go:441-465 | for steering rules the lines set mark m exactly when the route resolver returns m other than 0 |
| Verdicts.RouteIsByFields | internal/router/builder.go:1554-1589 | in a validated configuration a rule's own mark and table come first, and those of the tunnel or group it names fill the gaps |
| PolicyChains.PreroutingRefinesPolicy | internal/router/nft.go:158-199 | the flat prerouting list is decided by the winning enabled routing rule; the queue gets exactly the packets no routing rule applies to |
| PolicyChains.ForwardRefinesPolicy | internal/router/nft.go:201-237 | tracked and invalid packets first; then the winning drop or reject rule, which exists whenever a packet is dropped by a rule |
| PolicyChains.ChainsIgnoreConfigOrder | internal/router/nft.go:161-164 | with distinct enabled priorities every permutation compiles to the same two chains |
| PolicyChains.FaithfulWinner | internal/router/nft.go:158-199 | for faithfully compiled rules with a mark wherever they steer, the line that wins belongs to the first rule by priority that is written for the packet, uncompiled fields included |
| InputChain.InputAdmitsExactly | internal/router/nft.go:103-123 | the input lines under either policy accept exactly loopback, allowed tracked replies, and non-invalid ICMP or management traffic |
| CompiledTable.TableChains | internal/router/nft.go:13-28 | each chain of the table holds the lines compiled for it, and the two NAT chains are there only while NAT is on |
| Verdicts.ForwardVerdict | internal/router/nft.go:201-237 | the table passes tracked packets, drops invalid ones, and then the first drop or reject rule with a matching line drops or rejects, logs and names itself as configured |
| Verdicts.PreroutingVerdict | internal/router/nft.go:158-199 | the first direct or marked steering rule with a matching line sets mark zero or its mark and logs as configured; packets without one go to the queue |
| Verdicts.ChainPolicies | internal/router/nft.go:104-109 | only the input chain drops by default, and only while the firewall is on |
| Verdicts.InputVerdict | internal/router/nft.go:103-123 | the table admits exactly loopback, allowed tracked replies, and non-invalid ICMP or management traffic, or anything while the firewall is off |
| NatPairs.PairsTakePrecedence | internal/router/nft.go:48-69 | while NAT is on the first 1:1 pair that applies translates the packet, ahead of forwards and masquerades; while it is off nothing is translated |
| NatPairs.OneToOneIsBijection | internal/router/nft.go:239-265 | while NAT is on, with distinct IPv4 single-host pairs, inbound and outbound rewriting undo each other |
| NatPairs.InboundEffectiveIff | internal/router/nft.go:48-69 | a pair's inbound rewrite takes effect iff NAT is on and the first pair that claims its external address on the interface leads to the same internal address |
| NatPairs.OutboundEffectiveIff | internal/router/nft.go:239-260 | a pair's outbound rewrite takes effect iff NAT is on and the first pair that claims its internal address on the interface leads to the same external address |
| AddressText.TargetReadBackIff | internal/router/nft.go:95 | a printed target is read back as its address and port iff the address does not go on behind a colon, which no IPv4 address does |
| NatMeaning.ForwardSendsIff | internal/router/nft.go:95 | the lines of a validated forward send packets to its address and port iff the address does not go on behind a colon |
| NatMeaning.ForwardsBehindPairs | internal/router/nft.go:48-101 | while NAT is on, an IPv4 packet no pair claims goes to the IPv4 address and port of the first enabled forward written for it; without one, or with NAT off, it is left alone |
| NatMeaning.MasqueradedIff | internal/router/nft.go:239-292 | unclaimed by a pair, a packet is masqueraded iff NAT is on and it leaves through a link of a WAN, masquerading interface, or NAT rule |
| NftWriter.NftIdentifier | internal/router/nft.go:471-488 | character-by-character sanitising |
| NftWriter.Ruleset.WriteRouteSets | internal/router/nft.go:30-46 | declares each enabled set once per family and warns about dynamic inputs, in order |
| NftWriter.Ruleset.PortExpressions | internal/router/nft.go:375-400 | one port alternative per tcp or udp protocol and a warning per skipped protocol |
| NftWriter.Ruleset.RouteSetExpressions | internal/router/nft.go:343-373 | set references of the enabled sets, with the warnings in order |
| NftWriter.CombineFamilies | internal/router/nft.go:402-425 | at most one address part per family |
| NftWriter.ProductOf | internal/router/nft.go:322-339 | the nested loops build the product, whose meaning is `MatchMeaning.CubeMeaning` |
| NftWriter.Ruleset.MatchExpressions | internal/router/nft.go:294-341 | the match parts of a rule and the warnings compiling them adds |
| NftWriter.Ruleset.WritePreroutingChain | internal/router/nft.go:158-199 | appends the prerouting chain and its warnings, and nothing else |
| NftWriter.Ruleset.WriteForwardChain | internal/router/nft.go:201-237 | appends the forward chain and its warnings, and nothing else |
| NftWriter.Ruleset.WriteInputChain | internal/router/nft.go:103-123 | appends the input chain with the policy the firewall switch selects |
| NftWriter.Ruleset.WriteDstNatChain | internal/router/nft.go:48-101 | appends the dstnat chain, targets as they are printed, when NAT is on and there are pairs or forwards |
| NftWriter.Ruleset.WritePostroutingChain | internal/router/nft.go:239-292 | appends the postrouting chain when NAT is on |
| NftWriter.BuildNftables | internal/router/nft.go:13-28 | the whole table and all warnings, in order |
| Warnings.WarnedIff | internal/router/nft.go:13-28 | each warning is given iff something in the configuration deserves it: a dynamic or empty set, a wide pair, skipped ports, an unmapped field of an enabled rule |
| Kernel.DoRefinesFlat | internal/router/builder.go:775-776 | deleting and adding an `ip rule` is one map update while no priority is used twice |
| Kernel.RunRefinesFlat | internal/router/builder.go:738-778 | a run over the rule list is a run over one cell per priority |
| Reapply.ReapplyIsNoOp | internal/router/builder.go:167-260 | a plan that succeeded once succeeds again and leaves links, addresses, routes and rules unchanged |
| Reapply.LastWriterWins | internal/router/builder.go:738-778 | each rule priority and route key ends with what the last step writing it wrote, or its old value |
| RoutingPlan.CollectOptions | internal/router/builder.go:664-669 | the non-empty options as key/value arguments in the fixed order |
| FailoverTables.EveryMemberKeptIff | internal/router/builder.go:1613-1623 | every member keeps its default route iff no two members of a family share a metric with different next hops |
| FailoverTables.DefaultsAreMembers | internal/router/builder.go:1613-1623 | with distinct metrics the table's defaults are exactly the members' routes |
| FailoverTables.FailoverSelectsBest | internal/router/builder.go:1613-1623 | for any set of dead links the selected route is that of the live member with the smallest priority, unset counting as 100 |
| FailoverPlan.SoleDefaultIsAlone | internal/router/builder.go:738-778 | when nothing else in the configuration writes the table's default, no other step of the plan does |
| FailoverPlan.PlannedMembersKeptIff | internal/router/builder.go:1591-1625 | in a configuration's plan every member of such a group keeps its default iff no two of a family share a metric with different next hops |
| FailoverPlan.PlannedFailoverSelectsBest | internal/router/builder.go:1591-1625 | after a configuration's plan, for any set of dead links, the selected default is that of the best live member |
| FailoverPlan.PlannedWeights | internal/router/builder.go:1597-1611 | after a configuration's plan the one default of a sole weighted group's table holds its members in order, with gateways, devices and weights |
| TunnelOutcome.LinkOutcome | internal/router/builder.go:167-260 | a link ends with its old description or the first ensured one, the last MTU set, and up if it was ever brought up |
| TunnelOutcome.TunnelDeviceReady | internal/router/builder.go:178-255 | after a successful plan the device of every enabled kernel-made tunnel exists, is up, has its MTU and holds all its addresses |
| TunnelOutcome.OwnTunnelReady | internal/router/builder.go:178-255 | a tunnel that shares its name with no other ends with its own description and MTU |
| TunnelOutcome.TunnelTableReady | internal/router/builder.go:256-258 | the default of a tunnel's table is its device unless a later step writes that route |
| Devices.DeviceIsAsked | internal/router/builder.go:178-198 | the plan creates a device for exactly the kernel tunnels, and its words are read back as the tunnel's kind, family flag and set options |
| Devices.TunnelConfigures | internal/router/builder.go:243-258 | exactly what an enabled tunnel's steps are: its device, MTU, state, addresses and default route, by its fields |
| Devices.OwnDevice | internal/router/builder.go:178-255 | a tunnel that shares its name with no other ends as the device it asks for, up and with its MTU |
| Completion.RunCompletesIff | internal/router/builder.go:167-260 | a run succeeds iff every step finds the links it names and the kernel takes its route or device name |
| Completion.PlanCompletesIff | internal/router/builder.go:738-778 | the plan of a configuration completes iff every device it uses is there or created in time under a usable name, no IPv4 destination has host bits and every gateway is of its route's family |
| Departure.TunnelCarries | internal/router/builder.go:256-258 | a packet that a tunnel rule wins leaves by the tunnel's device unless a later step writes its table's default or a longer prefix leads elsewhere |
| Departure.BestMemberCarries | internal/router/builder.go:1613-1623 | a packet that a rule for a sole failover group wins leaves by a member's device iff that member is the best live one |
| EndToEnd.FinalRules | internal/router/builder.go:763-777 | after a successful plan the rule list holds the three standard rules and the surviving entries, nothing else |
| EndToEnd.RoutingSoundIff | internal/router/builder.go:763-777 | every routed rule's mark reaches its table iff marks map to one table and keep an entry despite equal priorities |
| EndToEnd.DistinctPrioritiesSurvive | internal/router/builder.go:763-777 | with distinct enabled priorities every entry stays |
| EndToEnd.Ipv6RulesUntouched | internal/router/builder.go:775 | no plan changes the IPv6 rule list |
| EndToEnd.MarksLeadAsRouted | internal/router/builder.go:763-777 | with distinct priorities and one table per mark, a mark leads to the table of the rules that carry it, or to main when none has a table |
| EndToEnd.EndToEndRouting | internal/router/nft.go:158-192 | an IPv4 packet goes where the mark of the winning rule leads, direct and unmatched packets to main; every IPv6 packet goes to main from the standard IPv6 rules |
| ValidatedPolicy.ValidatedRulesCompile | internal/config/validate.go:409-447 | validation establishes unique set IDs, parsed prefixes, valid ports and resolved set references |
| ValidatedPolicy.NoPacketIsLost | internal/router/nft.go:294-341 | for every validated rule and every reading, compilation loses no packet |
| ValidatedPolicy.NoDanglingReference | internal/router/nft.go:343-365 | every set named in a line is declared and belongs to a set the rule names; with distinct identifiers it holds exactly its CIDRs |
| ValidatedPolicy.PolicyIsRouted | internal/router/builder.go:763-777 | for faithfully compiled, marked rules with distinct priorities and functional marks, the first rule by priority that is written for an IPv4 packet decides its mark and table, end to end |
| ValidatedPolicy.MarksAgree | internal/router/builder.go:1554-1589 | both resolvers give one nonnegative mark, and its hexadecimal and decimal texts denote it |
| ValidatedPolicy.TiedMarkFallsThrough | internal/router/builder.go:763-777 | a mark whose rules all share their priority with a later routed rule leads to the main table |
| Traps.PortsAreDropped | internal/router/nft.go:375-400 | in a validated configuration a port rule for ICMP matches every ICMP packet |
| Traps.OneSideIsDropped | internal/router/nft.go:402-425 | in a validated configuration a rule with an IPv4 source and an IPv6 destination matches every packet from the source |
| Traps.SetConditionVanishes | internal/router/nft.go:343-373 | in a validated configuration a rule whose only set is disabled matches every packet |
| Traps.UncompiledFieldsMatchAll | internal/router/nft.go:294-341 | a rule whose only conditions are uncompiled fields matches every packet |
| Traps.TaggedBlackholeDropsAll | internal/router/nft.go:201-237 | a validated blackhole rule for a domain, country, application and service drops every new forwarded packet, written for it or not |
| Traps.ClashingNamesWiden | internal/router/nft.go:471-488 | in a validated configuration with sets `a-b` and `a.b` a rule naming the first also matches the second set's addresses |
| Traps.TiedPrioritiesLoseAMark | internal/router/builder.go:763-777 | in a validated configuration with a tie the first rule's mark leads to the main table instead of its own |
| Traps.MarklessRuleIsSkipped | internal/router/nft.go:441-469 | a validated steering rule without a mark decides no packet it is written for |
| Traps.MarkWithoutTableGoesToMain | internal/router/builder.go:771-774 | a validated steering rule with a mark and no table leaves its packets to the main table |
| Traps.Ipv6ForwardLosesItsPort | internal/router/nft.go:95 | a validated forward to `fd00::5` and port 8080 names the address `fd00::5:8080` and no port |
| Traps.GroupOnPlannedVlanFails | internal/router/builder.go:22-25 | a validated WAN group on a planned VLAN makes the plan fail on a host without the VLAN |
| Traps.UnusableTunnelNameFails | internal/router/builder.go:178-180 | a validated tunnel name with a colon or more than 15 characters makes the plan fail on a host without the device |
| Witnesses.SteeringRuleSteers | internal/router/builder.go:763-777 | a one-rule configuration meets every hypothesis of `ValidatedPolicy.PolicyIsRouted`, and its packets reach the rule's table |
| Witnesses.TunnelRuleCarries | internal/router/builder.go:167-260 | a one-tunnel configuration meets every hypothesis of `Departure.TunnelCarries`, and its packets leave by the tunnel |
| Numerals.IntRoundTrip | internal/router/builder.go:775 | a printed integer is read back as itself |
| Numerals.MarkTextsAgree | internal/router/nft.go:456-465 | hexadecimal and decimal texts of a mark denote the same number |
| ShellWords.CommandString | internal/control/plan.go:75-81 | rendering overwrites the words with their quoted forms and joins them |
| ShellWords.QuotingRoundTrip | internal/router/builder.go:707-736 | tokenising a rendered command gives back exactly the program and its arguments |
| ShellWords.FixedPointIff | internal/control/plan.go:83-96 | a word is printed unquoted iff it is non-empty and of letters, digits and ten listed characters |
| Scripts.ScriptTokens | internal/router/builder.go:775-776 | a script of safe words is read as exactly its words and operators |
| LinkCommands.AddLinks | internal/router/builder.go:884-938 | the scripts and direct commands of bonds, bridges, VLANs and VRFs, in order and with their exact texts |
| LinkCommands.EmittedScripts | internal/router/builder.go:884-936 | what the emitted link commands hand to a shell is the list of link scripts, in order |
| LinkCommands.EmittedScriptsAreRead | internal/router/builder.go:891-933 | in a validated configuration the shell reads each emitted link script as its template with the names as single words |
| LinkMeaning.SectionHoldsAll | internal/router/builder.go:884-936 | the section holds the commands of every bond, bridge, VLAN and VRF, each in one piece |
| LinkMeaning.BondRead | internal/router/builder.go:885-899 | a bond's commands are read back: made with its mode, resized, each member down, joined to the bond and up again, and up |
| LinkMeaning.BridgeRead | internal/router/builder.go:900-914 | a bridge's commands are read back: made, its switches set, each member joined to the bridge and up, and up |
| LinkMeaning.VlanRead | internal/router/builder.go:915-924 | a VLAN's commands are read back: made on its parent with its ID, resized, addresses assigned, and up |
| LinkMeaning.VrfRead | internal/router/builder.go:931-938 | a VRF's commands are read back: made with its table, up, and each interface attached |
| LinkMeaning.BondOutcome | internal/router/builder.go:885-899 | after its commands a bond is up with MTU and mode, and every member's master is the bond |
| LinkMeaning.BridgeOutcome | internal/router/builder.go:900-914 | after its commands a bridge is up with its spanning tree and filtering as configured, and every member's master is the bridge |
| LinkMeaning.VlanOutcome | internal/router/builder.go:915-924 | after its commands a VLAN is up with its MTU and addresses, on its parent with its ID |
| LinkMeaning.VrfOutcome | internal/router/builder.go:931-938 | after its commands a VRF is up with its table, and every interface's master is the VRF |
| Templates.ValidatedNamesNeedNoQuotes | internal/config/validate.go:522-566 | known links and VRF names are identifiers and fixed points of quoting |
| StepReadings.EnsureRoundTrip | internal/router/builder.go:674 | the text of a device script is read back as the step that ensures the device |
| StepReadings.RuleRoundTrip | internal/router/builder.go:775 | the text of a policy-rule script is read back as its priority, mark and table |
| RoutingCommands.StaticRouteArgs | internal/router/builder.go:746-760 | the argument list of a static route |
| RoutingCommands.WeightedArgs | internal/router/builder.go:1597-1610 | the argument list of a weighted group |
| RoutingCommands.FailoverArgs | internal/router/builder.go:1613-1622 | the argument list of a failover member |
| RoutingCommands.AddWanGroupPlan | internal/router/builder.go:1591-1625 | one command, one warning, or one command per member |
| RoutingCommands.AddRoutingPlan | internal/router/builder.go:738-778 | appends the commands of groups, static routes and rules in stable priority order |
| RoutingCommands.StaticRead | internal/router/builder.go:746-760 | a static route's arguments are read back as its destination, table, metric and next hop, omitted options as their defaults |
| RoutingCommands.EcmpRead | internal/router/builder.go:1597-1610 | a weighted group's arguments are read back as one next hop per member in order, with gateway, device and weight, an unset weight as 1 |
| RoutingCommands.MemberRead | internal/router/builder.go:1613-1622 | a failover member's arguments are read back as its table, family, metric (100 when unset) and next hop |
| RoutingCommands.TunnelRouteRead | internal/router/builder.go:256-258 | a tunnel's default route command is read back as that route |
| RoutingCommands.RoutingMeans | internal/router/builder.go:738-778 | command by command, the emitted routing plan means the abstract one |
| RoutingCommands.RuleCommandsIgnoreConfigOrder | internal/router/builder.go:763-777 | with distinct enabled priorities every permutation of the rules emits the same `ip rule` commands |
| CommandMeaning.ExecutionRefinesRun | internal/control/executor.go:16-61 | executing commands that mean abstract steps succeeds exactly when those steps do and the host lets the rest through, and leaves the same kernel state |
| TunnelCommands.AddDevice | internal/router/builder.go:178-241 | appends the warnings and commands of each tunnel type and tells whether a service manages the device; `TunnelCommands.TunnelMeans`, `Devices.DeviceIsAsked` and `PlanNotes.DeviceNotes` say what they do |
| TunnelCommands.AddWireGuard | internal/router/builder.go:181-188 | a warning without a configuration file, otherwise the device and its configuration |
| TunnelCommands.AddIpTunnel | internal/router/builder.go:655-675 | the `ip tunnel` device with its mode and the options that are set |
| TunnelCommands.AddLinkTunnel | internal/router/builder.go:677-685 | the `ip link` device with its type and the options that are set |
| TunnelCommands.AddVxlan | internal/router/builder.go:687-698 | the VXLAN device, after a warning when it has no identifier |
| TunnelCommands.Configure | internal/router/builder.go:243-255 | MTU, state and addresses, or one warning when a service manages the device |
| TunnelCommands.AddTunnelPlan | internal/router/builder.go:167-260 | warnings and commands of every enabled tunnel, in order, with their exact texts |
| TunnelCommands.BuildPlan | internal/router/builder.go:22-23 | tunnel commands first, then routing commands, every step well built |
| TunnelCommands.TunnelMeans | internal/router/builder.go:167-260 | command by command, a tunnel's part of the plan means its abstract steps |
| TunnelCommands.PlanMeans | internal/router/builder.go:22-23 | the whole emitted plan of a validated configuration means the abstract plan |
| PlanNotes.DeviceNotes | internal/router/builder.go:178-241 | a tunnel's branch enables exactly the services its kind needs, warns exactly when it is doubtful, and leaves seven VPN and six proxy kinds to their profiles |
| PlanNotes.WireGuardLoads | internal/router/builder.go:181-188 | a WireGuard tunnel loads exactly its configuration file into its device |
| PlanNotes.PlanNotesIff | internal/router/builder.go:167-260 | the plan warns iff some enabled tunnel deserves it or an enabled group has no table, and enables exactly the services that enabled tunnels need |
| TunnelCommands.ExecutedPlan | internal/control/executor.go:16-61 | executing the emitted tunnel and routing plan succeeds exactly when the abstract plan does and the host lets the other steps through, and leaves the same kernel state |
| ExecutedPolicy.ExecutingTwiceIsOnce | internal/control/executor.go:16-61 | executing the emitted plan again reports no error and leaves the kernel as it is |
| ExecutedPolicy.ExecutionCompletesIff | internal/control/executor.go:16-61 | executing the emitted plan reports no error iff the host meets the plan's needs and lets the other steps through |
| ExecutedPolicy.ExecutedPolicyIsRouted | internal/router/builder.go:763-777 | after the emitted plan has been executed, the first rule by priority that is written for a packet decides its table |
| Execution.Plan.AddCommand | internal/control/plan.go:43-52 | appends one command step and keeps the plan well built |
| Execution.Plan.AddWrite | internal/control/plan.go:54-62 | appends one write step and keeps the plan well built |
| Execution.Plan.AddWarning | internal/control/plan.go:64-69 | appends one warning step and keeps the plan well built |
| Execution.Machine.Execute | internal/control/executor.go:16-61 | runs or previews the steps in order and stops at the first error |
| Execution.ExecutionIsPrefix | internal/control/executor.go:16-61 | results cover a prefix in order, only the last may carry an error, no error iff the whole plan ran |
| Execution.OnlyThePrefixActs | internal/control/executor.go:52-57 | steps behind a failing one have no effect |
| Execution.RealResults | internal/control/executor.go:40-76 | every result of a real run is what the environment made of its step in the world before it; cancellation is reported first, and an error is the last result |
| Execution.ExecutionConcat | internal/control/executor.go:16-61 | executing a concatenation is executing the parts, unless the first fails |
| Execution.DryRunChangesNothing | internal/control/executor.go:24-38 | a dry run leaves the world alone and fails iff a command step has no command |
| Execution.DryResults | internal/control/executor.go:24-38 | every result of a dry run shows its step: a command's rendering, a write's path, mode and size |
| Execution.DryRunRendersThePlan | internal/control/executor.go:24-38 | for plans built by the Add methods a dry run completes, and each rendered command tokenises to its words |
| Execution.CompletedRunsAreRunnable | internal/control/executor.go:40-66 | a plan that runs to its end holds only steps of known kind whose commands name a program |
| Execution.RunnableIff | internal/control/executor.go:40-66 | some environment completes a plan iff every step is runnable |
| Execution.DryRunMisleadsIff | internal/control/executor.go:24-66 | a plan passes dry and fails in every real run iff each command step has a command and some step has an unknown kind or an empty program |
| AtomicFile.Disk.ReplaceFile | internal/control/executor.go:91-114 | the operations on the directory, with every state recorded, follow the protocol |
| AtomicFile.Disk.Write | internal/control/executor.go:78-115 | mode parsing in front of the protocol |
| AtomicFile.Disk.SaveConfig | internal/config/config.go:739-779 | a configuration that fails validation or encoding changes nothing; otherwise saving is the same protocol with a fixed name pattern |
| AtomicFile.DistinctNamesAreAtomic | internal/control/executor.go:91-114 | with a temporary name other than the target every state is old or new and the return value tells which |
| AtomicFile.WriteFileIsAtomic | internal/control/executor.go:78-115 | every run of `writeFile` is all or nothing, since its temporary name is longer than the target's |
| AtomicFile.ModeIsPlaceValue | internal/control/executor.go:79-86 | a mode text stands for its positional value in base eight below 2^32; every other text is refused |
| AtomicFile.OwnerOnly | internal/control/executor.go:79 | without a mode text, and while it is written, a file has mode 0600 |
| AtomicFile.SaveIsAtomicIff | internal/config/config.go:755-778 | saving is all or nothing in every run iff the target exists or does not have the form of a temporary name |
| EditorText.ListIsFixedAfterOnePrint | web/app.js:866-868 | for every text, the parsed list survives printing and parsing |
| EditorText.TypedListReads | web/app.js:866-868 | items typed with any line breaks and commas between them and any white space around them are read in order |
| EditorText.RangeReads | web/app.js:870-875 | `from-to` is a range, a single number the range of itself |
| EditorText.PositiveRangesKept | web/app.js:870-875 | the ports read are exactly the positive ranges among the items |
| EditorText.PortsRoundTrip | web/app.js:870-879 | positive port ranges survive printing and parsing |
| EditorText.WanMembersRoundTrip | web/app.js:881-902 | WAN members survive printing and parsing, with weight 0 read as 1 and priority 0 as 100 |
| EditorText.MemberLineReads | web/app.js:881-892 | a line is read as interface, gateway, weight, priority and health check; a bare interface gets weight 1 and priority 100 |
| EditorText.NamedMembersKept | web/app.js:881-892 | the members read are exactly those of the lines that name an interface |
| EditorText.ParseKV | web/app.js:904-916 | the accumulating loop over the lines |
| EditorText.EntryReads | web/app.js:904-916 | `key=value` assigns the value and a bare key the empty text; the first equals sign counts |
| EditorText.KeyValuesRoundTripIff | web/app.js:762-771 | key/value text round-trips iff no key is the prototype accessor |

## Left out

- The exact text of nft lines and of their warnings: lines are match parts with an action, warnings are constructors.
- Parsing of CIDR and address texts by the Go library: prefixes, addresses and malformed texts are values, except the targets of port forwards; the commands take the spelling of a value as a parameter with an inverse on well-formed values, so two spellings of one prefix in one configuration are not represented.
- JSON, Go's `%q` and the regular expression engine; the identifier pattern is a character predicate with a length bound.
- nft's own load-time refusals: a translation that does not name its family, an IPv6 pair behind `ip daddr`, overlapping interval elements, host bits, `oifname` in prerouting; a line whose atoms name two families matches nothing.
- Kernel effects outside the model: routes flushed with a link, entries of earlier configurations, link options, neighbour state, gateways that no link reaches, what the `ip` program refuses in link options; a failed command ends the modelled run.
- Link names equal to a keyword of `ip`, such as `dev`, which the program could read as that keyword.
- TunnelCommands.AddTunnelPlan: the commands and file writes of OpenVPN, OpenConnect, FortiGate and proxy tunnels are a parameter, assumed to leave the modelled kernel state alone.
- TunnelCommands.BuildPlan: the tunnel and routing sections; host settings, interface state and certificates before them and services, platform, security and the loading of the ruleset behind them are not part of this plan.
- Services, BGP and other dynamic routing, QoS, monitoring, automation, certificates, captive portal, UPnP and antivirus.
- Validation.Validate: whether the sections outside the model pass their checks is a parameter; error texts are constructors, and which of several errors is reported first inside one entity is not modelled.
- Validation.ValidatePlatform: the checks of dynamic routing, QoS, monitoring and automation are one parameter.
- Validation.ValidateSecurity: the checks of antivirus and intrusion interfaces, DNS upstreams, captive portal and UPnP are one parameter.
- LinkCommands.AddLinks: VRRP between VLANs and VRFs; links made here and the kernel model of tunnels and routes are separate, so the two parts of the plan are not composed.
- The wording of step descriptions, of plan warnings and of the comments on masquerading and management lines: it is printed as in the source and has no further meaning.
- ShellWords.QuotingRoundTrip: the tokeniser has no expansions, comments, escapes or here-documents and refuses texts that use them unquoted; strings are NUL-free by use.
- Execution.Machine.Execute: the environment (processes, context, file system) is a parameter, and contents are measured in characters that stand for bytes.
- NatMeaning.ForwardsBehindPairs: packets of another family than the target, and what nft makes of a target that is not read back.
- AtomicFile.WriteFileIsAtomic: the death of the process, not of the machine, since nothing is synced before the rename; one process on one directory; creating the parent directory has no modelled effect, and a mode is the number passed to `Chmod`.
- EditorText.PortsRoundTrip: numbers are exact, not binary floating point; texts that are not plain digits are read by a parameter.
- The HTTP server, status probing, the updater, packaging and everything else of the web interface.
