# Technitium provider, verified

A Dafny model of the logic in the Terraform provider for Technitium DNS Server that has to keep
recorded state in step with a server of awkward habits, and proofs about it. The server is an
explicit small state; an operation of the provider is a sequence of calls, each of which may be
lost; a lost call has had no effect, except in the cluster join, where it may have.

`dafny verify dfyconfig.toml` checks everything.

| file | subject |
|---|---|
| `Text.dfy` | string functions, decimal numbers, Terraform's null, unknown and known values |
| `WireTable.dfy`, `Sorting.dfy` | pipe tables; sorting by a strict order |
| `RecordServer.dfy`, `RecordResource.dfy`, `RecordRuns.dfy` | forwarder (FWD) records on a server that acts on the first match |
| `RecordId.dfy` | composite record ids and their import |
| `DnssecGate.dfy`, `ZoneDnssec.dfy`, `ZoneRuns.dfy` | the DNSSEC change gate, its dispatch and read-back, whole runs |
| `ForwarderCanonical.dfy`, `ForwarderMeaning.dfy`, `ForwarderDrift.dfy` | canonical forwarder addresses, what they dial, and their comparison |
| `Tsig.dfy`, `UpdatePolicies.dfy`, `DhcpTables.dfy` | lists rewritten through one parameter |
| `ReservedLease.dfy`, `DhcpScope.dfy`, `DhcpRuns.dfy` | reservations and scopes of the DHCP server |
| `ZonePrimaries.dfy` | primary addresses compared through the server's normalization |
| `FilterZones.dfy` | blocked and allowed domains |
| `ClusterJoin.dfy` | joining a node over a connection that loses responses |
| `Stig.dfy` | compliance findings |

Classes carry the state that calls change; each method is proved against a function of the old
state, and the lemmas are about those functions. `Faults`, `Weather`, `Attempt` and the function
`lost` say which calls fail; a statement whose row does not restrict them holds whichever fail.

## What the proofs bring to light

- A missing FWD protocol is Udp to the guard (`internal/provider/record_fwd_guard.go:37-44`) but any
  protocol to the lookup by state (`internal/provider/record_id.go:226`), so the comment of another
  record can be picked up (`UntrackedProtocolTakesAnothersComment`).
- For the same reason an update whose plan has neither a comment nor a protocol can save the comment of
  another record (`SavedCommentSafeExactly`).
- A comment is looked up by everything the state tracks, the record to update by its key alone: when
  another tracked value has changed on the server and no refresh came between, the comment is erased
  (`StaleStateErasesTheComment`), and a changed validation flag is set back (`StaleValidationIsReset`).
- The comment on FWD ids (`internal/provider/record_id.go:28-30`) speaks of two forwarders that
  differ only by the validation flag; the guard never creates such a pair.
- The guard relies on an omitted `newProtocol` meaning Udp (`GuardUnderOtherReading`).
- A create of an FWD record without protocol or priority shows a difference at the next refresh
  (`CreateThenRefresh`), as does an update of one (`UpdateThenRefresh`) and an RSA block with a curve
  (`SavedBlockIsDeclared`).
- Without a refresh, an acknowledged identity that is new to the state may be the one the server
  already has; its keys are then replaced (`StaleStateRekeysADeclaredZone`, exactly
  `DeclaredZoneFallsExactly`).
- A forwarder that is an IPv6 address behind a final dot is not stable when it is spelled otherwise
  than it prints (`NoDrift`, `AddressBehindDotDrifts`), although it holds neither a blank nor a slash.
- The comment on creating a DHCP scope (`internal/provider/dhcp_scope_resource.go:473-476`) promises
  that state is persisted before any further call; the code reads the scope first, and if a read is
  lost the live scope stays untracked and every later create is refused (`CreateOrphans`).
- A `domain_search_list` or `ntp_server_domain_names` that is one empty text, or has a comma in an
  element, is accepted and reads back changed (`EmptySearchDomainDrifts`, exactly `UpdateHasNoDrift`).
- A declared MAC in two spellings, or an optional text configured as empty, does not read back as
  declared (`LeasesReadBack`, `CreateThenRead`).
- A domain that was added before another call of the same update failed is tracked by nobody
  (`FailedAddIsOrphaned`, and exactly `RunLeavesUntracked`).
- A cluster node that joined is lost at once when the response is lost to anything but a refused or
  reset connection, such as the timeout of the client (`internal/client/client.go:132`), for the
  state is then not queried (`TimeoutLosesTheNode`).
- A cluster node that joined can still be lost when the state query after a lost response fails too
  (`UnreadableStateLosesTheNode`).

## Model

| member | source | states |
|---|---|---|
| RecordServer.Server.RecordAdd | internal/client/records.go:49-76 | Adding appends the record last; with overwrite it replaces every FWD record of the name; a taken key is refused from 15.5 on; a lost call changes nothing |
| RecordServer.OtherTypesKeeps | internal/client/records.go:49-76 | An overwrite keeps every record of another type, in its place among them, and no FWD record |
| RecordServer.Server.RecordUpdate | internal/client/records.go:98-133 | The first-created record with the lower-cased forwarder and protocol is rewritten, omitted validation and comment are reset, and later records of an unchanged key collapse into it |
| RecordServer.Server.RecordDelete | internal/client/records.go:135-168 | The first-created match is removed, whatever validation flag or priority was sent |
| RecordResource.Resource.CountFWDMatches | internal/provider/record_fwd_guard.go:54-70 | The loop counts exactly the FWD records the server takes for the key, case ignored and an empty protocol read as Udp |
| RecordResource.Resource.FwdMatchCount | internal/provider/record_fwd_guard.go:74-83 | The count on the server, zero when the zone is gone, an error when the read is lost |
| RecordResource.Resource.GuardFWDUpdate | internal/provider/record_fwd_guard.go:129-150 | Passes exactly when at most one record has the key in state and, if the key changes, none has the planned one |
| RecordResource.Resource.CurrentComments | internal/provider/record_resource.go:776-788 | The comment of the first record that matches the state, the empty text when none does, an error when the zone is gone or the read is lost |
| RecordResource.Resource.BuildAddParams | internal/provider/record_resource.go:580-637 | The server reads the parameters as the planned record, omitted values at their defaults |
| RecordResource.Resource.BuildUpdateParams | internal/provider/record_resource.go:645-772 | Old key from state, new values only where the plan has them, the validation flag of the state where the plan omits it, the comment exactly when it is known |
| RecordResource.Resource.BuildDeleteParams | internal/provider/record_resource.go:790-856 | The server looks for exactly the key in state |
| RecordResource.RequestMeans | internal/provider/record_resource.go:728-769 | On the server an update request turns the record it finds into the planned record, and it looks for the key in state |
| RecordResource.UpdateFirstIsReplaced | internal/provider/record_resource.go:404-446 | With at most one match, the first-match update is the plain one: the record in state is replaced, all others keep value and place |
| RecordResource.DeleteFirstIsWithout | internal/provider/record_resource.go:476-506 | With at most one match, the first-match delete removes the key in state and nothing else |
| RecordResource.Resource.Create | internal/provider/record_resource.go:253-295 | New records, number of requests sent and state saved, for every combination of lost calls |
| RecordResource.Resource.SendUpdate | internal/provider/record_resource.go:419-446 | Past the guard, the request replaces exactly the record in state and carries the planned comment or the one on the server |
| RecordResource.Resource.Update | internal/provider/record_resource.go:404-471 | Guard, comment lookup, request and read-back: new records, number of requests sent and the state saved, for every combination of lost calls; what that state means is said by SavedCommentIsTheRecords and UpdateThenRefresh |
| RecordResource.Resource.Read | internal/provider/record_resource.go:297-394 | The first record that is as the state says refreshes the state, a null validation flag staying null; none, or a zone that is gone, drops it; a lost read is an error |
| RecordResource.Resource.Delete | internal/provider/record_resource.go:476-506 | Only the record in state goes; success means sent and not lost; nothing is sent when two records match |
| RecordRuns.UpdateTouchesOneRecord | internal/provider/record_fwd_guard.go:15-35 | An update changes at most one record and moves none |
| RecordRuns.DeleteCutsOneRecord | internal/provider/record_fwd_guard.go:15-35 | A delete cuts out the first match or nothing at all |
| RecordRuns.AmbiguousIsNeverSent | internal/provider/record_fwd_guard.go:34-35 | With two matching records neither an update nor a delete is sent |
| RecordRuns.GuardPassesExactly | internal/provider/record_fwd_guard.go:129-150 | The guard passes if and only if no two records have the key in state and every record with the planned key has the key in state |
| RecordRuns.ValidationKept | internal/provider/record_resource.go:745-761 | An update of the record the server takes for the one in state keeps its validation flag if and only if it is the flag in state, an untracked one being false |
| RecordRuns.TrackingKeepsValidation | internal/provider/record_resource.go:745-761 | Over all lists in which the record still is as the state says, no update loses the flag, if and only if the state tracks it |
| RecordRuns.StaleValidationIsReset | internal/provider/record_resource.go:756-761 | A flag turned on behind the state's back is turned off again |
| RecordRuns.TrackedLookup | internal/provider/record_resource.go:776-788 | With the protocol in state, the lookup by state finds the record the server finds by key, or none when that record no longer is as the state says |
| RecordRuns.CommentKept | internal/provider/record_resource.go:421-434 | With the protocol in state, an update that does not plan a comment keeps the one on the server if and only if the record still is as the state says or has none |
| RecordRuns.StaleStateErasesTheComment | internal/provider/record_resource.go:774-788 | A priority changed behind the state's back hides the record from the lookup, and its comment is erased |
| RecordRuns.TrackingKeepsTheComment | internal/provider/record_resource.go:421-434 | Over all lists in which the record still is as the state says, no update loses the comment, if and only if the protocol is in state |
| RecordRuns.UntrackedProtocolTakesAnothersComment | internal/provider/record_id.go:226-260 | For every state without a protocol there are two records such that the comment of one is written onto the other |
| RecordRuns.RunKeepsUnique | internal/provider/record_fwd_guard.go:129-150 | Over every run of creates, updates and deletes with any calls lost, distinct keys stay distinct |
| RecordRuns.RunNeverBlocksDelete | internal/provider/record_resource.go:483-494 | In such a run no delete is ever refused as ambiguous |
| RecordRuns.GuardUnderOtherReading | internal/provider/record_resource.go:736-738 | If an omitted newProtocol kept the stored protocol, the guard would suffice exactly when the plan names a protocol, the state is Udp, or the forwarder stays |
| RecordRuns.UnguardedDeleteTakesTheFirst | internal/provider/record_fwd_guard.go:21-22 | Unguarded, a delete aimed at the second of two matches removes the first |
| RecordRuns.UnguardedUpdateMerges | internal/provider/record_fwd_guard.go:23-23 | Unguarded, an update merges all matches into one |
| RecordRuns.CreateThenRefresh | internal/provider/record_resource.go:273-345 | The refresh after a create changes nothing in state if and only if protocol and priority are configured |
| RecordRuns.RefreshIsQuiet | internal/provider/record_resource.go:297-394 | Among records the server can tell apart, a refresh changes nothing in state if and only if some record is, comment included, what the state says |
| RecordRuns.RefreshDescribes | internal/provider/record_resource.go:297-394 | A refresh drops the state if and only if no record is as it says; else the new state describes one that is, comment included, and tracks the flag if and only if the old one did |
| RecordRuns.SavedCommentIsTheRecords | internal/provider/record_resource.go:448-466 | With a protocol in the plan, the comment an update saves is the comment the updated record then has on the server |
| RecordRuns.UpdateThenRefresh | internal/provider/record_resource.go:404-471 | The refresh after a successful update changes nothing in state if and only if protocol and priority are configured |
| RecordRuns.SavedCommentSafeExactly | internal/provider/record_resource.go:455-466 | Over all lists in which the record still is as the state says, an update saves the comment of the record it updates if and only if the plan has a comment or a protocol, or is looked up like the state; otherwise the read-back can find a record of another protocol |
| RecordId.SegmentRoundTrip | internal/provider/record_id.go:119-214 | The value segment of every type reads back as printed if and only if a CAA tag or FWD protocol holds no colon |
| RecordId.IdRoundTrip | internal/provider/record_id.go:32-85 | Importing a printed id recovers its fields if and only if zone, name and type are non-empty, hold no "::" and do not end in ":", the segment is non-empty, and tag and protocol hold no colon |
| RecordId.IdInjective | internal/provider/record_id.go:28-62 | Equal ids mean equal identities |
| RecordId.LegacyRoundTrip | internal/provider/record_id.go:162-192 | The three-field FWD form reads back with the validation flag absent if and only if the protocol holds no colon |
| RecordId.LegacyNeverCollides | internal/provider/record_id.go:168-178 | No three-field segment equals a four-field one, whatever the values |
| DnssecGate.EvaluateDNSSECGate | internal/provider/zone_dnssec_gate.go:97-204 | Rule by rule evaluation gives one refusal or one action, and the warnings, as the declarative reading of the rules says, which the next five rows fix from the inputs alone |
| DnssecGate.SignsOnlyValidPairs | internal/provider/zone_dnssec_gate.go:125-183 | The action is to sign or to re-sign only if the planned pair is one the server can honour |
| DnssecGate.UndecidedDoesNothing | internal/provider/zone_dnssec_gate.go:103-122 | A replacement or an unknown value gives no action and no error; an unknown value on a signed zone is announced, and nothing else is |
| DnssecGate.RefusesExactly | internal/provider/zone_dnssec_gate.go:124-194 | The errors for each of signed or unsigned state, enabled or disabled plan, same or new identity: none to stay as it is, a valid pair to sign, "unsigned" to unsign under strict, a valid pair and its own name to re-sign |
| DnssecGate.ActionReachesThePlan | internal/provider/zone_dnssec_gate.go:124-194 | Without an error the action takes the zone from its state to the plan, is no action if and only if the two agree, and takes keys if and only if the plan is unsigned or of another identity |
| DnssecGate.WarnsExactly | internal/provider/zone_dnssec_gate.go:124-204 | Going insecure is announced if and only if a signed zone is unsigned, regenerated keys if and only if it is re-signed, a stale "unsigned" if and only if nothing is to be unsigned and the posture is not silent |
| DnssecGate.NoIdentityIsUnsigned | internal/provider/zone_dnssec_gate.go:57-62 | No target identity, valid or not, reads "unsigned" |
| DnssecGate.UnsignedNeverResigns | internal/provider/zone_dnssec_gate.go:97-204 | The acknowledgment "unsigned" never leads to a re-sign, and an error always means no action |
| DnssecGate.IdentityDeterminesPair | internal/provider/zone_dnssec_gate.go:44-62 | Valid pairs with one identity are one pair, the RSA curve apart |
| ZoneDnssec.ZoneServer.Call | internal/client/zones.go:267-330 | A DNSSEC call takes its step or, lost or refused, none |
| ZoneDnssec.ZoneResource.DispatchAction | internal/provider/zone_resource.go:656-710 | The action of the gate becomes its calls in order; a re-sign stops after a failed unsign and is broken after a failed sign |
| ZoneDnssec.ZoneResource.Update | internal/provider/zone_resource.go:620-726 | Checks, gate, options, calls, read-back: server, calls made, state saved and error, for every combination of lost calls |
| ZoneRuns.UnsignIsAuthorized | internal/provider/zone_dnssec_gate.go:97-204 | An apply unsigns only if the configuration disables DNSSEC (under strict with "unsigned") or acknowledges its own valid identity, which is then new to the state |
| ZoneRuns.KeysOutliveOtherCalls | internal/provider/zone_resource.go:656-710 | Without an unsign call a signed zone keeps signature, keys and algorithm |
| ZoneRuns.UndecidedIsLeftAlone | internal/provider/zone_resource.go:620-726 | A zone that is renamed other than in letter case, of another type, not Primary, or with unknown DNSSEC values gets no DNSSEC call, and the update succeeds if and only if nothing else is lost |
| ZoneRuns.CycleFallsOnlyByAuthority | internal/provider/zone_resource.go:620-726 | A cycle, whatever is lost, takes signature, keys or algorithm only if its configuration disables DNSSEC (under strict with "unsigned") or acknowledges exactly its own valid identity, which is new to the state read and, with a refresh, to the server |
| ZoneRuns.KeysFallOnlyByAuthority | internal/provider/zone_resource.go:620-726 | The same for every cycle of every sequence of refresh, plan and apply cycles, with any configurations, lost calls and outside changes |
| ZoneRuns.KeysFallExactly | internal/provider/zone_resource.go:620-726 | A cycle takes signature, keys or algorithm of a signed zone if and only if nothing stops it before its first call and its configuration, with authority, takes them from the state that was read |
| ZoneRuns.KeysFallExactlyInRuns | internal/provider/zone_resource.go:620-726 | The same for every cycle of every sequence, outside changes included |
| ZoneRuns.DeclaredZoneFallsExactly | internal/provider/zone_resource.go:653-691 | A zone that is as declared loses its keys if and only if the refresh was skipped, nothing stops the cycle in time, and the configuration takes them from the stale state |
| ZoneRuns.StaleStateRekeysADeclaredZone | internal/provider/zone_resource.go:682-691 | It happens: state at P256, server and acknowledged configuration at P384 |
| ZoneRuns.UnsignedAuthorizesNoResign | internal/provider/zone_dnssec_gate.go:87-93 | With "unsigned" an enabled configuration has no authority to unsign |
| ZoneRuns.RefreshMirrors | internal/provider/zone_resource.go:988-1018 | After a refresh the state has the server's signing status, identity and proof; enabled is whether the zone is signed, the acknowledgment stays, and an unsigned zone changes nothing else of the block |
| ZoneRuns.IanaRoundTrip | internal/provider/zone_resource.go:1193-1213 | The IANA name of a requested pair maps back to the pair, RSA without its curve |
| ZoneRuns.GateOnRefreshed | internal/provider/zone_dnssec_gate.go:232-260 | On refreshed state the gate chooses what the server itself still needs |
| ZoneRuns.EveryCallIsProgress | internal/provider/zone_resource.go:656-710 | On refreshed state the distance falls by exactly the number of calls that got through |
| ZoneRuns.OneApplyConverges | internal/provider/zone_resource.go:620-726 | One refresh and failure-free apply of a permitted configuration reaches it, RSA and combined changes included, and the next plan is empty |
| ZoneRuns.RetriesAreBounded | internal/provider/zone_resource.go:682-710 | However cycles of one configuration fail, they make at most two DNSSEC calls in all |
| ZoneRuns.BrokenResignRecovers | internal/provider/zone_resource.go:692-708 | After a re-sign that fails midway the next refreshed cycle signs; without refresh it does so if and only if the recovery read got through |
| ZoneRuns.SavedBlockIsDeclared | internal/provider/zone_resource.go:1000-1013 | The saved block equals the declared one if and only if it is not RSA with a curve |
| ForwarderCanonical.EffectivePortAgain | internal/provider/forwarder_canonical.go:77-88 | The printed port dials what the given one dials, and is accepted again as it is; 53 is accepted under Udp and Tcp alone, 853 under Tls and Quic alone |
| ForwarderMeaning.PortRefusedExactly | internal/provider/forwarder_canonical.go:77-88 | A port is accepted if and only if it is none; under Udp a number from 1 to 65535 other than the text 853; otherwise one printed in plain decimal, 53 under Tcp alone and 853 under Tls and Quic alone |
| ForwarderMeaning.SplitExactly | internal/provider/forwarder_canonical.go:136-165 | Splitting gives a host and a port if and only if the text is a bracketed IPv6 address, alone or before a colon and the port, or a host before the only colon, or all host |
| ForwarderMeaning.AcceptedExactly | internal/provider/forwarder_canonical.go:62-107 | What stands before the parentheses is accepted if and only if it is an HTTPS URL the library accepts, under Https, or spells a port that is accepted and a host without a zone, an address if it is all digits and dots |
| ForwarderMeaning.ForwarderAcceptedExactly | internal/provider/forwarder_canonical.go:23-134 | The whole is accepted if and only if it is not empty, holds no comma, has an address without a zone in its final parentheses, if any, and what stands before them is accepted |
| ForwarderMeaning.CanonicalDialsTheSame | internal/provider/forwarder_canonical.go:68-134 | An accepted host, alone or with a port, and its canonical form dial one host, a final dot, letter case and the spelling of an address aside, on one port, the protocol's own where none is given; under Https the form is the URL ending in /dns-query |
| ForwarderMeaning.CanonicalMeansTheSame | internal/provider/forwarder_canonical.go:23-134 | An accepted forwarder and its canonical form have the same address in parentheses; of what stands before it, blanks behind and a scheme aside, a URL stays and a host dials the same |
| ForwarderMeaning.AnySchemeIsStripped | internal/provider/forwarder_canonical.go:19-60 | The scheme of a transport, in any letter case, is cut off |
| ForwarderMeaning.ProtocolByName | internal/provider/forwarder_canonical.go:21-33 | A protocol goes by its name in any letter case, and any other text is refused |
| ForwarderCanonical.SplitPlain | internal/provider/forwarder_canonical.go:136-165 | A host without colons, alone or with a port, splits as it was joined |
| ForwarderCanonical.SplitBracketed | internal/provider/forwarder_canonical.go:136-165 | A bracketed text splits as it was joined if and only if it is an IPv6 address |
| ForwarderDrift.NoDrift | internal/provider/server_settings_forwarders.go:99-109 | A well-formed forwarder is the same as its stored canonical form under each of the five protocols, except exactly where a final dot hid an address that prints otherwise |
| ForwarderDrift.CanonicalAgain | internal/provider/forwarder_canonical.go:23-134 | A canonical form is refused by a second pass or printed the same but for letter case |
| ForwarderDrift.DottedAgain | internal/provider/forwarder_canonical.go:23-134 | An address behind a final dot is stable if and only if it is spelled as it prints |
| ForwarderDrift.AddressBehindDotDrifts | internal/provider/forwarder_canonical.go:90-107 | "0::1." under Tcp is well-formed, stored as "[0::1]", and not the same as what is stored |
| ForwarderDrift.BlankInHostDrifts | internal/provider/forwarder_canonical.go:23-134 | "x :53" under Tcp is stored as "x " and compared as "x" |
| ForwarderDrift.NestedSchemeDrifts | internal/provider/forwarder_canonical.go:19-60 | "udp://udp://x:53" under Udp is stored with the inner scheme and compared without it |
| ForwarderDrift.EmptyHostDrifts | internal/provider/forwarder_canonical.go:37-60 | An empty host in front of an IPv4 address in parentheses under Udp is stored without the scheme and compared without the blank |
| ForwarderDrift.ReconcileForwarders | internal/provider/server_settings_forwarders.go:56-73 | Null stays null; otherwise the result has the server's length and known elements, and is the server's list, or the configured one if each of its elements says the same |
| ForwarderDrift.CanonicalServerKeepsConfiguration | internal/provider/server_settings_forwarders.go:56-73 | A server that stores canonical forms leaves the configured list verbatim |
| ForwarderDrift.ReconcileTwice | internal/provider/server_settings_forwarders.go:56-73 | A second read changes nothing the first did not |
| WireTable.DecodeEncode | internal/client/tsig.go:50-63 | Cutting the cells by arity recovers every non-empty table of pipe-free cells |
| WireTable.OnlyEmptyHasNoPipe | internal/client/dhcp.go:337-399 | From two columns on only the empty table is written without a pipe |
| WireTable.EncodeInjective | internal/client/dhcp.go:337-399 | From two columns on, equal texts mean equal tables |
| Tsig.KeysRoundTrip | internal/client/tsig.go:50-63 | The server reads a pipe-free list as it was written, and "false" stands for the empty list alone |
| Tsig.Client.TSIGKeyGet | internal/client/tsig.go:36-48 | The first key of that name, letter case aside |
| Tsig.Client.WriteTSIGKeys | internal/client/tsig.go:53-63 | The server ends with what it reads out of the encoded list, or unchanged |
| Tsig.Client.TSIGKeyCreate | internal/client/tsig.go:77-99 | Refused on a pipe or a taken name; else the list with the key appended is written |
| Tsig.Client.TSIGKeyUpdate | internal/client/tsig.go:102-128 | Refused on a pipe or a missing name; else the list with that key replaced in place is written |
| Tsig.Client.TSIGKeyDelete | internal/client/tsig.go:131-153 | A missing key succeeds without a write; else the list of all other keys, in order, is written |
| Tsig.CreateRefinesMap | internal/client/tsig.go:77-99 | Create is insertion into a case-insensitive map and leaves the other keys in order |
| Tsig.UpdateRefinesMap | internal/client/tsig.go:102-128 | Update is replacement in that map, every other position unchanged |
| Tsig.DeleteRefinesMap | internal/client/tsig.go:131-153 | Delete is removal from that map |
| Tsig.StepIsExact | internal/client/tsig.go:67-74 | From a pipe-free list every step through the wire does exactly what it means |
| Tsig.RunKeepsNames | internal/client/tsig.go:77-153 | Over every run names stay unique and pipe-free, so every write arrives whole |
| Tsig.RunRefinesMap | internal/client/tsig.go:77-153 | Over every run the list, rewritten whole through the wire with any calls lost, is a case-insensitive map |
| Tsig.RequestSecrets | internal/client/client.go:461-473 | All values of the secret parameters, then every third cell of the key table from the second |
| Tsig.SecretsOfWrite | internal/client/client.go:466-471 | For the encoded key list those cells are exactly its secrets |
| Tsig.RedactedFromWrite | internal/client/client.go:461-473 | From a request that writes a key list a text is redacted if and only if it is a value of a secret parameter or a secret of the list |
| Sorting.SortedUnique | internal/provider/zone_resource.go:1148-1153 | Lists sorted by a strict order with the same elements are the same list |
| Sorting.SortSorted | internal/provider/zone_resource.go:1148-1153 | A list whose elements are pairwise ordered is sorted by any strict order |
| UpdatePolicies.ValidateUpdateSecurityPolicies | internal/provider/zone_resource.go:1111-1125 | Silent if and only if no two policies with known cells share key and domain |
| UpdatePolicies.UpdateSecurityPoliciesFromSet | internal/provider/zone_resource.go:1131-1156 | Policies in order of key and domain, types in order |
| UpdatePolicies.FormatUpdateSecurityPolicies | internal/client/zones.go:61-70 | The pipe table of key, domain and comma list, or "false" when there is none |
| UpdatePolicies.WireIsCanonical | internal/provider/zone_resource.go:1129-1156 | Any two listings of one set give the same request |
| UpdatePolicies.WireCarriesTheSet | internal/client/zones.go:56-70 | The server reads the configured set back, and "false" stands for the empty set alone |
| UpdatePolicies.WireMeansTheSet | internal/client/zones.go:56-70 | Two listings give the same request if and only if they mean the same set |
| UpdatePolicies.DuplicatePairsAreNotCanonical | internal/provider/zone_resource.go:1084-1086 | Two policies of one key and domain, listed in two orders, give one request if and only if they tidy to the same |
| UpdatePolicies.NoTypesReadAsOneEmptyType | internal/provider/zone_resource.go:258-262 | Without the schema's one type at least, two sets would share a request |
| UpdatePolicies.UpdateSecurityPoliciesToSet | internal/provider/zone_resource.go:1161-1191 | Repeated types are dropped and the meaning kept |
| WireTable.Flatten | internal/client/dhcp.go:339-345 | The loop of the encoders writes the cells of all rows joined by pipes |
| WireTable.TableRoundTrip | internal/client/dhcp.go:337-399 | A table of two columns or more survives the wire whole, and only the empty one is written without a pipe |
| DhcpTables.RoutesRoundTrip | internal/client/dhcp.go:339-345 | Static routes survive the wire, and only none is empty |
| DhcpTables.VendorInfoRoundTrip | internal/client/dhcp.go:348-354 | Vendor info survives the wire, and only none is empty |
| DhcpTables.OptionsRoundTrip | internal/client/dhcp.go:357-363 | Generic options survive the wire, codes printed in decimal, and only none is empty |
| DhcpTables.ExclusionsRoundTrip | internal/client/dhcp.go:366-372 | Exclusions survive the wire, and only none is empty |
| DhcpTables.LeasesRoundTrip | internal/client/dhcp.go:393-399 | Reservations survive the wire, and only none is empty |
| DhcpTables.PipeMakesRows | internal/provider/dhcp_validation.go:86-99 | Without the validation of pipes two tables share a text |
| ReservedLease.IDRoundTrip | internal/provider/dhcp_reserved_lease_resource.go:217-251 | Reading an id undoes writing it if and only if scope and MAC are non-empty and the MAC neither starts with a colon nor holds "::"; the scope may hold any colons |
| ReservedLease.NormalFormIsEqual | internal/provider/dhcp_reserved_lease_resource.go:254-262 | The normalized spelling is an equal one and its own normal form |
| ReservedLease.MacEqualExactly | internal/provider/dhcp_reserved_lease_resource.go:254-262 | Two MACs are equal if and only if they agree character by character, letter case and the kind of separator aside |
| ReservedLease.NormalHexIsEqual | internal/provider/dhcp_scope_resource.go:892-901 | Normalizing a hex value twice changes nothing more |
| ReservedLease.HexEqualExactly | internal/provider/dhcp_scope_resource.go:888-898 | Two hex values are equal if and only if their digits are, letter case and separators aside |
| ReservedLease.FindLease | internal/provider/dhcp_reserved_lease_resource.go:265-272 | Finds a listed reservation of an equal MAC if there is one |
| ReservedLease.FindReservedLease | internal/provider/dhcp_reserved_lease_resource.go:265-272 | The loop gives the first reservation of an equal MAC, or says there is none |
| ReservedLease.SpellingFindsTheSame | internal/provider/dhcp_reserved_lease_resource.go:265-272 | Either spelling of a MAC finds the same reservation |
| ReservedLease.Read | internal/provider/dhcp_reserved_lease_resource.go:141-174 | Error, removal or a refreshed state, the configured spelling kept |
| ReservedLease.ReadTells | internal/provider/dhcp_reserved_lease_resource.go:141-174 | A failed read is an error; a scope that is gone or lacks the MAC drops the state; else address and texts are those of the first reservation of the MAC, an empty text being null, and id, scope and spelling stay |
| ReservedLease.CreateThenRead | internal/provider/dhcp_reserved_lease_resource.go:119-174 | A created reservation reads back as declared, however its MAC is respelled, if and only if neither optional text is the empty text |
| ReservedLease.ImportThenRead | internal/provider/dhcp_reserved_lease_resource.go:202-212 | Importing a tracked reservation's id and reading gives what reading the tracked one gives |
| ReservedLease.PlannedMac | internal/provider/dhcp_reserved_lease_resource.go:239-246 | A reservation is replaced if and only if the configured MAC is another address |
| DhcpScope.ScopeFromModel | internal/provider/dhcp_scope_resource.go:647-722 | Null and unknown scalars are left out, undeclared lists are empty, undeclared reservations are not sent |
| DhcpScope.ScopeResource.DHCPScopeSet | internal/client/dhcp.go:166-213 | The set call as the server takes it: scalars merged, lists replaced, reservations only when sent, renamed only to another non-empty name |
| DhcpScope.KeepLeases | internal/provider/dhcp_scope_resource.go:819-842 | Each MAC takes the spelling of the first declared reservation of an equal MAC, empty texts become null |
| DhcpScope.KeepVendor | internal/provider/dhcp_scope_resource.go:777-793 | Vendor info keeps the configured spelling of equal bytes, by position |
| DhcpScope.KeepOptions | internal/provider/dhcp_scope_resource.go:794-809 | Generic options keep the configured spelling where code and bytes are equal, by position |
| DhcpScope.ModelFromScope | internal/provider/dhcp_scope_resource.go:729-843 | Declared lists are refreshed from the server, undeclared ones stay null; what a refresh then shows is said by DriftShows, ListDriftShows and LeaseDriftShows |
| DhcpRuns.DriftShows | internal/provider/dhcp_scope_resource.go:729-815 | For any scope the state has its name and flag, and is as planned if and only if the scope has the planned range, scalars (one it does not report being 0, false or empty), declared routes and exclusions, and declared vendor info and options up to the spelling of the bytes |
| DhcpRuns.ListDriftShows | internal/provider/dhcp_scope_resource.go:729-776 | For any scope the string lists are as planned if and only if each declared one is the server's, one it does not report being empty |
| DhcpRuns.LeaseDriftShows | internal/provider/dhcp_scope_resource.go:815-842 | Whatever the server lists, reservations show no difference if and only if they are the declared ones in order, MAC spelling aside, and no MAC is declared in two spellings |
| DhcpScope.ScopeResource.ScopeEnabled | internal/provider/dhcp_scope_resource.go:615-626 | The flag of the listed scope, false for one that is not listed, whatever the order of the list |
| DhcpScope.ScopeResource.ReconcileEnabled | internal/provider/dhcp_scope_resource.go:600-612 | The flag is switched only when it differs; a lost call changes nothing |
| DhcpScope.ScopeResource.Create | internal/provider/dhcp_scope_resource.go:440-498 | Server, state and error of a create for every combination of lost calls and whatever flag the set call leaves |
| DhcpScope.ScopeResource.Update | internal/provider/dhcp_scope_resource.go:527-580 | Server, state and error of an update likewise |
| DhcpRuns.UpdateTracksAScope | internal/provider/dhcp_scope_resource.go:552-612 | Wherever an update stops, the state names a scope that is there and other scopes are untouched; success means the enabled flag is the planned one |
| DhcpRuns.UpdateCarriesThePlan | internal/provider/dhcp_scope_resource.go:527-550 | Once the set call of a plan with pipe-free cells is through, known scalars are set, others kept, all tables replaced, all string lists replaced by what arrives of them, and reservations overwritten, cleared or left alone as declared, dropped or never declared |
| DhcpRuns.ListArrives | internal/client/dhcp.go:183-199 | A string list arrives as sent if and only if no element holds a comma and it is not one empty text |
| DhcpRuns.RunKeepsReservations | internal/provider/dhcp_scope_resource.go:535-555 | Over every interleaving of undeclaring scope updates, refreshes and standalone reservation calls, the list is what the standalone calls alone would leave |
| DhcpRuns.LeasesReadBack | internal/provider/dhcp_scope_resource.go:819-842 | A list echoed up to MAC spelling reads back as declared if and only if no optional text is empty and no MAC is declared in two spellings |
| DhcpRuns.VendorReadsBack | internal/provider/dhcp_scope_resource.go:777-793 | Vendor info respelled by the server reads back as declared |
| DhcpRuns.OptionsReadBack | internal/provider/dhcp_scope_resource.go:794-809 | Generic options respelled by the server read back as declared |
| DhcpRuns.UpdateHasNoDrift | internal/provider/dhcp_scope_resource.go:527-580 | After a successful update of a plan with pipe-free cells on a server that only respells, the state is the plan: string lists if and only if each arrives as sent, reservations if and only if they read back, all else always |
| DhcpRuns.CreateHasNoDrift | internal/provider/dhcp_scope_resource.go:440-498 | The same after a successful create, whose second read-back starts from the model of the first |
| DhcpRuns.EmptySearchDomainDrifts | internal/provider/dhcp_scope_resource.go:674-680 | A domain_search_list of one empty text is accepted and reads back as an empty list |
| DhcpRuns.CreateAdoptsNothing | internal/provider/dhcp_scope_resource.go:447-460 | A taken name is refused untouched, other scopes are left alone, success is a tracked scope with the planned flag |
| DhcpRuns.CreateOrphans | internal/provider/dhcp_scope_resource.go:468-484 | Once its set call is through, a create leaves a live scope untracked if and only if one of the two reads right after is lost, and the name is then refused for good |
| ZonePrimaries.SamePrimaryAddresses | internal/provider/zone_primaries.go:74-84 | Equal length and equal canonical texts, position by position |
| ZonePrimaries.CanonicalOfSpelling | internal/provider/zone_primaries.go:50-69 | Every spelling of an address has its lower-cased host and effective port as canonical text |
| ZonePrimaries.DefaultPortExactly | internal/provider/zone_primaries.go:50-69 | The port of a transfer protocol is 853 for Tls and Quic and 53 for all others |
| ZonePrimaries.SameMeansTheSame | internal/provider/zone_primaries.go:50-69 | Two spellings compare equal if and only if host, letter case aside, and effective port agree, or one host imitates the other address, for which it takes a pipe in that host and one in the other port |
| ZonePrimaries.PipesConfuse | internal/provider/zone_primaries.go:68-68 | It happens: a literal pair of addresses, one with a pipe before and one with a pipe behind its colon |
| ZonePrimaries.ServerFormIsSame | internal/provider/zone_primaries.go:43-49 | The server's brackets and default port do not count as a difference |
| ZonePrimaries.ResolvePrimaryAddresses | internal/provider/zone_primaries.go:91-107 | The prior list if it says the same, the server's otherwise, null when the server has none |
| ZonePrimaries.NormalizationIsNoDrift | internal/provider/zone_primaries.go:86-107 | A server that only normalizes leaves the configured list verbatim |
| ZonePrimaries.ResolvedAgain | internal/provider/zone_primaries.go:86-107 | The result is null if and only if the server has none, else says what the server says element by element, and a second read changes nothing |
| FilterZones.CheckAndSetCreate | internal/provider/blocking_common.go:81-93 | The domain is there afterwards, adopted if it was before; there is an error if and only if a call was lost, and it changes nothing |
| FilterZones.CheckAndSetDelete | internal/provider/blocking_common.go:97-109 | The domain is gone afterwards; there is an error if and only if a call was lost, and it changes nothing |
| FilterZones.ReconcileSet | internal/provider/blocking_common.go:115-145 | For every iteration order there is an error if and only if a call was lost; without one the list ends as (server - (state - plan)) + (plan - state); with one only domains due to change have changed, and nothing is removed before all additions are in |
| FilterZones.Refresh | internal/provider/blocked_zones_resource.go:106-144 | A read keeps exactly the tracked domains the server still has, and fails if and only if a call was lost |
| FilterZones.PlannedIsThere | internal/provider/blocking_common.go:111-114 | Everything planned is on the server if and only if the server still had what the plan keeps |
| FilterZones.RefreshThenUpdate | internal/provider/blocked_zones_resource.go:106-174 | Read, unless skipped, followed by update, whatever fails, is one of the attempts of a run, in what it leaves on the server and in state, and the one without an error if and only if no call was lost |
| FilterZones.CycleReachesThePlan | internal/provider/blocking_common.go:111-145 | A refreshed cycle ends with the plan and with all untracked domains |
| FilterZones.RunLeavesUntracked | internal/provider/blocking_common.go:115-145 | Over every run of cycles failing anywhere, refreshed or not, the untracked domains are exactly those untracked at first and those a failing cycle left behind, that no cycle without an error planned after |
| FilterZones.CleanEnd | internal/provider/blocking_common.go:115-145 | A run that ends without an error leaves those untracked domains and its last plan, all of it if and only if the last refresh was made or the server still had what the plan kept |
| FilterZones.FailedAddIsOrphaned | internal/provider/blocking_common.go:127-133 | One lost call is enough for an added domain that no later plan removes |
| FilterZones.CyclesOwnWhatWasPlanned | internal/provider/blocking_common.go:111-145 | After any number of refreshed cycles without an error the list is the last plan plus exactly the first domains that were never tracked or planned |
| ClusterJoin.TryOnce | internal/provider/cluster_secondary_resource.go:232-257 | One pass of the loop: request, its response arrived, refused or reset, or lost otherwise, deadline, state query, wait |
| ClusterJoin.Create | internal/provider/cluster_secondary_resource.go:231-265 | The loop makes the requests and queries, and ends, as the recursion over passes says |
| ClusterJoin.RetriesAreNeverBlind | internal/provider/cluster_secondary_resource.go:237-249 | Every request but the first follows a state query that failed or found the node not joined |
| ClusterJoin.SuccessMeansJoined | internal/provider/cluster_secondary_resource.go:246-265 | A create that ends well leaves the node joined |
| ClusterJoin.AtMostTwentyJoins | internal/provider/cluster_secondary_resource.go:231-257 | Ninety seconds and waits of five allow at most twenty requests |
| ClusterJoin.TwentyJoinsAreReached | internal/provider/cluster_secondary_resource.go:231-257 | A node that refuses every connection is asked twenty times |
| ClusterJoin.LandedJoinIsFound | internal/provider/cluster_secondary_resource.go:237-249 | A request that landed in time, its response lost to a refused or reset connection and the state readable, ends the create well at once |
| ClusterJoin.EndingIsHeard | internal/provider/cluster_secondary_resource.go:231-265 | A create ends well if and only if the last thing it hears is that the node is joined; the node is joined if and only if it was before or a request landed |
| ClusterJoin.NoSecondLanding | internal/provider/cluster_secondary_resource.go:237-241 | Requests to a joined node land no more and are never answered with success |
| ClusterJoin.LostExactlyWhenUnheard | internal/provider/cluster_secondary_resource.go:231-270 | In every weather a node is joined in vain if and only if a request landed unheard: last of all, or followed by a failed state query and none that found the node joined |
| ClusterJoin.LostExactlyInThisWeather | internal/provider/cluster_secondary_resource.go:231-270 | The same told by the weather alone: a request is reached and lands, its response does not arrive, and from that pass on no query is both reached, losses recognised and in time, and answered |
| ClusterJoin.OnlyTheDeadlineLosesTheNode | internal/provider/cluster_secondary_resource.go:231-257 | With readable states and refused or reset connections as the only lost responses, a node is joined in vain if and only if the landing request was answered after the deadline |
| ClusterJoin.TimeoutLosesTheNode | internal/provider/cluster_secondary_resource.go:267-270 | A response lost to a timeout ends the create at once with a joined node and no state query |
| ClusterJoin.UnreadableStateLosesTheNode | internal/provider/cluster_secondary_resource.go:237-249 | One failed state query after a landed request can still lose a joined node |
| Stig.LevelsInOrder | internal/provider/validators/stig_engine.go:58-70 | Low, moderate and high in that order and any letter case, and any other text below all of them |
| Stig.EffectiveBaseline | internal/provider/validators/stig_engine.go:73-91 | The highest of the three levels, never below low, in lower case |
| Stig.ControlInScope | internal/provider/validators/stig_engine.go:94-108 | True if and only if some control has no known baseline or one not above the effective level |
| Stig.InScopeExactly | internal/provider/validators/stig_engine.go:73-108 | A control is in scope if and only if its level is unknown, not above low, or not above one of the three levels |
| Stig.EmitFinding | internal/provider/validators/stig_engine.go:121-174 | One diagnostic: a warning when suppressed, else by enforcement, none in silent mode |
| Stig.Engine.RegisterBindings | internal/provider/validators/stig_engine.go:54-56 | The bindings of one resource are replaced, all others kept |
| Stig.Engine.ValidateConfig | internal/provider/validators/stig_engine.go:203-235 | Exactly the findings of the implemented, known, in-scope stateless checks that fail, in order |
| Stig.Engine.ValidatePlan | internal/provider/validators/stig_engine.go:246-278 | Likewise for the stateful checks |
| Stig.ScopeGrows | internal/provider/validators/stig_engine.go:94-108 | Raising a level takes no control out of scope |
| Stig.RaisingAddsFindings | internal/provider/validators/stig_engine.go:73-235 | Raising any of the three levels gives a supersequence of the findings, for every binding list and every outcome of the checks |
| Stig.ModesAgree | internal/provider/validators/stig_engine.go:166-173 | Warn emits the findings of strict as warnings, any other mode the suppressed ones alone |
| Stig.FindingsAreTheViolations | internal/provider/validators/stig_engine.go:121-235 | A diagnostic is emitted if and only if its requirement is violated, with the severity suppression and enforcement give it; a suppressed one is never an error |
| Stig.ValidationReports | internal/provider/validators/stig_engine.go:203-278 | Validating a configuration reports a requirement if and only if an implemented, in-scope binding of it has a stateless check that fails on it; validating a plan, a stateful one that fails on plan and state |

## Left out

- HTTP, TLS, redirects, JSON and the text of errors and warnings: a call gives an answer, "not there", or an error.
- Schemas, data sources, provider configuration, and the user, SSO, token, catalog and single-domain resources.
- Record types other than FWD beyond their ids; TTL and proxy settings of FWD records, which no step depends on.
- `internal/provider/dhcp_validation.go` and `internal/provider/inputvalidation`: one-branch checks of single values.
- Unicode letter case: strings are sequences of characters and only ASCII letters change case.
- Other clients acting between a guard's read and its write; between operations and cycles they may act at will.
- The library calls `netip.ParseAddr`, `Addr.String` and `url.Parse` are parameters; assumed of them is what `ForwarderCanonical.Lawful` and `ForwarderMeaning.CaseBlind` state.
- `sort.Slice` and `sort.Strings` are modelled by an insertion sort; `Sorting.SortedUnique` says that on the validated input any sort gives the same list.
- Server behaviour that the repository does not document and the model fixes: an update of a missing FWD record is refused, an omitted `newForwarderPriority` keeps the stored priority, a signed zone has a key, a DHCP rename onto a taken name or of a missing scope is refused, and no scope is without a name.
- DhcpScope.ModelFromScope: scalars are carried as values under their names rather than as one field and one typed parameter each, and the required texts of nested lists are taken as known, as they are at apply.
- ClusterJoin.Create: the mutex around the join and the credentials it carries are not part of the model.
- Stig.EmitFinding: a diagnostic is its requirement, severity and suppression; the wording and the baseline label are not modelled.
- DhcpRuns.UpdateCarriesThePlan: for cells without pipes, which validation rejects unless a value unknown at plan time makes it skip the configuration; `DhcpTables.PipeMakesRows` shows what a pipe does.
- DhcpRuns.UpdateHasNoDrift: likewise for cells without pipes.
- DhcpRuns.CreateHasNoDrift: likewise for cells without pipes.
- ForwarderDrift.NoDrift: exact for well-formed hosts; of the others it is shown that a blank at the end, a slash and an empty host can drift, not which of them do.
